/** User memory as the hardware sees it: the flat mappings of AddressSpaces held in
    the four-level tables of PageTable, with frames and tables from one allocator. */
module Machine {
  import opened Frames
  import opened CowModel
  import A = AddressSpaces
  import B = BuddyAllocator
  import BuddyModel
  import Bits
  import D = Descriptors
  import P = PageTable

  /** Pages of a 48-bit address space. */
  const PAGES: nat := 0x10_0000_0000

  function VAddr(v: nat): nat { 0x1000 * v }

  /** What the flat mappings say of page v, its frame given by address. The stack is one
      block of two pages. */
  ghost function FlatAt(pte: map<Key, Pte>, t: nat, v: nat): Option<Pte> {
    if (t, v) in pte then
      var e := pte[(t, v)];
      Some(Pte(A.Addr(e.frame), e.writable, e.exec))
    else if v == STACK_BASE + 1 && (t, STACK_BASE) in pte then
      var e := pte[(t, STACK_BASE)];
      Some(Pte(A.Addr(e.frame) + 0x1000, e.writable, e.exec))
    else None
  }

  /** What the bits of a leaf mean (Arm ARM, VMSAv8-64 page descriptors and direct
      permissions): bits 1:0 are 3 in a page descriptor and bit 10 is its access flag;
      bit 6, AP[1], lets user code read the page, and bit 7, AP[2], takes the write
      permission away; bit 54 is UXN, and bit 53 is PXN, which a page that user code
      may write does not need. */
  predicate IsPage(e: P.Entry) { e.attrs % 4 == 3 && e.attrs / 0x400 % 2 == 1 }
  predicate CanRead(e: P.Entry) { e.attrs / 0x40 % 2 == 1 }
  predicate CanWrite(e: P.Entry) { CanRead(e) && e.attrs / 0x80 % 2 == 0 }
  predicate CanRun(e: P.Entry) { e.attrs / 0x40_0000_0000_0000 % 2 == 0 }
  predicate KernelCanRun(e: P.Entry) { e.attrs / 0x20_0000_0000_0000 % 2 == 0 && !CanWrite(e) }

  /** A mapped page is one that user code can read, and write or run as the flat mapping
      says; the kernel cannot run it. */
  ghost predicate Agrees(e: P.Entry, m: Option<Pte>) {
    if m.None? then e == P.ZERO
    else
      && e.frame == m.value.frame && IsPage(e) && CanRead(e) && !KernelCanRun(e)
      && (CanWrite(e) <==> m.value.writable) && (CanRun(e) <==> m.value.exec)
  }

  ghost predicate PageSync(ts: P.Tables, pte: map<Key, Pte>, r: nat, t: nat, v: nat) {
    Agrees(P.LookupIn(ts, r, VAddr(v)), FlatAt(pte, t, v))
  }

  /** The tables of every task read as the flat mappings. */
  ghost predicate Sync(ts: P.Tables, pte: map<Key, Pte>, root: map<nat, nat>) {
    forall t, v: nat :: t in root && v < PAGES ==> PageSync(ts, pte, root[t], t, v)
  }

  /** Every task has a root of its own, and every mapping belongs to a task. */
  ghost predicate Rooted(root: map<nat, nat>, place: map<nat, P.Pos>, pte: map<Key, Pte>) {
    && (forall t :: t in root ==> P.IsRoot(place, root[t]))
    && (forall t, u :: t in root && u in root && t != u ==> root[t] != root[u])
    && (forall k :: k in pte ==> k.0 in root && k.1 < PAGES && k.1 != STACK_BASE + 1)
  }

  /** No table page is a user frame. */
  ghost predicate Apart(ts: set<nat>, mem: map<nat, Bytes>) {
    forall t :: t in ts ==> P.Index(t) !in mem
  }

  /** The sharing invariant depends only on the blocks that hold user memory. */
  lemma InvLive(s: State, live: Live)
    requires Inv(s) && forall f :: f in s.mem ==> f in live && f in s.live && live[f] == s.live[f]
    ensures Inv(s.(live := live))
  {
    var s' := s.(live := live);
    forall k | k in s'.pte
      ensures KeyOk(s', k)
    {
      assert KeyOk(s, k);
    }
    forall f | f in s'.mem
      ensures FrameOk(s', f)
    {
      assert FrameOk(s, f) && Mappers(s', f) == Mappers(s, f);
    }
  }

  /** Pages and addresses. */
  lemma SamePageIff(v: nat, u: nat)
    requires v < PAGES && u < PAGES
    ensures VAddr(v) < P.VA_LIMIT && (P.SamePage(VAddr(v), VAddr(u)) <==> v == u)
  {}

  /** The user permissions: PR_PW_UR_UW1, PR_UR and PR_UR_UX. */
  const RW: nat := D.Permission(true, false, 1)
  const RO: nat := D.Permission(true, true, 3)
  const RX: nat := D.Permission(false, true, 3)

  function PermsFor(prot: Prot): nat { if prot.Plain? then RW else if prot.exec then RX else RO }

  lemma PermissionAgrees(p: nat, uxn: bool, pxn: bool, ap: nat)
    requires ap == 1 || (ap == 3 && pxn)
    ensures D.OutsideMask(D.Permission(uxn, pxn, ap))
    ensures Agrees(P.LeafEntry(p, D.Permission(uxn, pxn, ap)), Some(Pte(p, ap == 1, !uxn)))
  {
    D.AttributeBits(uxn, pxn, ap);
    hide Bits.And, Bits.Or, D.OutsideMask, D.Permission;
    D.PermissionsOutsideMask(uxn, pxn, ap);
    D.PermissionBits(uxn, pxn, ap);
  }

  lemma PermsAgree(p: nat, prot: Prot)
    ensures D.OutsideMask(PermsFor(prot)) && Agrees(P.LeafEntry(p, PermsFor(prot)), Some(Entry(p, prot)))
  {
    hide D.OutsideMask, D.Permission, Agrees, P.LeafEntry;
    PermissionAgrees(p, !(prot.Segment? && prot.exec), prot.Segment?, if prot.Plain? then 1 else 3);
  }

  /** From ts to ts' exactly page v under root r changed, to entry e. */
  ghost predicate Rewrote(ts: P.Tables, place: map<nat, P.Pos>, ts': P.Tables, r: nat, v: nat, e: P.Entry) {
    forall q, u: nat :: P.IsRoot(place, q) && u < PAGES ==>
      P.LookupIn(ts', q, VAddr(u)) == if q == r && u == v then e else P.LookupIn(ts, q, VAddr(u))
  }

  /** One page changes in the tables and in the flat mappings. */
  lemma SyncSet(ts: P.Tables, place: map<nat, P.Pos>, ts': P.Tables, pte: map<Key, Pte>, pte': map<Key, Pte>,
                root: map<nat, nat>, t: nat, v: nat, e: P.Entry)
    requires Sync(ts, pte, root) && Rooted(root, place, pte) && t in root && v < PAGES
    requires Rewrote(ts, place, ts', root[t], v, e) && Agrees(e, FlatAt(pte', t, v))
    requires forall u, w: nat :: u in root && w < PAGES && (u, w) != (t, v) ==> FlatAt(pte', u, w) == FlatAt(pte, u, w)
    ensures Sync(ts', pte', root)
  {
    hide Agrees, FlatAt;
    forall u, w: nat | u in root && w < PAGES
      ensures PageSync(ts', pte', root[u], u, w)
    {
      assert PageSync(ts, pte, root[u], u, w);
      assert P.IsRoot(place, root[u]);
    }
  }

  /** Mapping or unmapping a block of one page changes the flat mappings there only. */
  lemma FlatSet(pte: map<Key, Pte>, pte': map<Key, Pte>, t: nat, v: nat, u: nat, w: nat)
    requires v != STACK_BASE && (u, w) != (t, v) && (v == STACK_BASE + 1 ==> (t, STACK_BASE) !in pte)
    requires forall k :: k != (t, v) ==> (k in pte <==> k in pte') && (k in pte ==> pte[k] == pte'[k])
    ensures FlatAt(pte', u, w) == FlatAt(pte, u, w)
  {}

  /** New tables disturb neither the sharing invariant nor the old tables. */
  lemma TablesGrow(s: State, ts: set<nat>, live: Live, ts': set<nat>)
    requires Inv(s) && Apart(ts, s.mem) && P.TablesAdded(s.live, ts, live, ts')
    ensures Inv(s.(live := live)) && Apart(ts', s.mem)
  {
    assert forall f :: f in s.mem ==> FrameOk(s, f);
    forall t | t in ts'
      ensures P.Index(t) !in s.mem
    {
      if t !in ts { assert P.Index(t) in P.Indices(ts' - ts); }
    }
    hide KeyOk, FrameOk, Inv, P.Indices;
    InvLive(s, live);
  }

  /** A frame that was free is no table page. */
  lemma FrameApart(live: Live, ts: set<nat>, mem: map<nat, Bytes>, f: nat, b: Block, data: Bytes)
    requires P.Held(live, ts) && Apart(ts, mem) && f !in live
    ensures P.Held(live[f := b], ts) && Apart(ts, mem[f := data])
  {
    forall t | t in ts
      ensures P.TablePage(live[f := b], t) && P.Index(t) !in mem[f := data]
    {
      assert P.TablePage(live, t);
    }
  }

  lemma FrameInRange(al: B.Allocator, f: nat)
    requires al.Valid() && f in al.Live()
    ensures D.FrameAddr(A.Addr(f)) && D.FrameAddr(A.Addr(f) + 0x1000)
  {
    al.LiveHead(f);
  }

  /** The tables' own contract, page by page. */
  lemma RewroteBy(ts: P.Tables, place: map<nat, P.Pos>, ts': P.Tables, r: nat, v: nat, e: P.Entry)
    requires v < PAGES && forall q, w: nat :: P.IsRoot(place, q) && w < P.VA_LIMIT ==>
      P.LookupIn(ts', q, w) == if q == r && P.SamePage(VAddr(v), w) then e else P.LookupIn(ts, q, w)
    ensures Rewrote(ts, place, ts', r, v, e)
  {
    hide P.LookupIn, P.SamePage, P.IsRoot;
    forall q, u: nat | P.IsRoot(place, q) && u < PAGES
      ensures P.LookupIn(ts', q, VAddr(u)) == if q == r && u == v then e else P.LookupIn(ts, q, VAddr(u))
    {
      SamePageIff(v, u);
      SamePageIff(u, u);
    }
  }

  /** A change to a user frame's block leaves the table pages alone. */
  lemma UserFrameApart(live: Live, ts: set<nat>, mem: map<nat, Bytes>, f: nat)
    requires P.Held(live, ts) && Apart(ts, mem) && f in mem && f in live && live[f].refCnt > 0
    ensures P.Held(DupLive(live, f), ts) && P.Held(FreeLive(live, f), ts)
  {
    forall t | t in ts
      ensures P.TablePage(DupLive(live, f), t) && P.TablePage(FreeLive(live, f), t)
    {
      assert P.TablePage(live, t) && P.Index(t) !in mem;
    }
  }

  class Machine {
    const k: A.Kernel
    const pt: P.PageTables
    /** The root table of each task. */
    var root: map<nat, nat>

    /** The tables hold exactly these mappings, and every table serves a task. */
    ghost predicate Tables(pte: map<Key, Pte>)
      reads this, pt, pt.al, pt.al.pages, pt.al.heads
    {
      pt.Valid() && Rooted(root, pt.place, pte) && Sync(pt.tables, pte, root) && P.Roots(pt.place) <= root.Values
    }

    ghost predicate Core()
      reads this, k, pt, k.al, k.al.pages, k.al.heads
    {
      pt.al == k.al && Inv(k.St()) && Apart(pt.tables.Keys, k.mem) && Tables(k.pte)
    }

    constructor (a: B.Allocator)
      requires a.Valid()
      ensures Core() && root == map[] && k.al == a && fresh(k) && fresh(pt)
      ensures k.spaces == map[] && k.pte == map[] && k.mem == map[] && k.ro == map[] && pt.tables == map[]
    {
      k := new A.Kernel(a);
      pt := new P.PageTables(a);
      root := map[];
    }

    lemma TablesHeld()
      requires Core()
      ensures P.Held(k.al.Live(), pt.tables.Keys) && pt.tables.Keys == pt.place.Keys
      ensures forall x :: x in pt.tables ==> exists t :: t in root && root[t] == pt.place[x].root
    {
      forall x | x in pt.tables
        ensures exists t :: t in root && root[t] == pt.place[x].root
      {
        assert pt.place[x].root in P.Roots(pt.place);
      }
    }

    /** map on one page that is not the stack's: tables may be added, and only where
        the page was not mapped can memory run out. */
    method Enter(t: nat, v: nat, p: nat, prot: Prot, overwrite: bool, ghost f: nat, ghost pte: map<Key, Pte>) returns (r: P.MapResult)
      requires Tables(pte) && t in root && v < PAGES && v != STACK_BASE && v != STACK_BASE + 1 && p == A.Addr(f) && D.FrameAddr(p)
      modifies pt, pt.al, pt.al.pages, pt.al.heads
      ensures r.NoMemory? ==> BuddyModel.NoRoom(pt.al.Live(), MAX_ORD)
      ensures (t, v) in pte ==> !r.NoMemory? && pt.tables.Keys == old(pt.tables.Keys)
      ensures r.Exists? ==> (t, v) in pte
      ensures r.Ok? ==> (t, v) !in pte
      ensures r.Exists? && !overwrite ==> Tables(pte)
      ensures r.Ok? || (r.Exists? && overwrite) ==> Tables(pte[(t, v) := Entry(f, prot)])
      ensures P.TablesAdded(old(pt.al.Live()), old(pt.tables).Keys, pt.al.Live(), pt.tables.Keys)
    {
      hide P.Roots, Sync, Agrees, FlatAt, Rooted, P.Forest, P.Reads, P.Held, P.TablesAdded, P.LookupIn, P.SamePage, P.LeafEntry, P.LeafTable;
      hide B.Allocator.Valid, B.Allocator.Live, BuddyModel.NoRoom, PermsFor, D.FrameAddr, D.OutsideMask;
      ghost var ts, pl, up := pt.tables, pt.place, pt.up;
      ghost var e := P.LeafEntry(p, PermsFor(prot));
      PermsAgree(p, prot);
      RootOf(root, pl, pte, t);
      SamePageIff(v, v);
      MappedIff(ts, pl, up, pte, root, t, v);
      r := pt.MapPage(root[t], VAddr(v), p, PermsFor(prot), overwrite);
      if r.Ok? || (r.Exists? && overwrite) {
        RewroteBy(ts, pl, pt.tables, root[t], v, e);
        SyncMapped(ts, pl, pt.tables, pte, root, t, v, Entry(f, prot), e);
        StillRooted(root, pl, pt.place, pte, pte[(t, v) := Entry(f, prot)], t, v);
      } else if r.Exists? {
        SameSync(ts, pl, pt.tables, pt.place, pte, root);
      }
    }

    /** v2p_pt with the callback that sets a permission: the page's frame, and the
        same mapping with the new permission. */
    method Permit(t: nat, v: nat, prot: Prot, ghost pte: map<Key, Pte>) returns (f: nat)
      requires Tables(pte) && (t, v) in pte && v != STACK_BASE
      modifies pt`words, pt`tables
      ensures f == A.Addr(pte[(t, v)].frame) && pt.tables.Keys == old(pt.tables).Keys
      ensures Tables(pte[(t, v) := Entry(pte[(t, v)].frame, prot)])
    {
      hide P.Roots, Sync, Agrees, FlatAt, Rooted, P.Forest, P.Reads, P.Held, P.LookupIn, P.SamePage, P.LeafEntry, P.LeafTable;
      hide B.Allocator.Valid, B.Allocator.Live, PermsFor, D.OutsideMask;
      ghost var ts, pl, up, g := pt.tables, pt.place, pt.up, pte[(t, v)].frame;
      InPages(root, pl, pte, (t, v));
      RootOf(root, pl, pte, t);
      ghost var e := P.LeafEntry(A.Addr(g), PermsFor(prot));
      PermsAgree(A.Addr(g), prot);
      SamePageIff(v, v);
      MappedIff(ts, pl, up, pte, root, t, v);
      var a := pt.Translate(root[t], VAddr(v), Some(PermsFor(prot)));
      f := a.value;
      RewroteBy(ts, pl, pt.tables, root[t], v, e);
      SyncMapped(ts, pl, pt.tables, pte, root, t, v, Entry(g, prot), e);
      StillRooted(root, pl, pl, pte, pte[(t, v) := Entry(g, prot)], t, v);
    }

    /** The flat mappings are one page ahead of the tables, which catch up. */
    method CatchUp(t: nat, v: nat, p: nat, prot: Prot, ghost f: nat, ghost pte: map<Key, Pte>, ghost s: State) returns (ok: bool)
      requires pt.al == k.al && s == k.St() && Inv(s) && Apart(pt.tables.Keys, s.mem)
      requires Tables(pte) && s.pte == pte[(t, v) := Entry(f, prot)] && (t, v) !in pte
      requires t in root && v < PAGES && v != STACK_BASE && v != STACK_BASE + 1 && p == A.Addr(f) && D.FrameAddr(p)
      modifies pt, k.al, k.al.pages, k.al.heads
      ensures !ok ==> BuddyModel.NoRoom(k.al.Live(), MAX_ORD)
      ensures ok ==> Core() && k.St() == s.(live := k.al.Live())
      ensures ok ==> P.TablesAdded(s.live, old(pt.tables.Keys), k.al.Live(), pt.tables.Keys)
    {
      hide P.Roots, Inv, Sync, Apart, Rooted, P.PageTables.Valid, P.TablesAdded, BuddyModel.NoRoom, D.FrameAddr, B.Allocator.Live;
      ghost var ts := pt.tables.Keys;
      var r := Enter(t, v, p, prot, false, f, pte);
      ok := r.Ok?;
      if ok {
        TablesGrow(s, ts, k.al.Live(), pt.tables.Keys);
      }
    }

    /** The loop body of brk, mmap and exec: a frame from the allocator, mapped in the
        task's tables, which may need table pages from the same allocator. */
    method MapPage(t: nat, v: nat, data: Bytes, prot: Prot, ghost s: State) returns (r: P.MapResult, ghost f: nat)
      requires Core() && s == k.St() && t in root && (t, STACK_BASE) in s.pte
      requires v < PAGES && v != STACK_BASE && v != STACK_BASE + 1 && |data| == PAGE && (t, v) !in s.ro
      modifies k`mem, k`pte, k`ro, pt, k.al, k.al.pages, k.al.heads
      ensures r.Exists? <==> (t, v) in s.pte
      ensures r.NoMemory? ==> BuddyModel.NoRoom(k.al.Live(), MAX_ORD)
      ensures r.Exists? ==> Core() && k.St() == s
      ensures r.Ok? ==> Core() && f !in s.live && k.St() == Fresh(s, (t, v), f, data, prot).(live := k.al.Live())
      ensures r.Ok? ==> P.TablesAdded(Fresh(s, (t, v), f, data, prot).live, old(pt.tables.Keys), k.al.Live(), pt.tables.Keys)
    {
      hide P.Roots, Inv, Sync, Apart, Rooted, P.PageTables.Shape, P.Held, P.TablesAdded, BuddyModel.NoRoom, D.FrameAddr, B.Allocator.Valid, B.Allocator.Live;
      var ok;
      ok, f := k.MapPage(t, v, data, prot);
      if !ok {
        r := if (t, v) in k.pte then P.Exists else P.NoMemory;
        return;
      }
      FrameApart(s.live, pt.tables.Keys, s.mem, f, Block(OrdOf(v), 1, Used), data);
      FrameInRange(k.al, f);
      FreshKeeps(s, (t, v), f, data, prot);
      ok := CatchUp(t, v, A.Addr(k.pte[(t, v)].frame), prot, f, s.pte, k.St());
      r := if ok then P.Ok else P.NoMemory;
    }

    /** The parent's half of clone_region on one page of a region of permission perm:
        the mapping loses its write permission in place and its frame gains a
        reference. */
    method GiveShare(p: nat, c: nat, v: nat, perm: A.Perm, ghost s: State, ghost f: nat) returns (a: nat)
      requires (perm == A.ReadExec <==> Code(s.ro, (p, v))) && Core() && s == k.St() && p != c && (p, v) in s.pte && v != STACK_BASE
      requires f == s.pte[(p, v)].frame && f in s.live && f in s.mem && s.live[f].refCnt > 0
      modifies k`mem, k`pte, k`ro, pt`words, pt`tables, k.al.pages
      ensures Tables(s.pte[(p, v) := Entry(f, Segment(perm == A.ReadExec))])
      ensures pt.tables.Keys == old(pt.tables.Keys)
      ensures k.St() == Share(s, p, c, v)
      ensures a == A.Addr(f) && D.FrameAddr(a)
    {
      hide P.Roots, Inv, Sync, Apart, Rooted, P.PageTables.Shape, P.Held, B.Allocator.Valid, B.Allocator.Live, D.FrameAddr;
      FrameInRange(k.al, f);
      UserFrameApart(s.live, pt.tables.Keys, s.mem, f);
      a := Permit(p, v, Segment(perm == A.ReadExec), k.pte);
      k.ClonePage(p, c, v, perm);
    }

    /** The loop body of clone_region: the parent gives a share of the page's frame and
        the child maps it read-only. */
    method ClonePage(p: nat, c: nat, v: nat, perm: A.Perm, ghost s: State) returns (ok: bool)
      requires (perm == A.ReadExec <==> Code(s.ro, (p, v))) && Core() && s == k.St() && c in root && p != c && (p, v) in s.pte && (c, v) !in s.pte && (c, v) !in s.ro
      requires v != STACK_BASE
      modifies k`mem, k`pte, k`ro, pt, k.al, k.al.pages, k.al.heads
      ensures s.pte[(p, v)].frame in s.live
      ensures !ok ==> BuddyModel.NoRoom(k.al.Live(), MAX_ORD)
      ensures ok ==> Core() && k.St() == Share(s, p, c, v).(live := k.al.Live())
      ensures ok ==> P.TablesAdded(Share(s, p, c, v).live, old(pt.tables.Keys), k.al.Live(), pt.tables.Keys)
    {
      hide Code, KeyOk, FrameOk, Share, Inv, Sync, Rooted, P.PageTables.Valid, B.Allocator.Valid, B.Allocator.Live;
      OwnFrame(s, (p, v));
      ShareKeeps(s, p, c, v);
      ShareParts(s, p, c, v);
      InPages(root, pt.place, k.pte, (p, v));
      hide Share, Inv, Sync, Apart, Rooted, Tables, P.PageTables.Valid, P.TablesAdded, BuddyModel.NoRoom, D.FrameAddr, B.Allocator.Valid, B.Allocator.Live;
      ghost var f := s.pte[(p, v)].frame;
      var prot := Segment(perm == A.ReadExec);
      var a := GiveShare(p, c, v, perm, s, f);
      ok := CatchUp(c, v, a, prot, f, s.pte[(p, v) := Entry(f, prot)], Share(s, p, c, v));
    }

    /** map_ovwr on a mapped page: the tables follow the flat mapping, and no table
        page is needed. */
    method Remap(t: nat, v: nat, ghost pte: map<Key, Pte>, ghost s: State)
      requires pt.al == k.al && s == k.St() && Inv(s) && Apart(pt.tables.Keys, s.mem) && Tables(pte)
      requires (t, v) in pte && v != STACK_BASE && (t, v) in s.pte && s.pte == pte[(t, v) := Entry(s.pte[(t, v)].frame, Plain)]
      modifies pt, k.al, k.al.pages, k.al.heads
      ensures Core() && k.St() == s && pt.tables.Keys == old(pt.tables.Keys)
    {
      hide P.Roots, Inv, Sync, Apart, Rooted, P.PageTables.Shape, P.Held, P.TablesAdded, D.FrameAddr, B.Allocator.Valid, B.Allocator.Live;
      ghost var ts := pt.tables.Keys;
      var p := A.Addr(k.pte[(t, v)].frame);
      OwnFrame(s, (t, v));
      FrameInRange(k.al, s.pte[(t, v)].frame);
      InPages(root, pt.place, pte, (t, v));
      var m := Enter(t, v, p, Plain, true, s.pte[(t, v)].frame, pte);
      NoTablesAdded(s.live, ts, k.al.Live());
    }

    /** dabt_handler on a write to a write-protected page whose region is writable: it
        resolves the fault unless a copy is needed and no frame is free, and it never
        asks for a table page, which it could not be given while cow_action holds
        the allocator. */
    method Fault(t: nat, v: nat, ghost s: State, ghost f: nat) returns (r: A.Outcome, ghost copy: nat)
      requires Core() && s == k.St() && (t, v) in s.pte && v != STACK_BASE && !s.pte[(t, v)].writable && (t, v) !in s.ro
      requires f == s.pte[(t, v)].frame && f in s.live && f in s.mem && s.live[f].refCnt > 0
      modifies k`mem, k`pte, k`ro, pt, k.al, k.al.pages, k.al.heads
      ensures !r.Fatal? && (r.OutOfMemory? <==> s.live[f].refCnt > 1 && BuddyModel.NoRoom(s.live, 8))
      ensures r.Resolved? ==> Core() && k.St() == Unshare(s, (t, v), copy) && pt.tables.Keys == old(pt.tables.Keys)
      ensures r.Resolved? && s.live[f].refCnt > 1 ==> copy !in s.live
    {
      hide Unshare, CowLive, Inv, KeyOk, FrameOk, Sync, Apart, Rooted, BuddyModel.NoRoom;
      hide P.PageTables.Shape, P.Held, B.Allocator.Valid, B.Allocator.Live;
      UnshareOk(s, (t, v));
      r, copy := k.Resolve(t, v);
      if r.Resolved? {
        UnshareApart(s, (t, v), copy, pt.tables.Keys);
        Remap(t, v, s.pte, k.St());
      }
    }

    /** A task with a root table and nothing mapped. */
    method NewTask(t: nat, ghost s: State) returns (ok: bool)
      requires Core() && s == k.St() && t !in root
      modifies `root, pt, k.al, k.al.pages, k.al.heads
      ensures !ok <==> BuddyModel.NoRoom(s.live, MAX_ORD)
      ensures Core() && k.St() == s.(live := k.al.Live())
      ensures !ok ==> k.al.Live() == s.live
      ensures root.Keys == old(root.Keys) + if ok then {t} else {}
      ensures P.TablesAdded(s.live, old(pt.tables.Keys), k.al.Live(), pt.tables.Keys)
    {
      hide P.Roots, Inv, Sync, Apart, Rooted, P.Forest, P.Reads, P.Held, P.TablesAdded, P.Extends, P.LookupIn, P.IsRoot;
      hide BuddyModel.NoRoom, B.Allocator.Valid, B.Allocator.Live;
      ghost var ts, pl := pt.tables, pt.place;
      var r := pt.NewRoot();
      TablesGrow(s, ts.Keys, k.al.Live(), pt.tables.Keys);
      P.SameLookups(ts, pl, pt.tables, pt.place);
      SameSync(ts, pl, pt.tables, pt.place, k.pte, root);
      ok := r.Some?;
      if ok {
        SyncRoot(ts, pl, pt.tables, pt.place, k.pte, root, t, r.value);
        ValuesAdd(root, t, r.value);
        root := root[t := r.value];
      }
    }

    /** map on the two pages of a stack. */
    method EnterStack(t: nat, p: nat, ghost f: nat, ghost pte: map<Key, Pte>) returns (ok: bool)
      requires Tables(pte) && t in root && (t, STACK_BASE) !in pte && p == A.Addr(f) && D.FrameAddr(p) && D.FrameAddr(p + 0x1000)
      modifies pt, pt.al, pt.al.pages, pt.al.heads
      ensures !ok ==> BuddyModel.NoRoom(pt.al.Live(), MAX_ORD)
      ensures ok ==> Tables(pte[(t, STACK_BASE) := Entry(f, Plain)])
      ensures P.TablesAdded(old(pt.al.Live()), old(pt.tables.Keys), pt.al.Live(), pt.tables.Keys)
    {
      hide P.Roots, Sync, Agrees, FlatAt, Rooted, P.Forest, P.Reads, P.Held, P.TablesAdded, P.LookupIn, P.SamePage, P.LeafEntry, P.LeafTable;
      hide B.Allocator.Valid, B.Allocator.Live, BuddyModel.NoRoom, PermsFor, D.FrameAddr, D.OutsideMask;
      ghost var ts, pl, l := pt.tables, pt.place, pt.al.Live();
      PermsAgree(p, Plain);
      PermsAgree(p + 0x1000, Plain);
      NoKey(root, pl, pte, t);
      RootOf(root, pl, pte, t);
      SamePageIff(STACK_BASE, STACK_BASE);
      SamePageIff(STACK_BASE, STACK_BASE + 1);
      SamePageIff(STACK_BASE + 1, STACK_BASE + 1);
      NoStack(ts, pte, root, t);
      var r := pt.MapPage(root[t], VAddr(STACK_BASE), p, PermsFor(Plain), false);
      if r.NoMemory? {
        return false;
      }
      ghost var ts1, pl1, l1 := pt.tables, pt.place, pt.al.Live();
      RewroteBy(ts, pl, ts1, root[t], STACK_BASE, P.LeafEntry(p, PermsFor(Plain)));
      r := pt.MapPage(root[t], VAddr(STACK_BASE + 1), p + 0x1000, PermsFor(Plain), false);
      P.AddedMoreTables(l, ts.Keys, l1, ts1.Keys, pt.al.Live(), pt.tables.Keys);
      if r.NoMemory? {
        return false;
      }
      RewroteBy(ts1, pl1, pt.tables, root[t], STACK_BASE + 1, P.LeafEntry(p + 0x1000, PermsFor(Plain)));
      StackAgrees(pte, t, f);
      SyncStack(ts, pl, ts1, pl1, pt.tables, pte, pte[(t, STACK_BASE) := Entry(f, Plain)], root, t,
                P.LeafEntry(p, PermsFor(Plain)), P.LeafEntry(p + 0x1000, PermsFor(Plain)));
      StillRooted(root, pl, pt.place, pte, pte[(t, STACK_BASE) := Entry(f, Plain)], t, STACK_BASE);
      return true;
    }

    /** init_user: a root table, a block for the stack and its two pages mapped. */
    method Spawn(t: nat, junk: Bytes, ghost s: State) returns (ok: bool, ghost f: nat)
      requires Core() && s == k.St() && t !in root && |junk| == 2 * PAGE && (t, STACK_BASE) !in s.ro
      modifies `root, k`mem, k`pte, k`ro, pt, k.al, k.al.pages, k.al.heads
      ensures !ok ==> BuddyModel.NoRoom(k.al.Live(), 7)
      ensures ok ==> Core() && root.Keys == old(root.Keys) + {t} && f !in s.live
      ensures ok ==> k.St() == Fresh(s, (t, STACK_BASE), f, junk, Plain).(live := k.al.Live())
      ensures ok ==> P.TablesAdded(Fresh(s, (t, STACK_BASE), f, junk, Plain).live, old(pt.tables.Keys), k.al.Live(), pt.tables.Keys)
    {
      hide P.Roots, Inv, Sync, Apart, Rooted, P.PageTables.Shape, P.Held, P.TablesAdded, P.LookupIn, BuddyModel.NoRoom;
      hide D.FrameAddr, B.Allocator.Valid, B.Allocator.Live;
      f := 0;
      NoKeyYet(root, pt.place, s.pte, t);
      ok := NewTask(t, s);
      BuddyModel.RoomFiner(k.al.Live(), 7, MAX_ORD);
      if !ok {
        return;
      }
      ghost var s1, ts1 := k.St(), pt.tables.Keys;
      ok, f := k.NewStack(t, junk);
      if !ok {
        return;
      }
      ok := StackReady(t, junk, f, s1);
      BuddyModel.RoomFiner(k.al.Live(), 7, MAX_ORD);
      if ok {
        AddedThenFrame(s.live, old(pt.tables.Keys), s1.live, ts1, f, Block(7, 1, Used), k.al.Live(), pt.tables.Keys);
      }
    }

    method StackReady(t: nat, ghost junk: Bytes, ghost f: nat, ghost s: State) returns (ok: bool)
      requires pt.al == k.al && Inv(s) && Apart(pt.tables.Keys, s.mem) && t in root && (t, STACK_BASE) !in s.pte && (t, STACK_BASE) !in s.ro
      requires f !in s.live && |junk| == 2 * PAGE && k.St() == Fresh(s, (t, STACK_BASE), f, junk, Plain)
      requires pt.Shape() && P.Held(s.live, pt.tables.Keys) && k.al.Valid() && Rooted(root, pt.place, s.pte) && Sync(pt.tables, s.pte, root)
      requires P.Roots(pt.place) <= root.Values
      modifies pt, k.al, k.al.pages, k.al.heads
      ensures !ok ==> BuddyModel.NoRoom(k.al.Live(), MAX_ORD)
      ensures ok ==> Core() && k.St() == Fresh(s, (t, STACK_BASE), f, junk, Plain).(live := k.al.Live())
      ensures ok ==> P.TablesAdded(Fresh(s, (t, STACK_BASE), f, junk, Plain).live, old(pt.tables.Keys), k.al.Live(), pt.tables.Keys)
    {
      hide P.Roots, Inv, Sync, Apart, Rooted, P.PageTables.Shape, P.Held, P.TablesAdded, BuddyModel.NoRoom, D.FrameAddr, B.Allocator.Valid, B.Allocator.Live;
      ghost var ts := pt.tables.Keys;
      FrameApart(s.live, ts, s.mem, f, Block(7, 1, Used), junk);
      FreshKeeps(s, (t, STACK_BASE), f, junk, Plain);
      FrameInRange(k.al, f);
      ok := EnterStack(t, A.Addr(k.pte[(t, STACK_BASE)].frame), f, s.pte);
      if ok {
        TablesGrow(Fresh(s, (t, STACK_BASE), f, junk, Plain), ts, k.al.Live(), pt.tables.Keys);
      }
    }

    /** v2p_pt and unmap on one block, the stack's being two pages long. */
    method Cut(t: nat, v: nat, ghost pte: map<Key, Pte>) returns (a: nat)
      requires Tables(pte) && (t, v) in pte
      modifies pt`words, pt`tables
      ensures a == A.Addr(pte[(t, v)].frame) && pt.tables.Keys == old(pt.tables.Keys)
      ensures Tables(pte - {(t, v)})
    {
      hide P.Roots, Sync, Agrees, FlatAt, Rooted, P.Forest, P.Reads, P.Held, P.LookupIn, P.SamePage, P.LeafTable;
      hide B.Allocator.Valid, B.Allocator.Live;
      ghost var ts, pl, up := pt.tables, pt.place, pt.up;
      InPages(root, pl, pte, (t, v));
      NoKey(root, pl, pte, t);
      RootOf(root, pl, pte, t);
      SamePageIff(v, v);
      MappedIff(ts, pl, up, pte, root, t, v);
      var p := pt.Translate(root[t], VAddr(v), None);
      a := p.value;
      var ok := pt.Unmap(root[t], VAddr(v));
      ghost var ts1 := pt.tables;
      RewroteBy(ts, pl, ts1, root[t], v, P.ZERO);
      if v == STACK_BASE {
        SamePageIff(v + 1, v + 1);
        ok := pt.Unmap(root[t], VAddr(v + 1));
        RewroteBy(ts1, pl, pt.tables, root[t], v + 1, P.ZERO);
        NothingAgrees(pte - {(t, v)}, t, v);
        NothingAgrees(pte - {(t, v)}, t, v + 1);
        SyncStack(ts, pl, ts1, pl, pt.tables, pte, pte - {(t, v)}, root, t, P.ZERO, P.ZERO);
      } else {
        SyncCut(ts, pl, ts1, pte, root, t, v);
      }
      StillRooted(root, pl, pl, pte, pte - {(t, v)}, t, v);
    }

    /** The loop body of free_region: the block at the address the tables give is freed
        and its pages are unmapped. */
    method FreePage(t: nat, v: nat, ghost s: State, ghost f: nat)
      requires Core() && s == k.St() && (t, v) in s.pte
      requires f == s.pte[(t, v)].frame && f in s.live && f in s.mem && s.live[f].refCnt > 0
      modifies k`mem, k`pte, k`ro, pt`words, pt`tables, k.al, k.al.pages, k.al.heads
      ensures Core() && pt.tables.Keys == old(pt.tables.Keys) && k.St() == Drop(s, (t, v))
    {
      hide Drop, FreeLive, Inv, KeyOk, FrameOk, Apart, Sync, Rooted, P.PageTables.Shape, P.Held, B.Allocator.Valid, B.Allocator.Live;
      DropKeeps(s, (t, v));
      DropParts(s, (t, v), pt.tables.Keys);
      UserFrameApart(s.live, pt.tables.Keys, s.mem, f);
      var a := Cut(t, v, k.pte);
      k.FreePage(t, v);
    }

    /** free_regions and free_region over the blocks of a task, in their order. */
    method FreeBlocks(t: nat, vs: seq<nat>, ghost s: State)
      requires Core() && s == k.St() && Distinct(vs) && forall v :: v in vs ==> (t, v) in s.pte
      modifies k`mem, k`pte, k`ro, pt`words, pt`tables, k.al, k.al.pages, k.al.heads
      ensures Core() && pt.tables.Keys == old(pt.tables.Keys) && k.St() == DropPages(s, t, vs)
    {
      hide P.Roots, Inv, Sync, Rooted, Apart, DropPages, P.PageTables.Valid, B.Allocator.Live;
      A.NoDrops(s, t);
      for i := 0 to |vs|
        invariant Core() && pt.tables.Keys == old(pt.tables.Keys) && k.St() == DropPages(s, t, vs[..i])
      {
        ghost var f := DropNext(s, t, vs, i);
        FreePage(t, vs[i], k.St(), f);
      }
      assert vs[..|vs|] == vs;
    }

    /** free_pt of a task with no mappings left. */
    method FreeRoot(t: nat, ghost s: State)
      requires Core() && s == k.St() && t in root && forall q :: q in s.pte ==> q.0 != t
      modifies `root, pt, k.al, k.al.pages, k.al.heads
      ensures Core() && root == old(root) - {t}
      ensures k.St() == s.(live := s.live - P.Indices(TablesOf(old(pt.place), old(root[t]))))
      ensures pt.tables.Keys == old(pt.tables.Keys) - TablesOf(old(pt.place), old(root[t]))
    {
      hide P.Roots, Inv, Sync, Rooted, Apart, P.Forest, P.Reads, P.Held, P.LookupIn, P.Indices, P.LeavesApart, P.CanFreeAll, P.FreeAll;
      hide B.Allocator.Valid, B.Allocator.Live, P.FreedBelow, P.Without;
      ghost var ts, pl, r0, rt := pt.tables, pt.place, root, root[t];
      RootOf(root, pl, k.pte, t);
      EmptyTask(ts, pl, pt.up, k.pte, root, t);
      P.EmptyTeardown(s.live, ts, pl, pt.up, rt);
      ghost var freed := pt.FreeTables(root[t]);
      FreedTables(s.live, pl, rt, freed);
      ValuesLess(root, t);
      root := root - {t};
      TablesShrink(s, ts.Keys, TablesOf(pl, rt));
      SyncLess(ts, pl, pt.tables, pt.place, k.pte, r0, t);
      assert pt.tables.Keys == ts.Keys - TablesOf(pl, rt);
    }

    /** free_task's share of memory, vs being every block the task maps in the order
        the regions are walked: the frames only it mapped and its table pages go back
        to the allocator, a frame others map keeps exactly their references, and
        no other block and no other task's mapping changes. */
    method Teardown(t: nat, vs: seq<nat>, ghost s: State)
      requires Core() && s == k.St() && t in root && Distinct(vs) && forall v :: v in vs <==> (t, v) in s.pte
      modifies `root, k`mem, k`pte, k`ro, pt, k.al, k.al.pages, k.al.heads
      ensures Core() && root == old(root) - {t}
      ensures k.al.Live().Keys == s.live.Keys - SoleOwned(s, t) - P.Indices(TablesOf(old(pt.place), old(root[t])))
      ensures forall f :: f in k.al.Live() ==>
        k.al.Live()[f] == if f in s.mem then s.live[f].(refCnt := |OthersOf(s, t, f)|) else s.live[f]
      ensures k.pte == map q | q in s.pte && q.0 != t :: s.pte[q]
      ensures ViewOf(k.St()) == map q | q in ViewOf(s) && q.0 != t :: ViewOf(s)[q]
      ensures pt.tables.Keys == old(pt.tables.Keys) - TablesOf(old(pt.place), old(root[t]))
      ensures k.St() == DropPages(s, t, vs).(live := DropPages(s, t, vs).live - P.Indices(TablesOf(old(pt.place), old(root[t]))))
    {
      hide P.Roots, Inv, Sync, Rooted, Apart, DropPages, ViewOf, P.PageTables.Valid, P.Indices, P.IsRoot, B.Allocator.Live;
      ghost var gone := TablesOf(pt.place, root[t]);
      FreeBlocks(t, vs, s);
      ghost var s1 := k.St();
      AllDropped(s, t, vs);
      FreeRoot(t, s1);
      ViewLive(s1, k.al.Live());
      LiveLeft(s, s1, t, P.Indices(gone));
    }
  }

  lemma ValuesAdd(root: map<nat, nat>, t: nat, r: nat)
    requires t !in root
    ensures root.Values + {r} <= root[t := r].Values
  {
    assert t in root[t := r] && root[t := r][t] == r;
    forall x | x in root.Values
      ensures x in root[t := r].Values
    {
      var u :| u in root && root[u] == x;
      assert u in root[t := r] && root[t := r][u] == x;
    }
  }

  lemma ValuesLess(root: map<nat, nat>, t: nat)
    requires t in root
    ensures root.Values - {root[t]} <= (root - {t}).Values
  {
    forall x | x in root.Values && x != root[t]
      ensures x in (root - {t}).Values
    {
      var u :| u in root && root[u] == x;
      assert u in root - {t} && (root - {t})[u] == x;
    }
  }

  /** The table pages of one address space. */
  ghost function TablesOf(place: map<nat, P.Pos>, root: nat): set<nat> {
    set x | x in place && place[x].root == root
  }

  /** The mappings of a frame by tasks other than t. */
  ghost function OthersOf(s: State, t: nat, f: nat): set<Key> { set q | q in Mappers(s, f) && q.0 != t }

  /** The user frames that only t maps. */
  ghost function SoleOwned(s: State, t: nat): set<nat> { set f | f in s.mem && OthersOf(s, t, f) == {} }

  lemma DropNext(s: State, t: nat, vs: seq<nat>, i: nat) returns (f: nat)
    requires Inv(s) && Distinct(vs) && i < |vs| && forall v :: v in vs ==> (t, v) in s.pte
    ensures var s0, q := DropPages(s, t, vs[..i]), (t, vs[i]);
      && q in s0.pte && f == s0.pte[q].frame && f in s0.mem && f in s0.live && s0.live[f].refCnt > 0
      && DropPages(s, t, vs[..i + 1]) == Drop(s0, q)
  {
    var s0, v := DropPages(s, t, vs[..i]), vs[i];
    assert vs[..i + 1] == vs[..i] + [v] && vs == vs[..i + 1] + vs[i + 1..];
    hide Inv, Distinct, DropPages;
    SplitDistinct(vs[..i + 1], vs[i + 1..]);
    CanDropRest(s, t, vs[..i], [v]);
    OwnFrame(s0, (t, v));
    f := s0.pte[(t, v)].frame;
    DropLast(s, t, vs[..i], v);
  }

  lemma DropLast(s: State, t: nat, vs: seq<nat>, v: nat)
    requires var s0 := DropPages(s, t, vs); (t, v) in s0.pte && s0.pte[(t, v)].frame in s0.live && s0.live[s0.pte[(t, v)].frame].refCnt > 0
    ensures DropPages(s, t, vs + [v]) == Drop(DropPages(s, t, vs), (t, v))
  {
    assert (vs + [v])[..|vs|] == vs;
  }

  /** Freeing pages brings no frame and changes only reference counts. */
  lemma {:induction false} DropPagesBlocks(s: State, t: nat, vs: seq<nat>)
    ensures var s' := DropPages(s, t, vs);
      s'.mem.Keys <= s.mem.Keys && forall f :: f in s'.live ==> f in s.live && s'.live[f] == s.live[f].(refCnt := s'.live[f].refCnt)
    decreases |vs|
  {
    if vs != [] {
      DropPagesBlocks(s, t, vs[..|vs| - 1]);
    }
  }

  lemma EmptyTask(ts: P.Tables, place: map<nat, P.Pos>, up: map<nat, nat>, pte: map<Key, Pte>, root: map<nat, nat>, t: nat)
    requires P.Forest(ts, place, up) && Sync(ts, pte, root) && t in root && forall q :: q in pte ==> q.0 != t
    ensures P.EmptyLeaves(ts, place, root[t])
  {
    forall v: nat | v < P.VA_LIMIT
      ensures P.LookupIn(ts, root[t], v) == P.ZERO
    {
      assert PageSync(ts, pte, root[t], t, v / 0x1000);
      P.SamePageSameLookup(ts, root[t], v);
      assert P.SamePage(v, VAddr(v / 0x1000));
    }
    hide P.Forest, P.LookupIn;
    P.UnmappedLeaves(ts, place, up, root[t]);
  }

  lemma FreedTables(live: Live, place: map<nat, P.Pos>, rt: nat, freed: seq<nat>)
    requires forall t :: t in freed <==> t in place && place[t].root == rt
    ensures P.Without(live, freed) == live - P.Indices(TablesOf(place, rt))
  {
    assert P.Elements(freed) == TablesOf(place, rt);
  }

  /** Table pages that go disturb neither the sharing invariant nor the tables left. */
  lemma TablesShrink(s: State, ts: set<nat>, gone: set<nat>)
    requires Inv(s) && Apart(ts, s.mem) && gone <= ts
    ensures Inv(s.(live := s.live - P.Indices(gone))) && Apart(ts - gone, s.mem)
  {
    var live := s.live - P.Indices(gone);
    forall f | f in s.mem
      ensures f in live && f in s.live && live[f] == s.live[f]
    {
      assert FrameOk(s, f);
    }
    hide Inv, P.Indices;
    InvLive(s, live);
  }

  lemma SyncLess(ts: P.Tables, place: map<nat, P.Pos>, ts': P.Tables, place': map<nat, P.Pos>, pte: map<Key, Pte>, root: map<nat, nat>, t: nat)
    requires Sync(ts, pte, root) && Rooted(root, place, pte) && t in root && forall q :: q in pte ==> q.0 != t
    requires forall q :: P.IsRoot(place, q) && q != root[t] ==> P.IsRoot(place', q)
    requires forall q, w: nat :: P.IsRoot(place, q) && q != root[t] ==> P.LookupIn(ts', q, w) == P.LookupIn(ts, q, w)
    ensures Sync(ts', pte, root - {t}) && Rooted(root - {t}, place', pte)
  {
    hide P.LookupIn, P.IsRoot, Agrees, FlatAt;
    var less := root - {t};
    forall u, w: nat | u in less && w < PAGES
      ensures PageSync(ts', pte, less[u], u, w)
    {
      assert PageSync(ts, pte, root[u], u, w);
      assert P.IsRoot(place, root[u]) && root[u] != root[t];
    }
  }

  /** What is left once every block of t has been freed. */
  lemma AllDropped(s: State, t: nat, vs: seq<nat>)
    requires Inv(s) && Distinct(vs) && forall v :: v in vs <==> (t, v) in s.pte
    ensures var s' := DropPages(s, t, vs);
      && Inv(s') && Foreign(s') == Foreign(s) && s'.mem.Keys <= s.mem.Keys
      && s'.pte == (map q | q in s.pte && q.0 != t :: s.pte[q])
      && ViewOf(s') == (map q | q in ViewOf(s) && q.0 != t :: ViewOf(s)[q])
      && forall f :: f in s'.live ==> f in s.live && s'.live[f] == s.live[f].(refCnt := s'.live[f].refCnt)
  {
    hide Inv, DropPages, ViewOf, Foreign;
    var s' := DropPages(s, t, vs);
    DropPagesKeeps(s, t, vs);
    DropPagesBlocks(s, t, vs);
    forall q | q in s.pte
      ensures q in KeysOf(t, vs) <==> q.0 == t
      ensures q.0 != t ==> q in s'.pte && s'.pte[q] == s.pte[q]
    {
      assert q.0 == t ==> q == (t, q.1) && q.1 in vs;
      if q.0 != t { DropPagesElsewhere(s, t, vs, q); }
    }
    ViewKeys(s);
  }

  /** After the last mapping of t the frames left are those others map. */
  lemma FrameLeft(s: State, s': State, t: nat, f: nat)
    requires Inv(s) && Inv(s') && s'.mem.Keys <= s.mem.Keys && f in s.mem
    requires s'.pte == map q | q in s.pte && q.0 != t :: s.pte[q]
    ensures f in s'.mem <==> OthersOf(s, t, f) != {}
    ensures f in s'.mem ==> f in s'.live && s'.live[f].refCnt == |OthersOf(s, t, f)|
    ensures f in s.live
  {
    assert FrameOk(s, f);
    assert Mappers(s', f) == OthersOf(s, t, f);
    assert f in s'.mem ==> FrameOk(s', f);
    if q :| q in Mappers(s', f) {
      assert KeyOk(s', q);
    }
  }

  lemma LiveLeft(s: State, s': State, t: nat, tables: set<nat>)
    requires Inv(s) && Inv(s') && Foreign(s') == Foreign(s) && s'.mem.Keys <= s.mem.Keys
    requires s'.pte == map q | q in s.pte && q.0 != t :: s.pte[q]
    requires forall f :: f in s'.live ==> f in s.live && s'.live[f] == s.live[f].(refCnt := s'.live[f].refCnt)
    ensures (s'.live - tables).Keys == s.live.Keys - SoleOwned(s, t) - tables
    ensures forall f :: f in s'.live - tables ==>
      f in s.live && s'.live[f] == if f in s.mem then s.live[f].(refCnt := |OthersOf(s, t, f)|) else s.live[f]
  {
    hide Inv;
    forall f
      ensures f in s'.live <==> f in s.live && f !in SoleOwned(s, t)
      ensures f in s'.live ==> s'.live[f] == if f in s.mem then s.live[f].(refCnt := |OthersOf(s, t, f)|) else s.live[f]
    {
      if f in s.mem {
        FrameLeft(s, s', t, f);
        assert f in Foreign(s') <==> f in Foreign(s);
      } else {
        assert f in s.live <==> f in Foreign(s);
        assert f in s'.live <==> f in Foreign(s');
        if f in s.live { assert Foreign(s)[f] == s.live[f]; assert Foreign(s')[f] == s'.live[f]; }
      }
    }
  }

  lemma ViewLive(s: State, live: Live)
    ensures ViewOf(s.(live := live)) == ViewOf(s)
  {}

  lemma NoKeyYet(root: map<nat, nat>, place: map<nat, P.Pos>, pte: map<Key, Pte>, t: nat)
    requires Rooted(root, place, pte) && t !in root
    ensures forall v :: (t, v) !in pte
  {}

  lemma NoStack(ts: P.Tables, pte: map<Key, Pte>, root: map<nat, nat>, t: nat)
    requires Sync(ts, pte, root) && t in root && (t, STACK_BASE) !in pte && (t, STACK_BASE + 1) !in pte
    ensures P.LookupIn(ts, root[t], VAddr(STACK_BASE)) == P.ZERO == P.LookupIn(ts, root[t], VAddr(STACK_BASE + 1))
  {
    assert PageSync(ts, pte, root[t], t, STACK_BASE) && PageSync(ts, pte, root[t], t, STACK_BASE + 1);
  }

  /** A task with an empty root table has no mappings, as the tables say. */
  lemma SyncRoot(ts: P.Tables, place: map<nat, P.Pos>, ts': P.Tables, place': map<nat, P.Pos>, pte: map<Key, Pte>, root: map<nat, nat>, t: nat, r: nat)
    requires ts.Keys == place.Keys && Rooted(root, place, pte) && Sync(ts', pte, root) && Rooted(root, place', pte)
    requires t !in root && r !in ts && P.IsRoot(place', r) && forall v :: P.LookupIn(ts', r, v) == P.ZERO
    ensures Sync(ts', pte, root[t := r]) && Rooted(root[t := r], place', pte)
  {
    NoKeyYet(root, place, pte, t);
    hide P.LookupIn, Agrees;
    var root' := root[t := r];
    forall u, w: nat | u in root' && w < PAGES
      ensures PageSync(ts', pte, root'[u], u, w)
    {
      if u != t {
        assert PageSync(ts', pte, root[u], u, w);
      } else {
        assert FlatAt(pte, t, w) == None && Agrees(P.ZERO, None);
      }
    }
    assert forall u :: u in root ==> P.IsRoot(place, root[u]) && root[u] in ts;
  }

  /** The two pages of a stack change in the tables and in the flat mappings. */
  lemma SyncStack(ts: P.Tables, place: map<nat, P.Pos>, ts1: P.Tables, place1: map<nat, P.Pos>, ts2: P.Tables,
                  pte: map<Key, Pte>, pte': map<Key, Pte>, root: map<nat, nat>, t: nat, e: P.Entry, e': P.Entry)
    requires Sync(ts, pte, root) && Rooted(root, place, pte) && t in root
    requires forall q :: P.IsRoot(place, q) ==> P.IsRoot(place1, q)
    requires Rewrote(ts, place, ts1, root[t], STACK_BASE, e) && Rewrote(ts1, place1, ts2, root[t], STACK_BASE + 1, e')
    requires Agrees(e, FlatAt(pte', t, STACK_BASE)) && Agrees(e', FlatAt(pte', t, STACK_BASE + 1))
    requires forall q :: q != (t, STACK_BASE) ==> (q in pte <==> q in pte') && (q in pte ==> pte[q] == pte'[q])
    ensures Sync(ts2, pte', root)
  {
    hide P.LookupIn, P.IsRoot, Agrees;
    forall u, w: nat | u in root && w < PAGES
      ensures PageSync(ts2, pte', root[u], u, w)
    {
      assert PageSync(ts, pte, root[u], u, w);
      assert P.IsRoot(place, root[u]) && P.IsRoot(place1, root[u]);
      StackFlat(pte, pte', t, u, w);
      hide FlatAt;
      assert P.LookupIn(ts2, root[u], VAddr(w)) ==
        (if u == t && w == STACK_BASE then e else if u == t && w == STACK_BASE + 1 then e' else P.LookupIn(ts, root[u], VAddr(w)));
    }
  }

  lemma StackFlat(pte: map<Key, Pte>, pte': map<Key, Pte>, t: nat, u: nat, w: nat)
    requires forall q :: q != (t, STACK_BASE) ==> (q in pte <==> q in pte') && (q in pte ==> pte[q] == pte'[q])
    ensures (u, w) != (t, STACK_BASE) && (u, w) != (t, STACK_BASE + 1) ==> FlatAt(pte', u, w) == FlatAt(pte, u, w)
  {}

  /** Tables, then a frame, then tables again. */
  lemma AddedThenFrame(l: Live, ts: set<nat>, l1: Live, ts1: set<nat>, f: nat, b: Block, l2: Live, ts2: set<nat>)
    requires P.TablesAdded(l, ts, l1, ts1) && f !in l1 && P.TablesAdded(l1[f := b], ts1, l2, ts2)
    ensures f !in l && P.TablesAdded(l[f := b], ts, l2, ts2)
  {
    assert P.TablesAdded(l[f := b], ts, l1[f := b], ts1) by {
      hide P.Indices;
      assert f !in l && f !in P.Indices(ts1 - ts);
      assert P.WithPages(l[f := b], ts1 - ts) == P.WithPages(l, ts1 - ts)[f := b];
    }
    hide P.TablesAdded;
    P.AddedMoreTables(l[f := b], ts, l1[f := b], ts1, l2, ts2);
  }

  lemma StackAgrees(pte: map<Key, Pte>, t: nat, f: nat)
    requires (t, STACK_BASE + 1) !in pte
    ensures var pte' := pte[(t, STACK_BASE) := Entry(f, Plain)];
      FlatAt(pte', t, STACK_BASE) == Some(Entry(A.Addr(f), Plain)) && FlatAt(pte', t, STACK_BASE + 1) == Some(Entry(A.Addr(f) + 0x1000, Plain))
  {}

  lemma NothingAgrees(pte: map<Key, Pte>, t: nat, v: nat)
    requires (t, v) !in pte && (v == STACK_BASE + 1 ==> (t, STACK_BASE) !in pte)
    ensures Agrees(P.ZERO, FlatAt(pte, t, v))
  {}

  lemma NoKey(root: map<nat, nat>, place: map<nat, P.Pos>, pte: map<Key, Pte>, t: nat)
    requires Rooted(root, place, pte)
    ensures (t, STACK_BASE + 1) !in pte
  {}

  lemma DropParts(s: State, k: Key, ts: set<nat>)
    requires k in s.pte && s.pte[k].frame in s.live && s.live[s.pte[k].frame].refCnt > 0 && Apart(ts, s.mem)
    ensures var s' := Drop(s, k);
      s'.pte == s.pte - {k} && s'.live == FreeLive(s.live, s.pte[k].frame) && Apart(ts, s'.mem)
  {}

  lemma SyncCut(ts: P.Tables, place: map<nat, P.Pos>, ts': P.Tables, pte: map<Key, Pte>, root: map<nat, nat>, t: nat, v: nat)
    requires Sync(ts, pte, root) && Rooted(root, place, pte) && (t, v) in pte && v != STACK_BASE
    requires Rewrote(ts, place, ts', root[t], v, P.ZERO)
    ensures Sync(ts', pte - {(t, v)}, root)
  {
    var pte' := pte - {(t, v)};
    forall u, w: nat | u in root && w < PAGES && (u, w) != (t, v)
      ensures FlatAt(pte', u, w) == FlatAt(pte, u, w)
    {
      FlatSet(pte, pte', t, v, u, w);
    }
    assert FlatAt(pte', t, v) == None;
    hide FlatAt, Rewrote, Sync, Rooted;
    SyncSet(ts, place, ts', pte, pte', root, t, v, P.ZERO);
  }

  /** What a write fault finds, and that resolving it keeps the sharing invariant. */
  lemma UnshareOk(s: State, k: Key)
    requires Inv(s) && k in s.pte && !s.pte[k].writable && k !in s.ro && k.1 != STACK_BASE
    ensures var f := s.pte[k].frame;
      f in s.live && f in s.mem && s.live[f].refCnt > 0 && s.live[f].ord == MAX_ORD && s.live[f].flags == Cow && forall f' ::
        (s.live[f].refCnt > 1 ==> f' !in s.live) ==> Inv(Unshare(s, k, f'))
  {
    assert KeyOk(s, k) && FrameOk(s, s.pte[k].frame);
    forall f' | s.live[s.pte[k].frame].refCnt > 1 ==> f' !in s.live
      ensures Inv(Unshare(s, k, f'))
    {
      UnshareKeeps(s, k, f');
    }
  }

  lemma UnshareApart(s: State, k: Key, f': nat, ts: set<nat>)
    requires k in s.pte && s.pte[k].frame in s.live && s.pte[k].frame in s.mem && s.live[s.pte[k].frame].refCnt > 0
    requires P.Held(s.live, ts) && Apart(ts, s.mem) && (s.live[s.pte[k].frame].refCnt > 1 ==> f' !in s.live)
    ensures var s' := Unshare(s, k, f');
      P.Held(s'.live, ts) && Apart(ts, s'.mem) && s'.pte == s.pte[k := Entry(s'.pte[k].frame, Plain)]
  {
    var s' := Unshare(s, k, f');
    forall t | t in ts
      ensures P.TablePage(s'.live, t) && P.Index(t) !in s'.mem
    {
      assert P.TablePage(s.live, t);
    }
  }

  lemma NoTablesAdded(live: Live, ts: set<nat>, live': Live)
    requires P.TablesAdded(live, ts, live', ts)
    ensures live' == live
  {
    assert ts - ts == {};
  }

  lemma ShareParts(s: State, p: nat, c: nat, v: nat)
    requires (p, v) in s.pte && s.pte[(p, v)].frame in s.live
    ensures var e, s' := Entry(s.pte[(p, v)].frame, Segment(Code(s.ro, (p, v)))), Share(s, p, c, v);
      s'.pte == s.pte[(p, v) := e][(c, v) := e] && s'.mem == s.mem
  {}

  lemma OwnFrame(s: State, k: Key)
    requires Inv(s) && k in s.pte
    ensures var f := s.pte[k].frame; f in s.mem && f in s.live && s.live[f].refCnt > 0 && s.live[f].ord == OrdOf(k.1)
  {
    assert KeyOk(s, k) && FrameOk(s, s.pte[k].frame);
  }

  lemma MappedIff(ts: P.Tables, place: map<nat, P.Pos>, up: map<nat, nat>, pte: map<Key, Pte>, root: map<nat, nat>, t: nat, v: nat)
    requires P.Forest(ts, place, up) && Rooted(root, place, pte) && Sync(ts, pte, root)
    requires t in root && v < PAGES && v != STACK_BASE + 1
    ensures P.LookupIn(ts, root[t], VAddr(v)) != P.ZERO <==> (t, v) in pte
    ensures (t, v) in pte ==> P.LookupIn(ts, root[t], VAddr(v)).frame == A.Addr(pte[(t, v)].frame) && P.LeafTable(place, root[t], VAddr(v))
  {
    assert PageSync(ts, pte, root[t], t, v);
    if (t, v) in pte {
      hide P.LookupIn, P.Forest;
      P.MappedLeaf(ts, place, up, root[t], VAddr(v));
    }
  }

  lemma SameSync(ts: P.Tables, place: map<nat, P.Pos>, ts': P.Tables, place': map<nat, P.Pos>, pte: map<Key, Pte>, root: map<nat, nat>)
    requires Sync(ts, pte, root) && Rooted(root, place, pte)
    requires forall q :: P.IsRoot(place, q) ==> P.IsRoot(place', q)
    requires forall q, w: nat :: P.IsRoot(place, q) && w < P.VA_LIMIT ==> P.LookupIn(ts', q, w) == P.LookupIn(ts, q, w)
    ensures Sync(ts', pte, root) && Rooted(root, place', pte)
  {
    hide P.LookupIn, Agrees, FlatAt;
    forall u, w: nat | u in root && w < PAGES
      ensures PageSync(ts', pte, root[u], u, w)
    {
      SamePageIff(w, w);
      assert PageSync(ts, pte, root[u], u, w);
      assert P.IsRoot(place, root[u]);
    }
  }

  lemma InPages(root: map<nat, nat>, place: map<nat, P.Pos>, pte: map<Key, Pte>, k: Key)
    requires Rooted(root, place, pte) && k in pte
    ensures k.0 in root && k.1 < PAGES && k.1 != STACK_BASE + 1
  {}

  lemma RootOf(root: map<nat, nat>, place: map<nat, P.Pos>, pte: map<Key, Pte>, t: nat)
    requires Rooted(root, place, pte) && t in root
    ensures P.IsRoot(place, root[t])
  {}

  lemma SyncMapped(ts: P.Tables, place: map<nat, P.Pos>, ts': P.Tables, pte: map<Key, Pte>, root: map<nat, nat>,
                   t: nat, v: nat, m: Pte, e: P.Entry)
    requires Sync(ts, pte, root) && Rooted(root, place, pte) && t in root && v < PAGES && v != STACK_BASE && v != STACK_BASE + 1
    requires Rewrote(ts, place, ts', root[t], v, e) && Agrees(e, Some(m.(frame := A.Addr(m.frame))))
    ensures Sync(ts', pte[(t, v) := m], root)
  {
    var pte' := pte[(t, v) := m];
    forall u, w: nat | u in root && w < PAGES && (u, w) != (t, v)
      ensures FlatAt(pte', u, w) == FlatAt(pte, u, w)
    {
      FlatSet(pte, pte', t, v, u, w);
    }
    assert FlatAt(pte', t, v) == Some(m.(frame := A.Addr(m.frame)));
    hide FlatAt, Agrees, Rewrote, Sync, Rooted;
    SyncSet(ts, place, ts', pte, pte', root, t, v, e);
  }

  lemma StillRooted(root: map<nat, nat>, place: map<nat, P.Pos>, place': map<nat, P.Pos>, pte: map<Key, Pte>, pte': map<Key, Pte>,
                    t: nat, v: nat)
    requires Rooted(root, place, pte) && t in root && v < PAGES && v != STACK_BASE + 1
    requires (forall q :: P.IsRoot(place, q) ==> P.IsRoot(place', q)) && pte'.Keys <= pte.Keys + {(t, v)}
    ensures Rooted(root, place', pte')
  {}
}
