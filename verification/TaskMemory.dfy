/** Tasks over the machine: the region walks of fork, exec, exit and the page faults,
    with tables and frames from one allocator, and what the table walk then reads,
    over every history. */
module TaskMemory {
  import opened Frames
  import opened CowModel
  import A = AddressSpaces
  import B = BuddyAllocator
  import BuddyModel
  import M = Machine
  import P = PageTable
  import W = HardwareWalk
  import ExecStack

  // ------------------------------------------------ memory with and without tables

  /** s is z with the table pages ts allocated besides. */
  ghost predicate Over(z: State, s: State, ts: set<nat>) {
    s == z.(live := s.live) && P.TablesAdded(z.live, {}, s.live, ts)
  }

  /** A block of z is a block of s, and not a table page. */
  lemma OverAt(l: Live, l': Live, ts: set<nat>, f: nat)
    requires P.TablesAdded(l, {}, l', ts)
    ensures f in l ==> f in l' && l'[f] == l[f] && f !in P.Indices(ts)
    ensures f in P.Indices(ts) ==> f in l'
  {
    assert ts - {} == ts;
  }

  lemma OverPut(l: Live, l': Live, ts: set<nat>, f: nat, b: Block)
    requires P.TablesAdded(l, {}, l', ts) && f !in P.Indices(ts)
    ensures P.TablesAdded(l[f := b], {}, l'[f := b], ts)
  {
    assert ts - {} == ts;
    hide P.Indices;
    assert P.WithPages(l[f := b], ts) == P.WithPages(l, ts)[f := b];
  }

  lemma OverCut(l: Live, l': Live, ts: set<nat>, f: nat)
    requires P.TablesAdded(l, {}, l', ts) && f !in P.Indices(ts)
    ensures P.TablesAdded(l - {f}, {}, l' - {f}, ts)
  {
    assert ts - {} == ts;
    hide P.Indices;
    assert P.WithPages(l - {f}, ts) == P.WithPages(l, ts) - {f};
  }

  lemma OverShare(z: State, s: State, ts: set<nat>, p: nat, c: nat, v: nat)
    requires Over(z, s, ts) && (p, v) in z.pte && z.pte[(p, v)].frame in z.live
    ensures s.pte[(p, v)].frame in s.live && Over(Share(z, p, c, v), Share(s, p, c, v), ts)
  {
    var f := z.pte[(p, v)].frame;
    OverAt(z.live, s.live, ts, f);
    OverPut(z.live, s.live, ts, f, DupLive(z.live, f)[f]);
  }

  lemma OverDrop(z: State, s: State, ts: set<nat>, k: Key)
    requires Over(z, s, ts) && k in z.pte && z.pte[k].frame in z.live && z.live[z.pte[k].frame].refCnt > 0
    ensures s.pte[k].frame in s.live && s.live[s.pte[k].frame].refCnt > 0 && Over(Drop(z, k), Drop(s, k), ts)
  {
    var f := z.pte[k].frame;
    OverAt(z.live, s.live, ts, f);
    if z.live[f].refCnt == 1 {
      OverCut(z.live, s.live, ts, f);
    } else {
      OverPut(z.live, s.live, ts, f, FreeLive(z.live, f)[f]);
    }
  }

  lemma OverFresh(z: State, s: State, ts: set<nat>, k: Key, f: nat, data: Bytes, prot: Prot)
    requires Over(z, s, ts) && f !in s.live
    ensures f !in z.live && Over(Fresh(z, k, f, data, prot), Fresh(s, k, f, data, prot), ts)
  {
    OverAt(z.live, s.live, ts, f);
    OverPut(z.live, s.live, ts, f, Block(OrdOf(k.1), 1, Used));
  }

  lemma OverUnshare(z: State, s: State, ts: set<nat>, k: Key, f': nat)
    requires Over(z, s, ts) && k in z.pte && z.pte[k].frame in z.live && z.pte[k].frame in z.mem && z.live[z.pte[k].frame].refCnt > 0
    requires z.live[z.pte[k].frame].refCnt > 1 ==> f' !in s.live
    ensures s.pte[k].frame in s.live && s.live[s.pte[k].frame] == z.live[z.pte[k].frame]
    ensures Over(Unshare(z, k, f'), Unshare(s, k, f'), ts)
  {
    var f := z.pte[k].frame;
    OverAt(z.live, s.live, ts, f);
    OverAt(z.live, s.live, ts, f');
    var b := CowLive(z.live, f)[f];
    OverPut(z.live, s.live, ts, f, b);
    if z.live[f].refCnt > 1 {
      OverPut(z.live[f := b], s.live[f := b], ts, f', Block(OrdOf(k.1), 1, Used));
    }
  }

  /** More tables. */
  lemma OverMore(z: State, s: State, ts: set<nat>, l: Live, ts': set<nat>)
    requires Over(z, s, ts) && P.TablesAdded(s.live, ts, l, ts')
    ensures Over(z, s.(live := l), ts')
  {
    hide P.TablesAdded;
    P.AddedMoreTables(z.live, {}, s.live, ts, l, ts');
  }

  /** Fewer. */
  lemma OverLess(z: State, s: State, ts: set<nat>, gone: set<nat>)
    requires Over(z, s, ts) && gone <= ts && P.Held(s.live, ts)
    ensures Over(z, s.(live := s.live - P.Indices(gone)), ts - gone)
  {
    assert ts - {} == ts && ts - gone - {} == ts - gone;
    forall f | f in P.Indices(ts - gone)
      ensures f !in P.Indices(gone)
    {
      var t :| t in ts - gone && f == P.Index(t);
      assert forall u :: u in gone ==> P.Index(u) != f by {
        forall u | u in gone
          ensures P.Index(u) != f
        {
          P.IndexInjective(s.live, ts, t, u);
        }
      }
    }
    assert P.Indices(ts) == P.Indices(ts - gone) + P.Indices(gone);
    hide P.Indices, P.Held;
    assert s.live - P.Indices(gone) == P.WithPages(z.live, ts - gone);
  }

  lemma {:induction false} OverDropPages(z: State, s: State, ts: set<nat>, t: nat, vs: seq<nat>)
    requires Inv(z) && Over(z, s, ts) && Distinct(vs) && forall v :: v in vs ==> (t, v) in z.pte
    ensures Over(DropPages(z, t, vs), DropPages(s, t, vs), ts)
    decreases |vs|
  {
    if vs == [] {
      A.NoDrops(z, t);
      A.NoDrops(s, t);
    } else {
      var n := |vs| - 1;
      var init := vs[..n];
      assert vs == init + [vs[n]] && vs[..n + 1] == vs;
      hide Inv, DropPages, Over, Distinct;
      SplitDistinct(init, [vs[n]]);
      OverDropPages(z, s, ts, t, init);
      var f := M.DropNext(z, t, vs, n);
      OverDrop(DropPages(z, t, init), DropPages(s, t, init), ts, (t, vs[n]));
      SamePte(DropPages(z, t, init), DropPages(s, t, init), ts);
      M.DropLast(s, t, init, vs[n]);
    }
  }

  lemma SamePte(z: State, s: State, ts: set<nat>)
    requires Over(z, s, ts)
    ensures s.pte == z.pte && s.mem == z.mem && s.ro == z.ro
  {}

  lemma OverInv(z: State, s: State, ts: set<nat>)
    requires Inv(z) && Over(z, s, ts)
    ensures Inv(s)
  {
    forall f | f in z.mem
      ensures f in s.live && f in z.live && s.live[f] == z.live[f]
    {
      assert FrameOk(z, f);
      OverAt(z.live, s.live, ts, f);
    }
    hide Inv, FrameOk, P.TablesAdded;
    M.InvLive(z, s.live);
  }

  // --------------------------------------------------------------- what is read

  /** A page of a block's contents: the block's own page or the second of a stack. */
  ghost function PageBytes(mem: map<nat, Bytes>, i: nat): Option<Bytes> {
    if i in mem && |mem[i]| >= PAGE then Some(mem[i][..PAGE])
    else if i > 0 && i - 1 in mem && |mem[i - 1]| == 2 * PAGE then Some(mem[i - 1][PAGE..])
    else None
  }

  /** What user code reads at page v: the processor walks the tables from the root r, and
      a page descriptor that lets user code read gives the address of the bytes. */
  ghost function WalkRead(words: map<nat, seq<nat>>, r: nat, mem: map<nat, Bytes>, v: nat): Option<Bytes> {
    match W.Walk(words, r, 0x1000 * v)
    case None => None
    case Some(w) =>
      if !W.UserReads(w) || W.Output(w) < 0x4000_0000 then None
      else PageBytes(mem, (W.Output(w) - 0x4000_0000) / 0x1000)
  }

  /** What the specification holds at page v of task t. */
  ghost function PageOf(view: View, t: nat, v: nat): Option<Bytes> {
    if (t, v) in view && |view[(t, v)]| >= PAGE then Some(view[(t, v)][..PAGE])
    else if v == STACK_BASE + 1 && (t, STACK_BASE) in view && |view[(t, STACK_BASE)]| == 2 * PAGE then
      Some(view[(t, STACK_BASE)][PAGE..])
    else None
  }

  /** The processor finds a page descriptor exactly where there is a flat mapping, and its
      bits say what the mapping says. */
  lemma WalkFinds(words: map<nat, seq<nat>>, ts: P.Tables, place: map<nat, P.Pos>, up: map<nat, nat>,
                  pte: map<Key, Pte>, root: map<nat, nat>, t: nat, v: nat)
    requires P.Forest(ts, place, up) && P.Reads(words, ts) && M.Rooted(root, place, pte) && M.Sync(ts, pte, root)
    requires t in root && v < 0x10_0000_0000
    ensures var w, flat := W.Walk(words, root[t], 0x1000 * v), M.FlatAt(pte, t, v);
      && (w.Some? <==> flat.Some?)
      && (w.Some? ==> Means(w.value, flat.value))
  {
    hide P.Forest, P.Reads, P.EntryOf, P.LookupIn, M.FlatAt, W.Walk, W.Output;
    var w := W.Walk(words, root[t], 0x1000 * v);
    assert P.IsRoot(place, root[t]);
    W.WalkIs(words, ts, place, up, root[t], 0x1000 * v);
    assert M.PageSync(ts, pte, root[t], t, v);
    if w.Some? { W.WordBits(w.value); }
  }

  /** The descriptor w of a page mapped as e says, whose frame is given by address. */
  ghost predicate Means(w: nat, e: Pte) {
    && W.Output(w) == e.frame && W.UserReads(w) && !W.KernelRuns(w)
    && (W.UserWrites(w) <==> e.writable) && (W.UserRuns(w) <==> e.exec)
  }

  /** Where tables and flat mappings agree, the walk reads the view. */
  lemma WalkReadsView(words: map<nat, seq<nat>>, ts: P.Tables, place: map<nat, P.Pos>, up: map<nat, nat>,
                      s: State, root: map<nat, nat>, t: nat, v: nat)
    requires P.Forest(ts, place, up) && P.Reads(words, ts)
    requires Inv(s) && M.Sync(ts, s.pte, root) && M.Rooted(root, place, s.pte) && t in root && v < M.PAGES
    requires forall f :: f in s.mem && f + 1 in s.mem ==> |s.mem[f]| != 2 * PAGE
    ensures WalkRead(words, root[t], s.mem, v) == PageOf(ViewOf(s), t, v)
  {
    hide P.Forest, P.Reads, Inv, M.Sync, M.Rooted, KeyOk, FrameOk, ViewOf, W.Walk, W.Output, W.UserReads, W.UserWrites, W.UserRuns, W.KernelRuns;
    WalkFinds(words, ts, place, up, s.pte, root, t, v);
    M.NoKey(root, place, s.pte, t);
    ViewKeys(s);
    var k := if v == STACK_BASE + 1 then (t, STACK_BASE) else (t, v);
    if k in s.pte {
      InView(s, k);
      KeySize(s, k);
      BlockPage(s.mem, s.pte[k].frame, v, k.1);
      FrameIndex(s.pte[k].frame);
    }
  }

  /** The page of a block that page v reads. */
  lemma BlockPage(mem: map<nat, Bytes>, f: nat, v: nat, base: nat)
    requires f in mem && |mem[f]| == SizeOf(base) && (f + 1 in mem ==> |mem[f]| != 2 * PAGE)
    requires v == base || (base == STACK_BASE && v == STACK_BASE + 1)
    ensures v == base ==> PageBytes(mem, f) == Some(mem[f][..PAGE])
    ensures v != base ==> PageBytes(mem, f + 1) == Some(mem[f][PAGE..])
  {}

  lemma FrameIndex(f: nat)
    ensures A.Addr(f) == 0x4000_0000 + 0x1000 * f
  {}

  lemma KeySize(s: State, k: Key)
    requires k in s.pte && KeyOk(s, k)
    ensures s.pte[k].frame in s.mem && |s.mem[s.pte[k].frame]| == SizeOf(k.1)
  {}

  /** What an entry allows follows the read-only segments. */
  lemma EntryAllows(s: State, k: Key)
    requires Inv(s)
    ensures k in s.pte ==> (s.pte[k].exec <==> Code(s.ro, k)) && (s.pte[k].writable ==> k !in s.ro)
  {
    if k in s.pte { assert KeyOk(s, k); }
  }

  lemma StackRegion(spaces: map<nat, A.Space>, pte: map<Key, Pte>, ro: map<Key, bool>, t: nat)
    requires A.Layout(spaces, pte, ro) && t in spaces
    ensures A.FindRegion(spaces[t], STACK_BASE).None?
  {
    assert A.LaidOut(spaces[t], t, pte, ro);
  }

  /** A writable mapping shares its frame with no other, and blocks do not overlap. */
  lemma SoleReader(s: State, t: nat, v: nat, u: nat, x: nat)
    requires Inv(s) && (t, STACK_BASE + 1) !in s.pte && (u, STACK_BASE + 1) !in s.pte && (t, v) != (u, x)
    requires forall f :: f in s.mem && f + 1 in s.mem ==> |s.mem[f]| != 2 * PAGE
    ensures var e, e' := M.FlatAt(s.pte, t, v), M.FlatAt(s.pte, u, x);
      e.Some? && e'.Some? && e.value.writable ==> e.value.frame != e'.value.frame
  {
    var k, k' := (t, if v == STACK_BASE + 1 then STACK_BASE else v), (u, if x == STACK_BASE + 1 then STACK_BASE else x);
    if k in s.pte && k' in s.pte && s.pte[k].writable {
      InView(s, k);
      InView(s, k');
      OneMapper(s, k);
      FrameIndex(s.pte[k].frame);
      FrameIndex(s.pte[k'].frame);
      hide Inv, FrameOk, Mappers, A.Addr;
    }
  }

  lemma Blocks(z: State, s: State, ts: set<nat>)
    requires Inv(z) && Over(z, s, ts)
    ensures s.live.Keys == Foreign(z).Keys + s.mem.Keys + P.Indices(ts)
    ensures Foreign(z).Keys !! s.mem.Keys !! P.Indices(ts)
  {
    assert forall f :: f in z.mem ==> FrameOk(z, f);
    assert ts - {} == ts;
    hide Inv, FrameOk, P.Indices;
    assert forall f :: f in z.mem ==> f in z.live;
    assert s.live.Keys == z.live.Keys + P.Indices(ts);
  }

  lemma MapperOf(s: State, f: nat) returns (q: Key)
    requires Inv(s) && f in s.mem
    ensures q in s.pte && s.pte[q].frame == f
  {
    assert FrameOk(s, f);
    q :| q in Mappers(s, f);
  }

  lemma KeyTask(spaces: map<nat, A.Space>, pte: map<Key, Pte>, ro: map<Key, bool>, q: Key)
    requires A.Layout(spaces, pte, ro) && q in pte
    ensures q.0 in spaces
  {}

  lemma FrameSize(s: State, f: nat)
    requires Inv(s) && f in s.mem
    ensures f in s.live && (|s.mem[f]| == 2 * PAGE ==> s.live[f].ord == MAX_ORD - 1)
  {
    assert FrameOk(s, f);
    var q :| q in Mappers(s, f);
    assert KeyOk(s, q);
  }

  /** Blocks do not overlap: the page after the head of a two-page block heads none. */
  lemma StackPagesApart(al: B.Allocator, f: nat)
    requires al.Valid() && f in al.Live() && al.Live()[f].ord == MAX_ORD - 1
    ensures f + 1 !in al.Live()
  {
    assert BuddyModel.IsBlock(al.Ms(), al.own, f);
  }

  // ------------------------------------------------------------------- histories

  /** The operations past lead from the start to z. */
  ghost predicate History(start: State, past: seq<Op>, z: State) {
    Inv(start) && Inv(z) && RunFrom(start, past) == Some(z)
  }

  lemma InvNow(start: State, past: seq<Op>, z: State)
    requires History(start, past, z)
    ensures Inv(z)
  {}

  lemma Extend(start: State, past: seq<Op>, z: State, op: Op, z': State)
    requires History(start, past, z) && StepsTo(z, op, z')
    ensures History(start, past + [op], z')
  {
    hide Inv, Enabled, Apply;
    RunFromSnoc(start, past, z, op, z');
    StepsRefine(z, op, z');
  }

  /** A history refines the eager one and keeps the kernel's own blocks. */
  lemma HistoryRefines(start: State, past: seq<Op>, z: State)
    requires History(start, past, z)
    ensures ViewOf(z) == EagerRun(ViewOf(start), past) && Foreign(z) == Foreign(start)
  {
    hide Inv;
    var ss := RunFromIsRun(start, past);
    RunRefines(ss, past);
  }

  /** The blocks of a task in the order free_task visits them. */
  function ExitOrder(sp: A.Space): seq<nat> {
    A.ProgramPages(sp.program) + [STACK_BASE] + (sp.brk.Pages() + sp.mmap.Pages())
  }

  lemma ExitOrderIs(spaces: map<nat, A.Space>, pte: map<Key, Pte>, ro: map<Key, bool>, t: nat)
    requires A.Layout(spaces, pte, ro) && t in spaces
    ensures Distinct(ExitOrder(spaces[t])) && forall v :: v in ExitOrder(spaces[t]) <==> (t, v) in pte
  {
    var sp := spaces[t];
    var a, b := A.ProgramPages(sp.program), sp.brk.Pages() + sp.mmap.Pages();
    A.PagesMapped(spaces, pte, ro, t);
    assert a + b == A.AllPages(sp);
    A.InsertDistinct(a, b, [STACK_BASE]);
    forall v
      ensures v in ExitOrder(sp) <==> (t, v) in pte
    {
      A.PageAt(spaces, pte, ro, t, v);
      assert v in ExitOrder(sp) <==> v in A.AllPages(sp) || v == STACK_BASE;
    }
  }

  lemma ExitLaidOut(spaces: map<nat, A.Space>, s: State, t: nat, vs: seq<nat>)
    requires Inv(s) && A.Layout(spaces, s.pte, s.ro) && t in spaces && Distinct(vs) && forall v :: v in vs <==> (t, v) in s.pte
    ensures var s' := DropPages(s, t, vs); A.Layout(spaces - {t}, s'.pte, s'.ro)
  {
    var s' := DropPages(s, t, vs);
    hide Inv, A.LaidOut, DropPages, ViewOf, Foreign;
    A.RoMapped(spaces, s.pte, s.ro);
    DropPagesKeeps(s, t, vs);
    M.AllDropped(s, t, vs);
    assert forall q :: q in KeysOf(t, vs) ==> q.0 == t;
    assert forall q :: q in s.pte && q.0 == t ==> q == (t, q.1) && q.1 in vs && q in KeysOf(t, vs);
    forall u | u in spaces - {t}
      ensures A.LaidOut(spaces[u], u, s'.pte, s'.ro)
    {
      A.StackKept(spaces[u], u, s.pte, s.ro);
      A.LaidOutFrame(spaces[u], u, s.pte, s.ro, s'.pte, s'.ro);
    }
  }

  lemma HeldOver(l: Live, l': Live, l0: Live, ts: set<nat>)
    requires P.Held(l0, ts) && P.TablesAdded(l, {}, l', ts)
    ensures P.Held(l', ts)
  {
    assert ts - {} == ts;
    forall t | t in ts
      ensures P.TablePage(l', t)
    {
      assert P.TablePage(l0, t) && P.Index(t) in P.Indices(ts);
    }
  }

  class Tasks {
    const m: M.Machine
    ghost const start: State
    /** User memory without the tables, and what has been done to it since the start. */
    ghost var z: State
    ghost var past: seq<Op>

    ghost predicate Valid()
      reads this, m, m.k, m.pt, m.k.al, m.k.al.pages, m.k.al.heads
    {
      && m.Core() && A.Layout(m.k.spaces, m.k.pte, m.k.ro) && m.root.Keys == m.k.spaces.Keys
      && Over(z, m.k.St(), m.pt.tables.Keys) && History(start, past, z)
    }

    constructor (a: B.Allocator)
      requires a.Valid()
      ensures Valid() && m.k.al == a && past == [] && m.root == map[]
    {
      var m0 := new M.Machine(a);
      m := m0;
      start, z, past := m0.k.St(), m0.k.St(), [];
      P.AddedNoTables(a.Live(), {});
    }

    /** In every history, what a task finds by walking its tables is what it would hold
        had fork copied every page. */
    lemma WalkReadsEager(t: nat, v: nat)
      requires Valid() && t in m.root && v < M.PAGES
      ensures WalkRead(m.pt.words, m.root[t], m.k.mem, v) == PageOf(EagerRun(ViewOf(start), past), t, v)
    {
      hide Inv, M.Sync, M.Rooted, M.Apart, A.Layout, P.Forest, P.Reads, P.Held, ViewOf, PageOf, WalkRead, Foreign, B.Allocator.Valid;
      HistoryRefines(start, past, z);
      assert ViewOf(m.k.St()) == ViewOf(z) by { M.ViewLive(z, m.k.al.Live()); }
      forall f | f in m.k.mem && f + 1 in m.k.mem
        ensures |m.k.mem[f]| != 2 * PAGE
      {
        OneOrTwo(f);
      }
      WalkReadsView(m.pt.words, m.pt.tables, m.pt.place, m.pt.up, m.k.St(), m.root, t, v);
    }

    /** In every history byte i of a task's stack block, which execv_inner fills and fork
        copies, is what the task reads i bytes above the base its pointers start from. */
    lemma StackRead(t: nat, i: nat)
      requires Valid() && t in m.root && i < 8192
      ensures (t, STACK_BASE) in m.k.pte && m.k.pte[(t, STACK_BASE)].frame in m.k.mem
      ensures var a, stack := ExecStack.BASE + i, m.k.mem[m.k.pte[(t, STACK_BASE)].frame];
        var page := WalkRead(m.pt.words, m.root[t], m.k.mem, a / 0x1000);
        |stack| == 8192 && page.Some? && |page.value| == 0x1000 && page.value[a % 0x1000] == stack[i]
    {
      hide Inv, KeyOk, FrameOk, M.Sync, M.Rooted, M.Apart, A.Layout, P.Forest, P.Reads, P.Held, ViewOf, WalkRead, History, Over, B.Allocator.Valid;
      var s, v := m.k.St(), (ExecStack.BASE + i) / 0x1000;
      A.PageAt(m.k.spaces, s.pte, s.ro, t, STACK_BASE);
      InView(s, (t, STACK_BASE));
      KeySize(s, (t, STACK_BASE));
      M.NoKey(m.root, m.pt.place, s.pte, t);
      ViewKeys(s);
      forall f | f in m.k.mem && f + 1 in m.k.mem
        ensures |m.k.mem[f]| != 2 * PAGE
      {
        OneOrTwo(f);
      }
      WalkReadsView(m.pt.words, m.pt.tables, m.pt.place, m.pt.up, s, m.root, t, v);
    }

    /** In every history the processor finds a page descriptor at exactly the pages of a
        task's regions and the two of its stack. User code can read all of them, run
        exactly those of its executable segments, and write only to its writable
        regions and its stack; the kernel runs none of them. */
    lemma Permissions(t: nat, v: nat)
      requires Valid() && t in m.root && v < 0x10_0000_0000
      ensures var w, r := W.Walk(m.pt.words, m.root[t], 0x1000 * v), A.FindRegion(m.k.spaces[t], v);
        && (w.Some? <==> r.Some? || v == 0x20_0000 || v == 0x20_0001)
        && (w.Some? ==> W.UserReads(w.value) && !W.KernelRuns(w.value))
        && (w.Some? ==> (W.UserRuns(w.value) <==> r.Some? && r.value.perm == A.ReadExec))
        && (w.Some? && W.UserWrites(w.value) ==> r.None? || r.value.perm == A.ReadWrite)
    {
      hide Inv, KeyOk, FrameOk, M.Sync, M.Rooted, M.Apart, A.Layout, P.Forest, P.Reads, P.Held, W.Walk, A.FindRegion, A.AllPages, History, Over;
      hide W.UserReads, W.UserWrites, W.UserRuns, W.KernelRuns, B.Allocator.Valid, B.Allocator.Live;
      var s := m.k.St();
      WalkFinds(m.pt.words, m.pt.tables, m.pt.place, m.pt.up, s.pte, m.root, t, v);
      M.NoKey(m.root, m.pt.place, s.pte, t);
      A.PageAt(m.k.spaces, s.pte, s.ro, t, v);
      A.PageAt(m.k.spaces, s.pte, s.ro, t, STACK_BASE);
      StackRegion(m.k.spaces, s.pte, s.ro, t);
      EntryAllows(s, (t, if v == STACK_BASE + 1 then STACK_BASE else v));
    }

    /** In every history a page that user code can write is its own: no other page of any
        task leads to the same address, and no page of a task leads to a table. */
    lemma WritableAlone(t: nat, v: nat, u: nat, x: nat)
      requires Valid() && t in m.root && u in m.root && v < 0x10_0000_0000 && x < 0x10_0000_0000
      ensures var w, w' := W.Walk(m.pt.words, m.root[t], 0x1000 * v), W.Walk(m.pt.words, m.root[u], 0x1000 * x);
        && (w.Some? ==> W.Output(w.value) !in m.pt.tables)
        && ((t, v) != (u, x) && w.Some? && w'.Some? && W.UserWrites(w.value) ==> W.Output(w'.value) != W.Output(w.value))
    {
      hide Inv, KeyOk, FrameOk, M.Sync, M.Rooted, M.Apart, A.Layout, P.Forest, P.Reads, P.Held, W.Walk, History, Over, W.Output;
      hide W.UserReads, W.UserWrites, W.UserRuns, W.KernelRuns, B.Allocator.Valid, B.Allocator.Live;
      var s := m.k.St();
      WalkFinds(m.pt.words, m.pt.tables, m.pt.place, m.pt.up, s.pte, m.root, t, v);
      WalkFinds(m.pt.words, m.pt.tables, m.pt.place, m.pt.up, s.pte, m.root, u, x);
      M.NoKey(m.root, m.pt.place, s.pte, t);
      M.NoKey(m.root, m.pt.place, s.pte, u);
      forall f | f in s.mem && f + 1 in s.mem
        ensures |s.mem[f]| != 2 * PAGE
      {
        OneOrTwo(f);
      }
      OutOfReach(t, v);
      if (t, v) != (u, x) { SoleReader(s, t, v, u, x); }
    }

    /** No page of a task leads to a table. */
    lemma OutOfReach(t: nat, v: nat)
      requires Valid() && t in m.root
      ensures var flat := M.FlatAt(m.k.pte, t, v); flat.Some? ==> flat.value.frame !in m.pt.tables
    {
      hide Inv, M.Sync, M.Rooted, A.Layout, P.Forest, P.Reads, History, Over, B.Allocator.Valid, B.Allocator.Live;
      var s := m.k.St();
      var k := if (t, v) in s.pte then (t, v) else (t, STACK_BASE);
      if k in s.pte {
        InView(s, k);
        var f := s.pte[k].frame;
        FrameIndex(f);
        forall x | x in m.pt.tables
          ensures x != A.Addr(f) && (k.1 == STACK_BASE ==> x != A.Addr(f) + 0x1000)
        {
          assert P.TablePage(m.k.al.Live(), x) && P.Index(x) !in s.mem;
          if k.1 == STACK_BASE { StackPagesApart(m.k.al, f); }
        }
      }
    }

    /** In every history each live block is one the kernel held at the start, a frame that
        some task maps, or a table of a living task, and only one of these: nothing is
        ever leaked. */
    lemma Accounted()
      requires Valid()
      ensures m.k.al.Live().Keys == Foreign(start).Keys + m.k.mem.Keys + P.Indices(m.pt.tables.Keys)
      ensures Foreign(start).Keys !! m.k.mem.Keys !! P.Indices(m.pt.tables.Keys)
      ensures forall f :: f in m.k.mem ==> exists q :: q in m.k.pte && m.k.pte[q].frame == f && q.0 in m.root
      ensures forall x :: x in m.pt.tables ==> x in m.pt.place && exists t :: t in m.root && m.root[t] == m.pt.place[x].root
    {
      hide M.Machine.Tables, M.Apart, A.Layout, ViewOf, EagerRun, P.Indices, B.Allocator.Live;
      HistoryRefines(start, past, z);
      m.TablesHeld();
      Blocks(z, m.k.St(), m.pt.tables.Keys);
      forall f | f in m.k.mem
        ensures exists q :: q in m.k.pte && m.k.pte[q].frame == f && q.0 in m.root
      {
        var q := MapperOf(m.k.St(), f);
        KeyTask(m.k.spaces, m.k.pte, m.k.ro, q);
      }
    }

    lemma OneOrTwo(f: nat)
      requires Valid() && f in m.k.mem
      ensures f + 1 in m.k.mem ==> |m.k.mem[f]| != 2 * PAGE
    {
      hide Inv, M.Sync, M.Rooted, M.Apart, A.Layout, History, Over, B.Allocator.Valid, B.Allocator.Live;
      var s := m.k.St();
      FrameSize(s, f);
      if f + 1 in s.mem {
        FrameSize(s, f + 1);
        if s.live[f].ord == MAX_ORD - 1 { StackPagesApart(m.k.al, f); }
      }
    }

    /** init_user. */
    method Spawn(t: nat, junk: Bytes) returns (ok: bool, ghost f: nat)
      requires Valid() && t !in m.root && |junk| == 2 * PAGE
      modifies `z, `past, m, m.k, m.pt, m.k.al, m.k.al.pages, m.k.al.heads
      ensures !ok ==> BuddyModel.NoRoom(m.k.al.Live(), 7)
      ensures ok ==> Valid() && m.k.spaces == old(m.k.spaces)[t := A.EmptySpace]
      ensures A.EmptySpace == A.Space([], A.Region(0x4_0000, 0, A.ReadWrite), A.Region(0x8_0000, 0, A.ReadWrite))
      ensures ok ==> past == old(past) + [MapIn((t, 0x20_0000), f, junk, Plain)]
    {
      hide Inv, A.Layout, M.Machine.Tables, M.Apart, P.TablesAdded, BuddyModel.NoRoom, B.Allocator.Valid, B.Allocator.Live, History, Fresh;
      ghost var s, ts, sps := m.k.St(), m.pt.tables.Keys, m.k.spaces;
      NoKeys(sps, s.pte, s.ro, t);
      ok, f := m.Spawn(t, junk, s);
      if ok {
        SpawnDone(start, past, z, s, ts, sps, t, f, junk, m.k.al.Live(), m.pt.tables.Keys);
        m.k.spaces := m.k.spaces[t := A.EmptySpace];
        z, past := Fresh(z, (t, STACK_BASE), f, junk, Plain), past + [MapIn((t, STACK_BASE), f, junk, Plain)];
      }
    }

    /** The teardown of execv_inner: every region of the task, in order. */
    method ExecFree(t: nat)
      requires Valid() && t in m.root
      modifies `z, `past, m, m.k, m.pt, m.k.al, m.k.al.pages, m.k.al.heads
      ensures Valid() && m.k.spaces == old(m.k.spaces)[t := A.EmptySpace]
      ensures past == old(past) + [Op.Unmap(t, A.AllPages(old(m.k.spaces[t])))]
    {
      hide Inv, A.Layout, M.Machine.Tables, M.Apart, A.AllPages, DropPages, B.Allocator.Valid, B.Allocator.Live, History;
      ghost var s, ts := m.k.St(), m.pt.tables.Keys;
      var vs := A.AllPages(m.k.spaces[t]);
      A.PagesMapped(m.k.spaces, s.pte, s.ro, t);
      FreeDone(start, past, z, s, ts, t, vs);
      A.FreeLayout(m.k.spaces, s, t);
      m.FreeBlocks(t, vs, s);
      m.k.spaces := m.k.spaces[t := A.EmptySpace];
      z, past := DropPages(z, t, vs), past + [Op.Unmap(t, vs)];
    }

    /** free_task: the task's blocks in order, then its tables. What is left live is
        exactly what it did not own alone. */
    method Exit(t: nat)
      requires Valid() && t in m.root
      modifies `z, `past, m, m.k, m.pt, m.k.al, m.k.al.pages, m.k.al.heads
      ensures Valid() && m.k.spaces == old(m.k.spaces) - {t} && m.root == old(m.root) - {t}
      ensures past == old(past) + [Op.Unmap(t, ExitOrder(old(m.k.spaces[t])))]
      ensures m.k.al.Live().Keys == old(m.k.al.Live().Keys - M.SoleOwned(m.k.St(), t) - P.Indices(M.TablesOf(m.pt.place, m.root[t])))
    {
      hide Inv, A.Layout, M.Machine.Tables, M.Apart, ExitOrder, DropPages, B.Allocator.Valid, B.Allocator.Live, History;
      hide P.Indices, P.Held, M.SoleOwned, ViewOf;
      ghost var s, ts, gone := m.k.St(), m.pt.tables.Keys, M.TablesOf(m.pt.place, m.root[t]);
      var vs := ExitOrder(m.k.spaces[t]);
      ExitOrderIs(m.k.spaces, s.pte, s.ro, t);
      FreeDone(start, past, z, s, ts, t, vs);
      ExitLaidOut(m.k.spaces, s, t, vs);
      m.TablesHeld();
      ExitOver(DropPages(z, t, vs), DropPages(s, t, vs), s.live, ts, gone);
      m.Teardown(t, vs, s);
      m.k.spaces := m.k.spaces - {t};
      z, past := DropPages(z, t, vs), past + [Op.Unmap(t, vs)];
    }

    /** clone_region, z1 being the memory without tables. */
    method CloneRegion(p: nat, c: nat, r: A.Region, ghost z1: State) returns (ok: bool)
      requires m.Core() && Inv(z1) && Over(z1, m.k.St(), m.pt.tables.Keys) && c in m.root && p != c
      requires Distinct(r.Pages()) && CanShare(z1, p, c, r.Pages()) && A.Marked(z1.ro, p, r)
      modifies m.k`mem, m.k`pte, m.k`ro, m.pt, m.k.al, m.k.al.pages, m.k.al.heads
      ensures !ok ==> BuddyModel.NoRoom(m.k.al.Live(), MAX_ORD)
      ensures ok ==> m.Core() && Over(SharePages(z1, p, c, r.Pages()), m.k.St(), m.pt.tables.Keys)
    {
      hide Inv, M.Machine.Tables, M.Apart, SharePages, P.TablesAdded, BuddyModel.NoRoom, B.Allocator.Valid, B.Allocator.Live, Share, Code;
      A.NoPages(z1, p, c);
      ghost var vs := r.Pages();
      for i := 0 to r.len
        invariant m.Core() && Over(SharePages(z1, p, c, vs[..i]), m.k.St(), m.pt.tables.Keys)
      {
        var v := r.base + i;
        ghost var zi, s, ts := SharePages(z1, p, c, vs[..i]), m.k.St(), m.pt.tables.Keys;
        assert vs[i] == v;
        CloneNext(z1, s, ts, p, c, vs, i);
        ok := m.ClonePage(p, c, v, r.perm, s);
        if !ok {
          return;
        }
        OverMore(Share(zi, p, c, v), Share(s, p, c, v), ts, m.k.al.Live(), m.pt.tables.Keys);
      }
      assert vs[..|vs|] == vs;
      return true;
    }

    /** clone_region after the pages prev have been cloned. */
    method CloneAfter(p: nat, c: nat, r: A.Region, ghost z1: State, ghost prev: seq<nat>, ghost rest: seq<nat>) returns (ok: bool)
      requires m.Core() && Inv(z1) && Over(SharePages(z1, p, c, prev), m.k.St(), m.pt.tables.Keys) && c in m.root && p != c
      requires Distinct(prev + r.Pages() + rest) && CanShare(z1, p, c, prev + r.Pages() + rest) && A.Marked(z1.ro, p, r)
      modifies m.k`mem, m.k`pte, m.k`ro, m.pt, m.k.al, m.k.al.pages, m.k.al.heads
      ensures !ok ==> BuddyModel.NoRoom(m.k.al.Live(), MAX_ORD)
      ensures ok ==> m.Core() && Over(SharePages(z1, p, c, prev + r.Pages()), m.k.St(), m.pt.tables.Keys)
    {
      hide Inv, M.Machine.Core, Over, SharePages, CanShare, Distinct, A.Marked, BuddyModel.NoRoom, B.Allocator.Live;
      A.CanSharePrefix(z1, p, c, prev + r.Pages(), rest);
      A.CanSharePrefix(z1, p, c, prev, r.Pages());
      CanShareRest(z1, p, c, prev, r.Pages());
      SharePagesConcat(z1, p, c, prev, r.Pages());
      A.MarkedStill(z1, p, c, prev, r);
      A.PagesDistinct(r);
      ok := CloneRegion(p, c, r, SharePages(z1, p, c, prev));
    }

    /** clone_regions on the regions sp of the parent, then the brk and mmap regions. */
    method CloneAll(p: nat, c: nat, sp: A.Space, ghost z1: State) returns (ok: bool)
      requires Distinct(A.AllPages(sp)) && CanShare(z1, p, c, A.AllPages(sp)) && A.AllMarked(z1.ro, p, sp)
      requires m.Core() && Inv(z1) && Over(z1, m.k.St(), m.pt.tables.Keys) && c in m.root && p != c
      modifies m.k`mem, m.k`pte, m.k`ro, m.pt, m.k.al, m.k.al.pages, m.k.al.heads
      ensures !ok ==> BuddyModel.NoRoom(m.k.al.Live(), MAX_ORD)
      ensures ok ==> m.Core() && Over(SharePages(z1, p, c, A.AllPages(sp)), m.k.St(), m.pt.tables.Keys)
    {
      hide Inv, M.Machine.Core, Over, SharePages, CanShare, Distinct, A.Marked, BuddyModel.NoRoom, B.Allocator.Live, A.RestPages;
      A.NoPages(z1, p, c);
      assert A.ProgramPages(sp.program[..0]) == [];
      ghost var all := A.AllPages(sp);
      assert all == A.ProgramPages(sp.program) + sp.brk.Pages() + sp.mmap.Pages() && all + [] == all;
      hide A.ProgramPages, A.AllPages;
      for i := 0 to |sp.program|
        invariant m.Core() && Over(SharePages(z1, p, c, A.ProgramPages(sp.program[..i])), m.k.St(), m.pt.tables.Keys)
      {
        ghost var rest := A.RestPages(sp, i);
        ok := CloneAfter(p, c, sp.program[i], z1, A.ProgramPages(sp.program[..i]), rest);
        if !ok {
          return;
        }
      }
      assert sp.program[..|sp.program|] == sp.program;
      ok := CloneAfter(p, c, sp.brk, z1, A.ProgramPages(sp.program), sp.mmap.Pages());
      if !ok {
        return;
      }
      ok := CloneAfter(p, c, sp.mmap, z1, A.ProgramPages(sp.program) + sp.brk.Pages(), []);
    }

    /** fork: root table and stack for the child, every page of the parent cloned, the
        stack copied. */
    method Fork(p: nat, c: nat, junk: Bytes) returns (ok: bool, ghost f: nat)
      requires Valid() && p in m.root && c !in m.root && |junk| == 2 * PAGE
      modifies `z, `past, m, m.k, m.pt, m.k.al, m.k.al.pages, m.k.al.heads
      ensures !ok ==> BuddyModel.NoRoom(m.k.al.Live(), 7)
      ensures ok ==> Valid() && m.k.spaces == old(m.k.spaces)[c := old(m.k.spaces[p])]
      ensures ok ==> past == old(past) + [Op.Fork(p, c, A.AllPages(old(m.k.spaces[p])), f)]
    {
      hide Inv, A.Layout, M.Machine.Tables, M.Apart, P.TablesAdded, BuddyModel.NoRoom, B.Allocator.Valid, B.Allocator.Live, History;
      hide Fresh, SharePages, A.AllPages, Apply, Enabled;
      ghost var s, ts, z0 := m.k.St(), m.pt.tables.Keys, z;
      var vs := A.AllPages(m.k.spaces[p]);
      NoKeys(m.k.spaces, s.pte, s.ro, c);
      ok, f := m.Spawn(c, junk, s);
      BuddyModel.RoomFiner(m.k.al.Live(), 7, MAX_ORD);
      if !ok {
        return;
      }
      ghost var z1 := Fresh(z0, (c, STACK_BASE), f, junk, Plain);
      InvNow(start, past, z0);
      ForkReady(z0, s, ts, m.k.spaces, p, c, f, junk, m.k.al.Live(), m.pt.tables.Keys);
      ForkEnds(start, past, z0, m.k.spaces, p, c, f);
      ForkLacksStack(z0, p, c, f, junk, vs);
      ok := CloneAll(p, c, m.k.spaces[p], z1);
      BuddyModel.RoomFiner(m.k.al.Live(), 7, MAX_ORD);
      if !ok {
        return;
      }
      CopyStack(p, c, f, SharePages(z1, p, c, vs), Apply(z0, Op.Fork(p, c, vs, f)));
      m.k.spaces := m.k.spaces[c := m.k.spaces[p]];
      z, past := Apply(z0, Op.Fork(p, c, vs, f)), past + [Op.Fork(p, c, vs, f)];
    }

    /** The stack's contents, copied from the parent's frame to the child's. */
    method CopyStack(p: nat, c: nat, ghost f: nat, ghost z1: State, ghost z': State)
      requires m.Core() && Over(z1, m.k.St(), m.pt.tables.Keys) && Inv(z') && f in z1.mem
      requires (p, STACK_BASE) in z1.pte && (c, STACK_BASE) in z1.pte && z1.pte[(c, STACK_BASE)].frame == f
      requires z1.pte[(p, STACK_BASE)].frame in z1.mem
      requires z' == z1.(mem := z1.mem[f := z1.mem[z1.pte[(p, STACK_BASE)].frame]])
      modifies m.k`mem
      ensures m.Core() && Over(z', m.k.St(), m.pt.tables.Keys)
    {
      hide Inv, M.Machine.Tables, P.TablesAdded, B.Allocator.Valid, B.Allocator.Live;
      var d := m.k.pte[(c, STACK_BASE)].frame;
      m.k.mem := m.k.mem[d := m.k.mem[m.k.pte[(p, STACK_BASE)].frame]];
      OverInv(z', m.k.St(), m.pt.tables.Keys);
    }

    /** A store by the user: through a writable entry, or after the fault handler. */
    method Store(t: nat, v: nat, off: nat, b: bv8) returns (r: A.Outcome, ghost copy: nat)
      requires Valid() && t in m.root && off < SizeOf(v)
      modifies `z, `past, m, m.k, m.pt, m.k.al, m.k.al.pages, m.k.al.heads
      ensures r.Fatal? <==> (t, v) !in old(m.k.pte) || (t, v) in old(m.k.ro)
      ensures r.OutOfMemory? ==> BuddyModel.NoRoom(old(m.k.al.Live()), 8)
      ensures r.Fatal? ==> Valid() && past == old(past)
      ensures r.Resolved? ==> Valid() && past == old(past) + [Op.Store((t, v), off, b, copy)] && m.k.spaces == old(m.k.spaces)
    {
      hide Inv, A.Layout, M.Machine.Tables, M.Apart, BuddyModel.NoRoom, B.Allocator.Valid, B.Allocator.Live, History, A.FindRegion;
      hide Unshare, Apply, Enabled, KeyOk, FrameOk, P.TablesAdded;
      ghost var s, ts, z0 := m.k.St(), m.pt.tables.Keys, z;
      InvNow(start, past, z0);
      copy := 0;
      A.PageAt(m.k.spaces, m.k.pte, m.k.ro, t, v);
      StoreWhere(z0, s, ts, (t, v));
      var reg := A.FindRegion(m.k.spaces[t], v);
      if (t, v) in m.k.pte && m.k.pte[(t, v)].writable {
        r := A.Resolved;
      } else if (t, v) !in m.k.pte || reg.None? || reg.value.perm != A.ReadWrite {
        return A.Fatal, copy;
      } else {
        r, copy := m.Fault(t, v, s, s.pte[(t, v)].frame);
        if !r.Resolved? {
          return;
        }
      }
      ghost var op := Op.Store((t, v), off, b, copy);
      StoreEnds(start, past, z0, s, ts, m.k.spaces, op);
      WriteByte(t, v, off, b, if s.pte[(t, v)].writable then z0 else Unshare(z0, (t, v), copy), Apply(z0, op));
      z, past := Apply(z0, op), past + [op];
    }

    /** One byte through a mapping. */
    method WriteByte(t: nat, v: nat, off: nat, b: bv8, ghost z1: State, ghost z': State)
      requires m.Core() && Over(z1, m.k.St(), m.pt.tables.Keys) && Inv(z')
      requires (t, v) in z1.pte && z1.pte[(t, v)].frame in z1.mem && off < |z1.mem[z1.pte[(t, v)].frame]|
      requires z' == Fill(z1, (t, v), z1.mem[z1.pte[(t, v)].frame][off := b])
      modifies m.k`mem
      ensures m.Core() && Over(z', m.k.St(), m.pt.tables.Keys)
    {
      hide Inv, M.Machine.Tables, P.TablesAdded, B.Allocator.Valid, B.Allocator.Live;
      var f := m.k.pte[(t, v)].frame;
      m.k.mem := m.k.mem[f := m.k.mem[f][off := b]];
      OverInv(z', m.k.St(), m.pt.tables.Keys);
    }

    /** brk and a writable mmap: a fresh frame for each page, mapped with the tables it
        needs, then all of them zeroed through the task's own mapping. */
    method Grow(t: nat, mmap: bool, n: nat, junk: seq<Bytes>) returns (res: P.MapResult)
      requires Valid() && t in m.root && A.GrowthOf(m.k.spaces[t], mmap, n).base + n <= M.PAGES
      requires |junk| == n && forall i :: 0 <= i < n ==> |junk[i]| == PAGE
      modifies `z, `past, m, m.k, m.pt, m.k.al, m.k.al.pages, m.k.al.heads
      ensures res.NoMemory? ==> BuddyModel.NoRoom(m.k.al.Live(), MAX_ORD)
      ensures res.Exists? ==> exists v :: v in A.GrowthOf(old(m.k.spaces[t]), mmap, n).Pages() && (v == STACK_BASE + 1 || (t, v) in old(m.k.pte))
      ensures res.Ok? ==> var sp := old(m.k.spaces[t]);
        && Valid() && m.k.spaces == old(m.k.spaces)[t := if mmap then A.Longer(sp, n, 0) else A.Longer(sp, 0, n)]
        && old(past) <= past && ViewOf(z) == old(ViewOf(z)) + Contents(t, A.GrowthOf(sp, mmap, n).Pages(), A.Zeros(n))
    {
      hide Inv, A.Layout, M.Machine.Tables, M.Apart, BuddyModel.NoRoom, B.Allocator.Live, History, ViewOf, Contents, Over, Growing, A.Longer, A.Zeros;
      ghost var z0, z1, zj, ops := z, z, z, past;
      var sp := m.k.spaces[t];
      var r := A.GrowthOf(sp, mmap, n);
      SegmentStarts(start, past, z0, m.k.St(), m.pt.tables.Keys, m.k.spaces, t, Plain);
      res, z1, zj, ops := MapJunk(t, r, junk);
      if !res.Ok? {
        return;
      }
      GrowEnds(z0, z1, zj, m.k.spaces, t, mmap, n);
      ZeroPages(t, r, z0, z1, zj);
      SamePte(z1, m.k.St(), m.pt.tables.Keys);
      m.k.spaces := m.k.spaces[t := if mmap then A.Longer(sp, n, 0) else A.Longer(sp, 0, n)];
      z, past := z1, ops;
    }

    /** The pages as first mapped. */
    method MapJunk(t: nat, r: A.Region, junk: seq<Bytes>) returns (res: P.MapResult, ghost z1: State, ghost zj: State, ghost ops: seq<Op>)
      requires m.Core() && Over(z, m.k.St(), m.pt.tables.Keys) && History(start, past, z) && t in m.root && r.base + r.len <= M.PAGES
      requires (t, STACK_BASE) in z.pte && forall k :: k in z.ro ==> k in z.pte
      requires |junk| == r.len && forall i :: 0 <= i < r.len ==> |junk[i]| == PAGE
      modifies m.k`mem, m.k`pte, m.k`ro, m.pt, m.k.al, m.k.al.pages, m.k.al.heads
      ensures res.NoMemory? ==> BuddyModel.NoRoom(m.k.al.Live(), MAX_ORD)
      ensures res.Exists? ==> exists v :: v in r.Pages() && (v == STACK_BASE + 1 || (t, v) in z.pte)
      ensures res.Ok? ==> m.Core() && Over(zj, m.k.St(), m.pt.tables.Keys) && History(start, ops, z1) && past <= ops
      ensures res.Ok? ==> Growing(z, z1, zj, t, r, r.len)
    {
      hide Inv, M.Machine.Tables, M.Apart, BuddyModel.NoRoom, B.Allocator.Valid, B.Allocator.Live, History;
      hide Fresh, P.TablesAdded, Over, Growing, A.Zeros;
      z1, zj, ops := z, z, past;
      InvNow(start, past, z);
      GrowStarts(z, t, r);
      for i := 0 to r.len
        invariant m.Core() && Over(zj, m.k.St(), m.pt.tables.Keys) && History(start, ops, z1) && past <= ops
        invariant Growing(z, z1, zj, t, r, i)
      {
        var v := r.base + i;
        ghost var s, ts, f := m.k.St(), m.pt.tables.Keys, 0;
        A.PagesPrefix(r, i);
        GrowNext(z, z1, zj, s, ts, t, r, i);
        if v == STACK_BASE + 1 || (t, v) in m.k.pte {
          res := P.Exists;
          return;
        }
        res, f := m.MapPage(t, v, junk[i], Plain, s);
        if !res.Ok? {
          return;
        }
        GrowDone(start, ops, z, z1, zj, s, ts, t, r, i, f, junk[i], m.k.al.Live(), m.pt.tables.Keys);
        ghost var op := MapIn((t, v), f, A.Zeros(r.len)[i], Plain);
        z1, zj, ops := Fresh(z1, (t, v), f, A.Zeros(r.len)[i], Plain), Fresh(zj, (t, v), f, junk[i], Plain), ops + [op];
      }
      res := P.Ok;
    }

    /** The fill. */
    method ZeroPages(t: nat, r: A.Region, ghost z0: State, ghost z1: State, ghost zj: State)
      requires m.Core() && Over(zj, m.k.St(), m.pt.tables.Keys) && Growing(z0, z1, zj, t, r, r.len) && STACK_BASE !in r.Pages()
      modifies m.k`mem
      ensures m.Core() && Over(z1, m.k.St(), m.pt.tables.Keys)
    {
      hide Inv, M.Machine.Tables, P.TablesAdded, B.Allocator.Valid, B.Allocator.Live, Added, Over, A.Behind, A.JustMapped, A.Zeros;
      ghost var zi := zj;
      assert r.Pages()[..r.len] == r.Pages()[0..] == r.Pages() && A.Zeros(r.len)[..r.len] == A.Zeros(r.len);
      for i := 0 to r.len
        invariant m.Core() && Inv(zi) && A.Behind(z1, zi, t, r.Pages()[i..], Plain) && Over(zi, m.k.St(), m.pt.tables.Keys)
      {
        GrowZero(z0, z1, zi, m.k.St(), m.pt.tables.Keys, t, r, i);
        var f := m.k.pte[(t, r.base + i)].frame;
        zi := Fill(zi, (t, r.base + i), A.Zeros(1)[0]);
        m.k.mem := m.k.mem[f := A.Zeros(1)[0]];
        OverInv(zi, m.k.St(), m.pt.tables.Keys);
      }
      assert r.Pages()[r.len..] == [];
      A.BehindNone(z1, zi, t, Plain);
    }

    /** A PT_LOAD segment of execv_inner: a fresh frame for each page, mapped with the
        tables it needs. A page that is mapped already is fatal, like a lack of memory. */
    method LoadSegment(t: nat, r: A.Region, image: seq<Bytes>) returns (res: P.MapResult)
      requires Valid() && t in m.root && r.base + r.len <= M.PAGES
      requires |image| == r.len && forall i :: 0 <= i < r.len ==> |image[i]| == PAGE
      modifies `z, `past, m, m.k, m.pt, m.k.al, m.k.al.pages, m.k.al.heads
      ensures res.NoMemory? ==> BuddyModel.NoRoom(m.k.al.Live(), MAX_ORD)
      ensures res.Exists? ==> exists v :: v in r.Pages() && (v == STACK_BASE + 1 || (t, v) in old(m.k.pte))
      ensures res.Ok? ==> Valid() && m.k.spaces == old(m.k.spaces)[t := old(m.k.spaces[t]).(program := old(m.k.spaces[t].program) + [r])]
      ensures res.Ok? ==> old(past) <= past && ViewOf(z) == old(ViewOf(z)) + Contents(t, r.Pages(), image)
    {
      hide Inv, A.Layout, M.Machine.Tables, M.Apart, BuddyModel.NoRoom, B.Allocator.Valid, B.Allocator.Live, History, A.AllPages, A.FindRegion;
      hide Fresh, Foreign, ViewOf, Contents, P.TablesAdded, Over, Added;
      ghost var z0, z1, ops := z, z, past;
      var prot := A.ProtOf(r.perm);
      var sp := m.k.spaces[t];
      SegmentStarts(start, past, z0, m.k.St(), m.pt.tables.Keys, m.k.spaces, t, prot);
      assert r.Pages()[..0] == [] && image[..0] == [];
      for i := 0 to r.len
        invariant m.root == old(m.root) && m.k.spaces == old(m.k.spaces) && z == z0 && past == old(past)
        invariant m.Core() && Over(z1, m.k.St(), m.pt.tables.Keys) && History(start, ops, z1) && past <= ops
        invariant Added(z0, z1, t, r.Pages()[..i], image[..i], prot)
        invariant forall v :: v in r.Pages()[..i] ==> (t, v) !in z0.pte
      {
        var v := r.base + i;
        ghost var s, ts, f := m.k.St(), m.pt.tables.Keys, 0;
        A.PagesPrefix(r, i);
        SegmentNext(z0, z1, s, ts, t, r, image[..i], prot, i);
        assert image[..i + 1] == image[..i] + [image[i]];
        if v == STACK_BASE + 1 || (t, v) in m.k.pte {
          return P.Exists;
        }
        res, f := m.MapPage(t, v, image[i], prot, s);
        if !res.Ok? {
          return;
        }
        PageDone(start, ops, z0, z1, s, ts, t, r.Pages()[..i], image[..i], prot, v, f, image[i], m.k.al.Live(), m.pt.tables.Keys);
        z1, ops := Fresh(z1, (t, v), f, image[i], prot), ops + [MapIn((t, v), f, image[i], prot)];
      }
      assert r.Pages()[..r.len] == r.Pages() && image[..r.len] == image;
      SegmentEnds(z0, z1, m.k.St(), m.pt.tables.Keys, m.k.spaces, t, r, image, prot);
      m.k.spaces := m.k.spaces[t := sp.(program := sp.program + [r])];
      z, past := z1, ops;
      return P.Ok;
    }
  }

  /** The new pages of brk and mmap: z1 is the memory they are meant to reach, in which
      they are zeroed, and zj the memory as it is, in which they hold junk. */
  ghost predicate Growing(z0: State, z1: State, zj: State, t: nat, r: A.Region, i: nat)
    requires i <= r.len
  {
    && Inv(zj) && Added(z0, z1, t, r.Pages()[..i], A.Zeros(r.len)[..i], Plain)
    && A.Behind(z1, zj, t, r.Pages()[..i], Plain) && A.JustMapped(z1, t, r.Pages()[..i])
    && forall v :: v in r.Pages()[..i] ==> (t, v) !in z0.pte
  }

  lemma GrowStarts(z: State, t: nat, r: A.Region)
    requires Inv(z)
    ensures Growing(z, z, z, t, r, 0)
  {
    hide Inv, Added, A.Behind, A.JustMapped;
    A.JunkNone(z, t, Plain);
    assert r.Pages()[..0] == [] && A.Zeros(r.len)[..0] == [];
  }

  /** Page i: mapped already only if it was before. */
  lemma GrowNext(z0: State, z1: State, zj: State, s: State, ts: set<nat>, t: nat, r: A.Region, i: nat)
    requires i < r.len && Growing(z0, z1, zj, t, r, i) && Over(zj, s, ts)
    requires (t, STACK_BASE) in z0.pte && forall k :: k in z0.ro ==> k in z0.pte
    ensures var k := (t, r.base + i);
      && (t, STACK_BASE) in s.pte && s.pte == zj.pte && zj.live == z1.live && (k in s.pte <==> k in z0.pte) && (k in s.pte <==> k in z1.pte)
      && (k !in s.pte ==> k !in s.ro && k !in zj.ro && k !in z1.ro)
  {
    hide Inv, Added, A.JustMapped;
    A.JunkHere(z0, z1, zj, t, r, i, Plain, A.Zeros(r.len)[..i]);
    A.AddedHere(z0, z1, t, r, i, A.Zeros(r.len)[..i], Plain);
  }

  lemma GrowDone(start: State, past: seq<Op>, z0: State, z1: State, zj: State, s: State, ts: set<nat>, t: nat, r: A.Region, i: nat,
                 f: nat, junk: Bytes, l: Live, ts': set<nat>)
    requires i < r.len && Growing(z0, z1, zj, t, r, i) && Over(zj, s, ts) && History(start, past, z1) && zj.live == z1.live
    requires var k := (t, r.base + i);
      && k !in s.pte && k !in z0.pte && k !in z1.pte && k !in zj.pte && k !in zj.ro && k !in z1.ro && f !in s.live && k.1 != STACK_BASE && |junk| == PAGE
      && P.TablesAdded(Fresh(s, k, f, junk, Plain).live, ts, l, ts')
    ensures var k, zero := (t, r.base + i), A.Zeros(r.len)[i];
      && Growing(z0, Fresh(z1, k, f, zero, Plain), Fresh(zj, k, f, junk, Plain), t, r, i + 1)
      && Over(Fresh(zj, k, f, junk, Plain), Fresh(s, k, f, junk, Plain).(live := l), ts')
      && History(start, past + [MapIn(k, f, zero, Plain)], Fresh(z1, k, f, zero, Plain))
  {
    hide Inv, Added, A.Behind, A.JustMapped, P.TablesAdded, Over, A.Zeros;
    var k, zero := (t, r.base + i), A.Zeros(r.len)[i];
    OverFresh(zj, s, ts, k, f, junk, Plain);
    OverMore(Fresh(zj, k, f, junk, Plain), Fresh(s, k, f, junk, Plain), ts, l, ts');
    A.PagesPrefix(r, i);
    assert A.Zeros(r.len)[..i + 1] == A.Zeros(r.len)[..i] + [zero];
    FreshKeeps(zj, k, f, junk, Plain);
    InvNow(start, past, z1);
    A.BehindStep(z1, zj, t, r.Pages()[..i], Plain, k.1, f, junk, zero);
    AddedStep(z0, z1, t, r.Pages()[..i], A.Zeros(r.len)[..i], Plain, k.1, f, zero);
    A.FreshStep(z1, k, f, zero);
    Extend(start, past, z1, MapIn(k, f, zero, Plain), Fresh(z1, k, f, zero, Plain));
  }

  /** Page i is zeroed through its mapping. */
  lemma GrowZero(z0: State, z1: State, zj: State, s: State, ts: set<nat>, t: nat, r: A.Region, i: nat)
    requires i < r.len && Added(z0, z1, t, r.Pages(), A.Zeros(r.len), Plain) && A.JustMapped(z1, t, r.Pages()) && STACK_BASE !in r.Pages()
    requires Inv(zj) && A.Behind(z1, zj, t, r.Pages()[i..], Plain) && Over(zj, s, ts)
    ensures var k := (t, r.base + i);
      && k in s.pte && s.pte == zj.pte && s.pte[k].writable && s.pte[k].frame in s.mem
      && var z' := Fill(zj, k, A.Zeros(1)[0]); Inv(z') && A.Behind(z1, z', t, r.Pages()[i + 1..], Plain) && Over(z', Fill(s, k, A.Zeros(1)[0]), ts)
  {
    hide Inv, Added, A.Behind, A.JustMapped, P.TablesAdded, A.Zeros;
    var k := (t, r.base + i);
    A.JunkAt(z0, z1, zj, t, r, i, Plain);
    A.ZeroStep(z1, zj, t, r, i);
    InView(zj, k);
    assert r.Pages()[i] == k.1;
    FillKeeps(zj, k, A.Zeros(1)[0]);
  }

  /** What the new pages bring to the layout and the view. */
  lemma GrowEnds(z0: State, z1: State, zj: State, spaces: map<nat, A.Space>, t: nat, mmap: bool, n: nat)
    requires A.Layout(spaces, z0.pte, z0.ro) && t in spaces && (t, STACK_BASE) in z0.pte
    requires Growing(z0, z1, zj, t, A.GrowthOf(spaces[t], mmap, n), n)
    ensures var sp, r := spaces[t], A.GrowthOf(spaces[t], mmap, n);
      && STACK_BASE !in r.Pages() && ViewOf(z1) == ViewOf(z0) + Contents(t, r.Pages(), A.Zeros(n))
      && A.Layout(spaces[t := if mmap then A.Longer(sp, n, 0) else A.Longer(sp, 0, n)], z1.pte, z1.ro)
  {
    hide Inv, A.Layout, ViewOf, Foreign, Contents, A.Grown, A.Behind, A.JustMapped, A.Zeros;
    var r := A.GrowthOf(spaces[t], mmap, n);
    assert r.Pages()[..n] == r.Pages() && A.Zeros(n)[..n] == A.Zeros(n);
    A.LongerGrown(spaces, z0.pte, z0.ro, t, mmap, n);
    var sp' := if mmap then A.Longer(spaces[t], n, 0) else A.Longer(spaces[t], 0, n);
    A.GrownLayout(spaces, z0, z1, t, sp', r.Pages(), Plain);
  }

  lemma SegmentStarts(start: State, past: seq<Op>, z: State, s: State, ts: set<nat>, spaces: map<nat, A.Space>, t: nat, prot: Prot)
    requires History(start, past, z) && Over(z, s, ts) && A.Layout(spaces, s.pte, s.ro) && t in spaces
    ensures s.pte == z.pte && Added(z, z, t, [], [], prot) && (t, STACK_BASE) in z.pte && A.Layout(spaces, z.pte, z.ro) && forall k :: k in z.ro ==> k in z.pte
  {
    hide Inv, A.Layout;
    AddedNone(z, t, prot);
    A.PageAt(spaces, z.pte, z.ro, t, STACK_BASE);
    A.RoMapped(spaces, z.pte, z.ro);
  }

  /** Page i of a segment: mapped already only if it was before. */
  lemma SegmentNext(z0: State, z1: State, s: State, ts: set<nat>, t: nat, r: A.Region, datas: seq<Bytes>, prot: Prot, i: nat)
    requires i < r.len && |datas| == i && Added(z0, z1, t, r.Pages()[..i], datas, prot) && Over(z1, s, ts)
    requires (t, STACK_BASE) in z0.pte && forall k :: k in z0.ro ==> k in z0.pte
    ensures (t, STACK_BASE) in s.pte && s.pte == z1.pte && ((t, r.base + i) in s.pte <==> (t, r.base + i) in z0.pte)
    ensures (t, r.base + i) !in s.pte ==> (t, r.base + i) !in s.ro
  {
    hide Inv, ViewOf, Foreign, Contents;
    A.PagesPrefix(r, i);
    assert forall k :: k in KeysOf(t, r.Pages()[..i]) ==> k.1 in r.Pages()[..i];
  }

  lemma PageDone(start: State, past: seq<Op>, z0: State, z: State, s: State, ts: set<nat>, t: nat, vs: seq<nat>, datas: seq<Bytes>, prot: Prot,
                 v: nat, f: nat, data: Bytes, l: Live, ts': set<nat>)
    requires History(start, past, z) && Over(z, s, ts) && |vs| == |datas| && Added(z0, z, t, vs, datas, prot)
    requires (t, v) !in s.pte && (t, v) !in s.ro && f !in s.live && |data| == SizeOf(v)
    requires P.TablesAdded(Fresh(s, (t, v), f, data, prot).live, ts, l, ts')
    ensures var z' := Fresh(z, (t, v), f, data, prot);
      && Over(z', Fresh(s, (t, v), f, data, prot).(live := l), ts') && Added(z0, z', t, vs + [v], datas + [data], prot)
      && History(start, past + [MapIn((t, v), f, data, prot)], z')
  {
    var k := (t, v);
    var z', s' := Fresh(z, k, f, data, prot), Fresh(s, k, f, data, prot);
    hide Inv, Added, P.TablesAdded;
    OverFresh(z, s, ts, k, f, data, prot);
    OverMore(z', s', ts, l, ts');
    AddedStep(z0, z, t, vs, datas, prot, v, f, data);
    Extend(start, past, z, MapIn(k, f, data, prot), z');
  }

  lemma SegmentEnds(z0: State, z1: State, s: State, ts: set<nat>, spaces: map<nat, A.Space>, t: nat, r: A.Region, image: seq<Bytes>, prot: Prot)
    requires |image| == r.len && Added(z0, z1, t, r.Pages(), image, prot) && Over(z1, s, ts) && prot == A.ProtOf(r.perm)
    requires A.Layout(spaces, z0.pte, z0.ro) && t in spaces && forall v :: v in r.Pages() ==> (t, v) !in z0.pte
    ensures A.Layout(spaces[t := spaces[t].(program := spaces[t].program + [r])], s.pte, s.ro)
    ensures ViewOf(z1) == ViewOf(z0) + Contents(t, r.Pages(), image)
  {
    hide Inv, A.Layout, ViewOf, Foreign, Contents, A.Grown;
    A.SegmentGrown(spaces, z0.pte, z0.ro, t, r);
    A.GrownLayout(spaces, z0, z1, t, spaces[t].(program := spaces[t].program + [r]), r.Pages(), prot);
  }

  lemma StoreWhere(z: State, s: State, ts: set<nat>, k: Key)
    requires Inv(z) && Over(z, s, ts)
    ensures k in s.pte ==> var f := s.pte[k].frame; f in s.live && f in s.mem && s.live[f].refCnt > 0
    ensures k in s.pte && s.pte[k].writable ==> k !in s.ro
  {
    hide Inv;
    if k in z.pte {
      InView(z, k);
      OverAt(z.live, s.live, ts, z.pte[k].frame);
    }
  }

  /** A store can be done with and without the tables. */
  lemma StoreEnds(start: State, past: seq<Op>, z: State, s: State, ts: set<nat>, spaces: map<nat, A.Space>, op: Op)
    requires History(start, past, z) && Over(z, s, ts) && A.Layout(spaces, s.pte, s.ro) && op.Store? && op.k in z.pte && op.k !in z.ro
    requires op.off < SizeOf(op.k.1) && (op.k.1 == STACK_BASE ==> z.pte[op.k].writable)
    requires z.pte[op.k].frame in s.live
    requires !z.pte[op.k].writable && s.live[z.pte[op.k].frame].refCnt > 1 ==> op.copy !in s.live
    ensures z.pte[op.k].frame in z.live && z.pte[op.k].frame in z.mem && z.live[z.pte[op.k].frame].refCnt > 0
    ensures Enabled(z, op) && History(start, past + [op], Apply(z, op)) && Inv(Apply(z, op))
    ensures var z1 := if z.pte[op.k].writable then z else Unshare(z, op.k, op.copy);
      && (!z.pte[op.k].writable ==> s.pte[op.k].frame in s.mem && s.live[s.pte[op.k].frame].refCnt > 0 && Over(z1, Unshare(s, op.k, op.copy), ts))
      && op.k in z1.pte && z1.pte[op.k].frame in z1.mem && op.off < |z1.mem[z1.pte[op.k].frame]|
      && Apply(z, op) == Fill(z1, op.k, z1.mem[z1.pte[op.k].frame][op.off := op.b])
      && A.Layout(spaces, Apply(z, op).pte, Apply(z, op).ro)
  {
    hide Inv, A.Layout, Over, P.TablesAdded;
    SamePte(z, s, ts);
    StoreEnabled(z, s, ts, op);
    assert History(start, past + [op], Apply(z, op)) by { Extend(start, past, z, op, Apply(z, op)); }
    InvNow(start, past + [op], Apply(z, op));
    Unshared(z, op.k, op.copy);
    if !z.pte[op.k].writable {
      OverUnshare(z, s, ts, op.k, op.copy);
    }
    hide History, CowLive;
    var e := Apply(z, op).pte[op.k];
    A.RemapLayout(spaces, z.pte, z.ro, op.k, e);
    assert Apply(z, op).pte == z.pte[op.k := e];
  }

  lemma StoreEnabled(z: State, s: State, ts: set<nat>, op: Op)
    requires Inv(z) && Over(z, s, ts) && op.Store? && op.k in z.pte && op.k !in z.ro && z.pte[op.k].frame in s.live
    requires op.off < SizeOf(op.k.1) && (op.k.1 == STACK_BASE ==> z.pte[op.k].writable)
    requires !z.pte[op.k].writable && s.live[z.pte[op.k].frame].refCnt > 1 ==> op.copy !in s.live
    ensures Enabled(z, op) && z.live[z.pte[op.k].frame] == s.live[z.pte[op.k].frame] && |z.mem[z.pte[op.k].frame]| == SizeOf(op.k.1)
  {
    hide Inv, P.TablesAdded;
    InView(z, op.k);
    OverAt(z.live, s.live, ts, z.pte[op.k].frame);
    OverAt(z.live, s.live, ts, op.copy);
  }

  /** Unsharing keeps what is read. */
  lemma Unshared(z: State, k: Key, copy: nat)
    requires k in z.pte && z.pte[k].frame in z.live && z.pte[k].frame in z.mem && z.live[z.pte[k].frame].refCnt > 0
    ensures var z1 := Unshare(z, k, copy);
      && k in z1.pte && z1.pte[k].frame in z1.mem && z1.mem[z1.pte[k].frame] == z.mem[z.pte[k].frame]
      && z1.pte == z.pte[k := z1.pte[k]] && z1.pte[k].writable && z1.ro == z.ro
  {}

  lemma CloneNext(z1: State, s: State, ts: set<nat>, p: nat, c: nat, vs: seq<nat>, i: nat)
    requires Inv(z1) && p != c && Distinct(vs) && CanShare(z1, p, c, vs) && i < |vs|
    requires Over(SharePages(z1, p, c, vs[..i]), s, ts)
    ensures var v, zi := vs[i], SharePages(z1, p, c, vs[..i]);
      && v != STACK_BASE && (p, v) in s.pte && (c, v) !in s.pte && (c, v) !in s.ro && s.pte[(p, v)].frame in s.live
      && (p, v) in zi.pte && zi.pte[(p, v)].frame in zi.live
      && (Code(s.ro, (p, v)) <==> Code(z1.ro, (p, v)))
      && SharePages(z1, p, c, vs[..i + 1]) == Share(zi, p, c, v) && Over(Share(zi, p, c, v), Share(s, p, c, v), ts)
  {
    hide Inv, SharePages, Shared, P.TablesAdded, Distinct, CanShare, RoCopy, KeysOf;
    var init, v, zi := vs[..i], vs[i], SharePages(z1, p, c, vs[..i]);
    assert vs[..i + 1] == init + [v] && vs == init + vs[i..];
    A.CanSharePrefix(z1, p, c, init, vs[i..]);
    ShareAt(z1, p, c, vs, i);
    SharePagesKeeps(z1, p, c, init);
    SharedInv(z1, zi, p, c, init);
    SharedStep(z1, zi, p, c, init, v);
    RoCopyAt(z1.ro, p, c, init, (p, v));
    OverShare(zi, s, ts, p, c, v);
    ShareLast(z1, p, c, init, v);
  }

  lemma ShareAt(s: State, p: nat, c: nat, vs: seq<nat>, i: nat)
    requires Distinct(vs) && CanShare(s, p, c, vs) && i < |vs| && p != c
    ensures var v := vs[i]; v !in vs[..i] && v != STACK_BASE && (p, v) in s.pte && (c, v) !in s.pte && (c, v) !in s.ro
    ensures (p, vs[i]) !in KeysOf(c, vs[..i]) && (c, vs[i]) !in KeysOf(c, vs[..i]) && (c, vs[i]) !in RoCopy(s.ro, p, c, vs[..i])
  {
    assert vs[i] in vs && vs == vs[..i] + vs[i..] && vs[i..][0] == vs[i];
    SplitDistinct(vs[..i], vs[i..]);
  }

  lemma ShareLast(z1: State, p: nat, c: nat, vs: seq<nat>, v: nat)
    requires var z0 := SharePages(z1, p, c, vs); (p, v) in z0.pte && z0.pte[(p, v)].frame in z0.live
    ensures SharePages(z1, p, c, vs + [v]) == Share(SharePages(z1, p, c, vs), p, c, v)
  {
    assert (vs + [v])[..|vs|] == vs;
  }

  /** The child's stack is there, and the parent's pages can be shared. */
  lemma ForkReady(z: State, s: State, ts: set<nat>, spaces: map<nat, A.Space>, p: nat, c: nat, f: nat, junk: Bytes, l: Live, ts': set<nat>)
    requires Inv(z) && Over(z, s, ts) && A.Layout(spaces, s.pte, s.ro) && p in spaces && c !in spaces
    requires |junk| == 2 * PAGE && f !in s.live && P.TablesAdded(Fresh(s, (c, STACK_BASE), f, junk, Plain).live, ts, l, ts')
    ensures var vs, z1 := A.AllPages(spaces[p]), Fresh(z, (c, STACK_BASE), f, junk, Plain);
      && f !in z.live && Inv(z1) && Over(z1, Fresh(s, (c, STACK_BASE), f, junk, Plain).(live := l), ts')
      && Distinct(vs) && CanShare(z1, p, c, vs) && A.AllMarked(z1.ro, p, spaces[p])
  {
    var k := (c, STACK_BASE);
    var z1 := Fresh(z, k, f, junk, Plain);
    hide Inv, A.Layout, P.TablesAdded, SharePages, A.AllPages, CanShare, Distinct;
    OverFresh(z, s, ts, k, f, junk, Plain);
    OverMore(z1, Fresh(s, k, f, junk, Plain), ts, l, ts');
    A.PagesMapped(spaces, z.pte, z.ro, p);
    A.LayoutMarks(spaces, z.pte, z.ro, p);
    A.ForkLayout(spaces, z, p, c, f, junk);
  }

  /** Where fork ends. */
  lemma ForkEnds(start: State, past: seq<Op>, z: State, spaces: map<nat, A.Space>, p: nat, c: nat, f: nat)
    requires History(start, past, z) && A.Layout(spaces, z.pte, z.ro) && p in spaces && c !in spaces && f !in z.live
    ensures var op := Op.Fork(p, c, A.AllPages(spaces[p]), f);
      && Enabled(z, op) && History(start, past + [op], Apply(z, op)) && Inv(Apply(z, op))
      && A.Layout(spaces[c := spaces[p]], Apply(z, op).pte, Apply(z, op).ro)
  {
    var op := Op.Fork(p, c, A.AllPages(spaces[p]), f);
    hide Inv, A.Layout, SharePages, A.AllPages;
    A.PageAt(spaces, z.pte, z.ro, p, STACK_BASE);
    InView(z, (p, STACK_BASE));
    A.ForkLayout(spaces, z, p, c, f, z.mem[z.pte[(p, STACK_BASE)].frame]);
    A.ForkEnabled(spaces, z, p, c, f);
    hide Enabled;
    Extend(start, past, z, op, Apply(z, op));
  }

  /** All that is missing after cloning is the child's stack. */
  lemma ForkLacksStack(z: State, p: nat, c: nat, f: nat, junk: Bytes, vs: seq<nat>)
    requires Inv(z) && Enabled(z, Op.Fork(p, c, vs, f))
    ensures var z2 := SharePages(Fresh(z, (c, STACK_BASE), f, junk, Plain), p, c, vs);
      && (p, STACK_BASE) in z2.pte && (c, STACK_BASE) in z2.pte && z2.pte[(c, STACK_BASE)].frame == f && f in z2.mem
      && z2.pte[(p, STACK_BASE)].frame in z2.mem
      && Apply(z, Op.Fork(p, c, vs, f)) == z2.(mem := z2.mem[f := z2.mem[z2.pte[(p, STACK_BASE)].frame]])
  {
    var k := (c, STACK_BASE);
    var z1 := Fresh(z, k, f, junk, Plain);
    assert STACK_BASE !in vs;
    A.ForkDone(z, p, c, f, junk, vs);
    NotMapped(z, f);
    hide Inv, SharePages, Mappers, Apply;
    SharePagesElsewhere(z1, p, c, vs, (p, STACK_BASE));
    SharePagesElsewhere(z1, p, c, vs, k);
  }

  lemma NoKeys(spaces: map<nat, A.Space>, pte: map<Key, Pte>, ro: map<Key, bool>, t: nat)
    requires A.Layout(spaces, pte, ro) && t !in spaces
    ensures forall v :: (t, v) !in pte && (t, v) !in ro
  {}

  lemma SpawnDone(start: State, past: seq<Op>, z: State, s: State, ts: set<nat>, spaces: map<nat, A.Space>,
                  t: nat, f: nat, junk: Bytes, l: Live, ts': set<nat>)
    requires History(start, past, z) && Over(z, s, ts) && A.Layout(spaces, s.pte, s.ro) && t !in spaces
    requires |junk| == 2 * PAGE && f !in s.live && P.TablesAdded(Fresh(s, (t, STACK_BASE), f, junk, Plain).live, ts, l, ts')
    ensures var z', s' := Fresh(z, (t, STACK_BASE), f, junk, Plain), Fresh(s, (t, STACK_BASE), f, junk, Plain);
      && Over(z', s'.(live := l), ts') && A.Layout(spaces[t := A.EmptySpace], s'.pte, s'.ro) && Inv(z')
      && History(start, past + [MapIn((t, STACK_BASE), f, junk, Plain)], z')
  {
    var op := MapIn((t, STACK_BASE), f, junk, Plain);
    var z', s' := Fresh(z, (t, STACK_BASE), f, junk, Plain), Fresh(s, (t, STACK_BASE), f, junk, Plain);
    hide Inv, A.Layout, P.TablesAdded;
    OverFresh(z, s, ts, (t, STACK_BASE), f, junk, Plain);
    A.SpawnLayout(spaces, z, t, f, junk);
    OverMore(z', s', ts, l, ts');
    Extend(start, past, z, op, z');
  }

  /** Freeing blocks of a task: with and without the tables. */
  lemma FreeDone(start: State, past: seq<Op>, z: State, s: State, ts: set<nat>, t: nat, vs: seq<nat>)
    requires History(start, past, z) && Over(z, s, ts) && Distinct(vs) && forall v :: v in vs ==> (t, v) in s.pte
    ensures Over(DropPages(z, t, vs), DropPages(s, t, vs), ts) && History(start, past + [Op.Unmap(t, vs)], DropPages(z, t, vs))
  {
    hide Inv, DropPages;
    OverDropPages(z, s, ts, t, vs);
    Extend(start, past, z, Op.Unmap(t, vs), DropPages(z, t, vs));
  }

  lemma ExitOver(z: State, s: State, l0: Live, ts: set<nat>, gone: set<nat>)
    requires Over(z, s, ts) && P.Held(l0, ts) && gone <= ts
    ensures Over(z, s.(live := s.live - P.Indices(gone)), ts - gone)
  {
    HeldOver(z.live, s.live, l0, ts);
    hide P.Held, P.TablesAdded;
    OverLess(z, s, ts, gone);
  }
}
