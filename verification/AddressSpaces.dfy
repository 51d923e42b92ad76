/** User address spaces in place (src/sched.rs over src/pm.rs): fork, the write
    fault handler, growth and teardown, calling the buddy allocator. */
module AddressSpaces {
  import opened Frames
  import opened CowModel
  import B = BuddyAllocator
  import BuddyModel

  datatype Perm = ReadOnly | ReadExec | ReadWrite

  /** A region of single-page blocks; base and len count pages. */
  datatype Region = Region(base: nat, len: nat, perm: Perm) {
    predicate Has(v: nat) { base <= v < base + len }

    function Pages(): (vs: seq<nat>)
      ensures |vs| == len && forall i :: 0 <= i < len ==> vs[i] == base + i
    {
      seq(len, i requires 0 <= i < len => base + i)
    }
  }

  /** The regions of a task, apart from its stack. */
  datatype Space = Space(program: seq<Region>, mmap: Region, brk: Region)

  function ProgramPages(rs: seq<Region>): seq<nat> {
    if rs == [] then [] else ProgramPages(rs[..|rs| - 1]) + rs[|rs| - 1].Pages()
  }

  /** The pages of a task in the order fork visits them. */
  function AllPages(sp: Space): seq<nat> {
    ProgramPages(sp.program) + sp.brk.Pages() + sp.mmap.Pages()
  }

  function FindFirst(rs: seq<Region>, v: nat): Option<Region> {
    if rs == [] then None else if rs[0].Has(v) then Some(rs[0]) else FindFirst(rs[1..], v)
  }

  /** find_region; for a page of the mmap region it answers with brk. */
  function FindRegion(sp: Space, v: nat): Option<Region> {
    if sp.brk.Has(v) then Some(sp.brk)
    else if sp.mmap.Has(v) then Some(sp.brk)
    else FindFirst(sp.program, v)
  }

  /** How execv_inner, brk and mmap map the pages of a region. */
  function ProtOf(perm: Perm): Prot { if perm == ReadWrite then Plain else Segment(perm == ReadExec) }

  function Addr(f: nat): nat { B.OFFT + f * PAGE }

  /** The mappings of a task are its stack and the pages of its regions; the
      read-only ones are those of its read-only segments. */
  ghost predicate LaidOut(sp: Space, t: nat, pte: map<Key, Pte>, ro: map<Key, bool>) {
    && sp.brk.perm == sp.mmap.perm == ReadWrite
    && Distinct(AllPages(sp)) && STACK_BASE !in AllPages(sp) && FindRegion(sp, STACK_BASE).None?
    && (t, STACK_BASE) in pte && pte[(t, STACK_BASE)].writable && (t, STACK_BASE) !in ro
    && forall v :: v != STACK_BASE ==> PageLaidOut(sp, t, pte, ro, v)
  }

  ghost predicate PageLaidOut(sp: Space, t: nat, pte: map<Key, Pte>, ro: map<Key, bool>, v: nat) {
    && ((t, v) in pte <==> v in AllPages(sp))
    && (v in AllPages(sp) <==> FindRegion(sp, v).Some?)
    && ((t, v) in ro <==> FindRegion(sp, v).Some? && FindRegion(sp, v).value.perm != ReadWrite)
    && ((t, v) in ro ==> (ro[(t, v)] <==> FindRegion(sp, v).value.perm == ReadExec))
  }

  ghost predicate Layout(spaces: map<nat, Space>, pte: map<Key, Pte>, ro: map<Key, bool>) {
    && (forall t :: t in spaces ==> LaidOut(spaces[t], t, pte, ro))
    && (forall k :: k in pte || k in ro ==> k.0 in spaces)
  }

  lemma PageAt(spaces: map<nat, Space>, pte: map<Key, Pte>, ro: map<Key, bool>, t: nat, v: nat)
    requires Layout(spaces, pte, ro) && t in spaces
    ensures v != STACK_BASE ==> PageLaidOut(spaces[t], t, pte, ro, v)
    ensures v == STACK_BASE ==> (t, v) in pte && pte[(t, v)].writable && (t, v) !in ro
  {
    assert LaidOut(spaces[t], t, pte, ro);
  }

  /** A task whose keys do not come or go stays laid out. */
  lemma LaidOutFrame(sp: Space, t: nat, pte: map<Key, Pte>, ro: map<Key, bool>, pte': map<Key, Pte>, ro': map<Key, bool>)
    requires LaidOut(sp, t, pte, ro)
    requires forall k: Key :: k.0 == t ==> (k in pte <==> k in pte') && (k in ro <==> k in ro') && (k in ro ==> ro'[k] == ro[k])
    requires (t, STACK_BASE) in pte' ==> pte'[(t, STACK_BASE)].writable
    ensures LaidOut(sp, t, pte', ro')
  {
    hide AllPages, FindRegion, Distinct;
    assert forall v :: v != STACK_BASE && PageLaidOut(sp, t, pte, ro, v) ==> PageLaidOut(sp, t, pte', ro', v);
  }

  /** Remapping a page of a task to another frame keeps the layout. */
  lemma RemapLayout(spaces: map<nat, Space>, pte: map<Key, Pte>, ro: map<Key, bool>, k: Key, e: Pte)
    requires Layout(spaces, pte, ro) && k in pte && (k.1 == STACK_BASE ==> e.writable)
    ensures Layout(spaces, pte[k := e], ro)
  {
    forall t | t in spaces
      ensures LaidOut(spaces[t], t, pte[k := e], ro)
    {
      assert LaidOut(spaces[t], t, pte, ro);
      LaidOutFrame(spaces[t], t, pte, ro, pte[k := e], ro);
    }
  }

  /** After fork the child is laid out like its parent. */
  lemma ForkLayout(spaces: map<nat, Space>, s: State, p: nat, c: nat, stack: nat, data: Bytes)
    requires Inv(s) && Layout(spaces, s.pte, s.ro) && p in spaces && c !in spaces && stack !in s.live
    requires |data| == SizeOf(STACK_BASE)
    ensures var s1 := Fresh(s, (c, STACK_BASE), stack, data, Plain);
      var s' := SharePages(s1, p, c, AllPages(spaces[p]));
      && Inv(s1) && CanShare(s1, p, c, AllPages(spaces[p])) && Layout(spaces[c := spaces[p]], s'.pte, s'.ro)
  {
    hide Inv, Shared, AllPages, FindRegion, SharePages, LaidOut, RoCopy, CanShare, Distinct;
    var vs := AllPages(spaces[p]);
    var s1 := Fresh(s, (c, STACK_BASE), stack, data, Plain);
    FreshKeeps(s, (c, STACK_BASE), stack, data, Plain);
    AfterStack(spaces[p], p, c, s, s1);
    var s' := SharePages(s1, p, c, vs);
    SharePagesKeeps(s1, p, c, vs);
    SharedInv(s1, s', p, c, vs);
    SharePagesElsewhere(s1, p, c, vs, (c, STACK_BASE));
    ChildLaidOut(spaces[p], p, c, s, s');
    RoCopyKeys(s.ro, p, c, vs);
    forall t | t in spaces
      ensures LaidOut(spaces[t], t, s'.pte, s'.ro)
    {
      StackKept(spaces[t], t, s.pte, s.ro);
      SharePagesElsewhere(s1, p, c, vs, (t, STACK_BASE));
      LaidOutFrame(spaces[t], t, s.pte, s.ro, s'.pte, s'.ro);
    }
    assert forall k :: k in s'.pte || k in s'.ro ==> k.0 == c || k in s.pte || k in s.ro;
  }

  /** The code pages among those of a region of task p are all of them, or none. */
  ghost predicate Marked(ro: map<Key, bool>, p: nat, r: Region) {
    forall v :: v in r.Pages() ==> (r.perm == ReadExec <==> Code(ro, (p, v)))
  }

  ghost predicate AllMarked(ro: map<Key, bool>, p: nat, sp: Space) {
    Marked(ro, p, sp.brk) && Marked(ro, p, sp.mmap) && forall i :: 0 <= i < |sp.program| ==> Marked(ro, p, sp.program[i])
  }

  /** Every page is found in the region it belongs to, so a region's own permission says
      how its pages are mapped. */
  lemma LayoutMarks(spaces: map<nat, Space>, pte: map<Key, Pte>, ro: map<Key, bool>, p: nat)
    requires Layout(spaces, pte, ro) && p in spaces
    ensures AllMarked(ro, p, spaces[p])
  {
    hide AllPages, FindRegion;
    var sp := spaces[p];
    assert LaidOut(sp, p, pte, ro);
    forall v, r: Region | v in r.Pages() && (r in sp.program || r == sp.brk || r == sp.mmap)
      ensures r.perm == ReadExec <==> Code(ro, (p, v))
    {
      FoundWhereItIs(sp, r, v);
      PageAt(spaces, pte, ro, p, v);
    }
  }

  lemma FoundWhereItIs(sp: Space, r: Region, v: nat)
    requires Distinct(AllPages(sp)) && sp.brk.perm == sp.mmap.perm
    requires v in r.Pages() && (r in sp.program || r == sp.brk || r == sp.mmap)
    ensures v in AllPages(sp) && FindRegion(sp, v).Some? && FindRegion(sp, v).value.perm == r.perm
  {
    RegionPages(r, v);
    RegionPages(sp.brk, v);
    RegionPages(sp.mmap, v);
    var a := ProgramPages(sp.program);
    SplitDistinct(a + sp.brk.Pages(), sp.mmap.Pages());
    SplitDistinct(a, sp.brk.Pages());
    if r in sp.program {
      FirstIsOnly(sp.program, r, v);
    }
  }

  lemma {:induction false} FirstIsOnly(rs: seq<Region>, r: Region, v: nat)
    requires Distinct(ProgramPages(rs)) && r in rs && r.Has(v)
    ensures v in ProgramPages(rs) && FindFirst(rs, v) == Some(r)
    decreases |rs|
  {
    var init, last := rs[..|rs| - 1], rs[|rs| - 1];
    assert rs == init + [last];
    SplitDistinct(ProgramPages(init), last.Pages());
    RegionPages(last, v);
    FindFirstSnoc(init, last, v);
    if r in init {
      FirstIsOnly(init, r, v);
    } else {
      NotFound(init, v);
    }
  }

  lemma {:induction false} NotFound(rs: seq<Region>, v: nat)
    requires v !in ProgramPages(rs)
    ensures FindFirst(rs, v).None?
    decreases |rs|
  {
    if rs != [] {
      var init, last := rs[..|rs| - 1], rs[|rs| - 1];
      assert rs == init + [last];
      RegionPages(last, v);
      NotFound(init, v);
      FindFirstSnoc(init, last, v);
    }
  }

  /** Cloning pages leaves the parent's marks alone. */
  lemma MarkedStill(s: State, p: nat, c: nat, vs: seq<nat>, r: Region)
    requires Inv(s) && p != c && Distinct(vs) && CanShare(s, p, c, vs) && Marked(s.ro, p, r)
    ensures Marked(SharePages(s, p, c, vs).ro, p, r)
  {
    hide Inv, Shared, SharePages, RoCopy, KeysOf;
    SharePagesKeeps(s, p, c, vs);
    SharedInv(s, SharePages(s, p, c, vs), p, c, vs);
    forall v | v in r.Pages()
      ensures r.perm == ReadExec <==> Code(SharePages(s, p, c, vs).ro, (p, v))
    {
      RoCopyAt(s.ro, p, c, vs, (p, v));
    }
  }

  lemma StackKept(sp: Space, t: nat, pte: map<Key, Pte>, ro: map<Key, bool>)
    requires LaidOut(sp, t, pte, ro)
    ensures (t, STACK_BASE) in pte && pte[(t, STACK_BASE)].writable
  {}

  lemma RoCopyKeys(ro: map<Key, bool>, p: nat, c: nat, vs: seq<nat>)
    ensures forall k :: k in RoCopy(ro, p, c, vs) ==> k.0 == c
  {}

  lemma AfterStack(sp: Space, p: nat, c: nat, s: State, s1: State)
    requires LaidOut(sp, p, s.pte, s.ro) && p != c && s1.ro == s.ro && s1.pte.Keys == s.pte.Keys + {(c, STACK_BASE)}
    requires forall k :: k in s.pte || k in s.ro ==> k.0 != c
    ensures Distinct(AllPages(sp)) && STACK_BASE !in AllPages(sp) && CanShare(s1, p, c, AllPages(sp))
  {
    hide AllPages, FindRegion;
    assert forall v :: v in AllPages(sp) ==> PageLaidOut(sp, p, s.pte, s.ro, v);
  }

  lemma ChildLaidOut(sp: Space, p: nat, c: nat, s: State, s': State)
    requires LaidOut(sp, p, s.pte, s.ro) && p != c && forall k :: k in s.pte || k in s.ro ==> k.0 != c
    requires s'.pte.Keys == s.pte.Keys + {(c, STACK_BASE)} + KeysOf(c, AllPages(sp))
    requires s'.ro == s.ro + RoCopy(s.ro, p, c, AllPages(sp)) && s'.pte[(c, STACK_BASE)].writable
    ensures LaidOut(sp, c, s'.pte, s'.ro)
  {
    hide FindRegion, AllPages;
    assert forall v :: v != STACK_BASE && PageLaidOut(sp, p, s.pte, s.ro, v) ==> PageLaidOut(sp, c, s'.pte, s'.ro, v);
  }

  /** How a write fault or an operation ends. */
  datatype Outcome = Resolved | OutOfMemory | Fatal

  /** How brk and mmap end: the last three are panics, for want of a frame, at a page
      that is mapped already, and while zeroing. */
  datatype GrowResult = Zeroed | NoFrame | Taken | Aborted

  /** s is z except that the pages vs of t hold anything and are mapped as prot says. */
  ghost predicate Behind(z: State, s: State, t: nat, vs: seq<nat>, prot: Prot) {
    && s.live == z.live && s.ro == z.ro && s.mem.Keys == z.mem.Keys && s.pte.Keys == z.pte.Keys
    && (forall k :: k in z.pte ==> s.pte[k] == if k in KeysOf(t, vs) then Entry(z.pte[k].frame, prot) else z.pte[k])
    && (forall f :: f in z.mem && s.mem[f] != z.mem[f] ==> exists v :: v in vs && (t, v) in z.pte && z.pte[(t, v)].frame == f)
  }

  /** The pages vs of t are writable mappings of new frames. */
  ghost predicate JustMapped(z: State, t: nat, vs: seq<nat>) {
    forall v :: v in vs ==>
      (t, v) in z.pte && z.pte[(t, v)] == Entry(z.pte[(t, v)].frame, Plain) && z.pte[(t, v)].frame in z.live && z.live[z.pte[(t, v)].frame] == Block(MAX_ORD, 1, Used)
  }

  lemma JunkNone(s: State, t: nat, prot: Prot)
    requires Inv(s)
    ensures Added(s, s, t, [], [], Plain) && Behind(s, s, t, [], prot) && JustMapped(s, t, [])
  {
    hide Inv;
    AddedNone(s, t, Plain);
    assert KeysOf(t, []) == {};
  }

  /** Before page i is mapped: it is free exactly if it was at the start. */
  lemma JunkHere(s: State, z: State, s0: State, t: nat, r: Region, i: nat, prot: Prot, zs: seq<Bytes>)
    requires i < r.len && |zs| == i && Added(s, z, t, r.Pages()[..i], zs, Plain) && Behind(z, s0, t, r.Pages()[..i], prot)
    requires forall k :: k in s.ro ==> k in s.pte
    ensures var k := (t, r.base + i);
      Inv(z) && s0.live == z.live && (k in s0.pte <==> k in z.pte) && (k in s0.pte <==> k in s.pte) && (k !in z.pte ==> k !in z.ro)
  {
    hide Inv, ViewOf, Foreign, Contents;
    PagesPrefix(r, i);
    assert forall k :: k in KeysOf(t, r.Pages()[..i]) ==> k.1 in r.Pages()[..i];
  }

  lemma AddedHere(s: State, s0: State, t: nat, r: Region, i: nat, datas: seq<Bytes>, prot: Prot)
    requires i < r.len && |datas| == i && Added(s, s0, t, r.Pages()[..i], datas, prot)
    requires (t, STACK_BASE) in s.pte && forall k :: k in s.ro ==> k in s.pte
    ensures Inv(s0) && (t, STACK_BASE) in s0.pte
    ensures var k := (t, r.base + i); (k in s0.pte <==> k in s.pte) && (k !in s0.pte ==> k !in s0.ro)
  {
    hide Inv, ViewOf, Foreign, Contents;
    PagesPrefix(r, i);
    assert forall k :: k in KeysOf(t, r.Pages()[..i]) ==> k.1 in r.Pages()[..i];
  }

  lemma FreshStep(z: State, k: Key, f: nat, data: Bytes)
    requires k !in z.pte && k !in z.ro && f !in z.live && |data| == SizeOf(k.1)
    ensures StepsTo(z, MapIn(k, f, data, Plain), Fresh(z, k, f, data, Plain))
  {}

  lemma JunkNext(s: State, z: State, s0: State, t: nat, vs: seq<nat>, datas: seq<Bytes>, prot: Prot, v: nat, f: nat, junk: Bytes, data: Bytes, ops: seq<Op>)
    requires |vs| == |datas| && Added(s, z, t, vs, datas, Plain) && RunFrom(s, ops) == Some(z) && |data| == PAGE
    requires Behind(z, s0, t, vs, prot) && JustMapped(z, t, vs) && f !in z.live
    requires Inv(z) && (t, v) !in z.pte && (t, v) !in z.ro && v != STACK_BASE
    ensures var z', s' := Fresh(z, (t, v), f, data, Plain), Fresh(s0, (t, v), f, junk, Plain).(pte := s0.pte[(t, v) := Entry(f, prot)]);
      && Added(s, z', t, vs + [v], datas + [data], Plain) && RunFrom(s, ops + [MapIn((t, v), f, data, Plain)]) == Some(z')
      && Behind(z', s', t, vs + [v], prot) && JustMapped(z', t, vs + [v])
  {
    hide Inv, Added, Behind, JustMapped, RunFrom, Fresh, StepsTo;
    FreshStep(z, (t, v), f, data);
    RunFromSnoc(s, ops, z, MapIn((t, v), f, data, Plain), Fresh(z, (t, v), f, data, Plain));
    BehindStep(z, s0, t, vs, prot, v, f, junk, data);
    AddedStep(s, z, t, vs, datas, Plain, v, f, data);
  }

  lemma BehindStep(z: State, s: State, t: nat, vs: seq<nat>, prot: Prot, v: nat, f: nat, junk: Bytes, zero: Bytes)
    requires Inv(z) && Behind(z, s, t, vs, prot) && JustMapped(z, t, vs) && (t, v) !in z.pte && f !in z.live && v != STACK_BASE
    ensures var z', s' := Fresh(z, (t, v), f, zero, Plain), Fresh(s, (t, v), f, junk, Plain).(pte := s.pte[(t, v) := Entry(f, prot)]);
      Behind(z', s', t, vs + [v], prot) && JustMapped(z', t, vs + [v])
  {
    hide Inv, Mappers, JustMapped, KeysOf;
    NotMapped(z, f);
    JustStep(z, t, vs, v, f, zero);
    BehindKeys(z, s, t, vs, prot, v, f);
    var z', s' := Fresh(z, (t, v), f, zero, Plain), Fresh(s, (t, v), f, junk, Plain).(pte := s.pte[(t, v) := Entry(f, prot)]);
    forall g | g in z'.mem && s'.mem[g] != z'.mem[g]
      ensures exists u :: u in vs + [v] && (t, u) in z'.pte && z'.pte[(t, u)].frame == g
    {
      if g == f {
        assert v in vs + [v] && z'.pte[(t, v)].frame == g;
      } else {
        var u :| u in vs && (t, u) in z.pte && z.pte[(t, u)].frame == g;
        assert u in vs + [v] && z'.pte[(t, u)].frame == g;
      }
    }
  }

  lemma BehindKeys(z: State, s: State, t: nat, vs: seq<nat>, prot: Prot, v: nat, f: nat)
    requires Behind(z, s, t, vs, prot) && (t, v) !in z.pte
    ensures var zp, sp := z.pte[(t, v) := Entry(f, Plain)], s.pte[(t, v) := Entry(f, prot)];
      sp.Keys == zp.Keys && forall k :: k in zp ==> sp[k] == if k in KeysOf(t, vs + [v]) then Entry(zp[k].frame, prot) else zp[k]
  {
    KeysOfSnoc(t, vs, v);
  }

  lemma JustStep(z: State, t: nat, vs: seq<nat>, v: nat, f: nat, zero: Bytes)
    requires JustMapped(z, t, vs) && (t, v) !in z.pte && f !in z.live && v != STACK_BASE
    ensures JustMapped(Fresh(z, (t, v), f, zero, Plain), t, vs + [v])
  {}

  /** What the fill finds at page i of the region. */
  lemma JunkAt(s: State, z: State, s0: State, t: nat, r: Region, i: nat, prot: Prot)
    requires i < r.len && Added(s, z, t, r.Pages(), Zeros(r.len), Plain)
    requires Behind(z, s0, t, r.Pages()[i..], prot) && JustMapped(z, t, r.Pages())
    ensures var k := (t, r.base + i);
      && k in s0.pte && s0.pte[k].writable == prot.Plain? && s0.pte[k].frame == z.pte[k].frame
      && s0.pte[k].frame in s0.mem && s0.pte[k].frame in s0.live && s0.live[s0.pte[k].frame] == Block(MAX_ORD, 1, Used)
      && k in z.pte && z.pte[k].frame in z.mem && z.mem[z.pte[k].frame] == Zeros(1)[0]
      && forall v :: v in r.Pages()[i + 1..] && (t, v) in z.pte ==> z.pte[(t, v)].frame != z.pte[k].frame
  {
    hide Inv, KeyOk, FrameOk, Mappers, Added, Zeros;
    var k := (t, r.base + i);
    assert r.Pages()[i..][0] == r.base + i && r.base + i in r.Pages()[i..] && r.base + i in r.Pages();
    assert k in KeysOf(t, r.Pages()[i..]);
    JunkZero(s, z, t, r, i);
    OneMapper(z, k);
    LaterPage(r, i);
  }

  lemma LaterPage(r: Region, i: nat)
    requires i < r.len
    ensures r.base + i !in r.Pages()[i + 1..]
  {}

  /** What page i is meant to hold. */
  lemma JunkZero(s: State, z: State, t: nat, r: Region, i: nat)
    requires i < r.len && Added(s, z, t, r.Pages(), Zeros(r.len), Plain) && (t, r.base + i) in z.pte
    ensures var k := (t, r.base + i);
      Inv(z) && KeyOk(z, k) && z.pte[k].frame in z.mem && z.mem[z.pte[k].frame] == Zeros(1)[0]
  {
    hide Inv, KeyOk, FrameOk, ViewOf, Foreign, Contents, KeysOf, RoNew;
    var k := (t, r.base + i);
    InView(z, k);
    KeyFrame(z, k);
    ContentsAt(t, r, i);
    assert Zeros(r.len)[i] == Zeros(1)[0];
  }

  lemma KeyFrame(z: State, k: Key)
    requires k in z.pte && KeyOk(z, k)
    ensures z.pte[k].frame in z.mem && z.pte[k].frame in z.live
  {}

  lemma {:induction false} ContentsOf(t: nat, vs: seq<nat>, datas: seq<Bytes>, i: nat)
    requires |vs| == |datas| && Distinct(vs) && i < |vs|
    ensures (t, vs[i]) in Contents(t, vs, datas) && Contents(t, vs, datas)[(t, vs[i])] == datas[i]
    decreases |vs|
  {
    var n := |vs| - 1;
    if i < n {
      ContentsOf(t, vs[..n], datas[..n], i);
    }
  }

  lemma ContentsAt(t: nat, r: Region, i: nat)
    requires i < r.len
    ensures var all := Contents(t, r.Pages(), Zeros(r.len)); (t, r.base + i) in all && all[(t, r.base + i)] == Zeros(r.len)[i]
  {
    ContentsOf(t, r.Pages(), Zeros(r.len), i);
  }

  /** Page i is zeroed. */
  lemma ZeroStep(z: State, s0: State, t: nat, r: Region, i: nat)
    requires var k := (t, r.base + i);
      && i < r.len && Behind(z, s0, t, r.Pages()[i..], Plain) && JustMapped(z, t, r.Pages()) && k in s0.pte && k in z.pte
      && s0.pte[k].frame == z.pte[k].frame && z.pte[k].frame in z.mem && z.mem[z.pte[k].frame] == Zeros(1)[0]
    ensures Behind(z, Fill(s0, (t, r.base + i), Zeros(1)[0]), t, r.Pages()[i + 1..], Plain)
  {
    var k, rest := (t, r.base + i), r.Pages()[i + 1..];
    assert r.Pages()[i..] == [r.base + i] + rest;
    var s' := Fill(s0, k, Zeros(1)[0]);
    forall g | g in z.mem && s'.mem[g] != z.mem[g]
      ensures exists v :: v in rest && (t, v) in z.pte && z.pte[(t, v)].frame == g
    {
      var v :| v in r.Pages()[i..] && (t, v) in z.pte && z.pte[(t, v)].frame == g;
      assert v != r.base + i;
    }
    forall q | q in z.pte
      ensures s'.pte[q] == if q in KeysOf(t, rest) then Entry(z.pte[q].frame, Plain) else z.pte[q]
    {
      assert q in KeysOf(t, r.Pages()[i..]) <==> q in KeysOf(t, rest) || q == k;
      assert z.pte[k] == Entry(z.pte[k].frame, Plain) by { assert r.Pages()[i] == r.base + i; }
    }
  }

  lemma BehindNone(z: State, s: State, t: nat, prot: Prot)
    requires Behind(z, s, t, [], prot)
    ensures s == z
  {
    assert KeysOf(t, []) == {};
    assert s.mem == z.mem;
    assert s.pte == z.pte;
  }

  class Kernel {
    const al: B.Allocator
    var mem: map<nat, Bytes>
    var pte: map<Key, Pte>
    var spaces: map<nat, Space>
    ghost var ro: map<Key, bool>

    ghost function St(): State
      reads this, al, al.pages
    {
      State(al.Live(), mem, pte, ro)
    }

    ghost predicate Valid()
      reads this, al, al.pages, al.heads
    {
      al.Valid() && Inv(St()) && Layout(spaces, pte, ro)
    }

    /** No task has memory yet. */
    constructor (a: B.Allocator)
      requires a.Valid()
      ensures al == a && Valid() && spaces == map[] && mem == map[] && pte == map[] && ro == map[]
    {
      al := a;
      mem, pte, spaces, ro := map[], map[], map[], map[];
    }

    /** init_user: a new task has a stack and nothing else; junk is what the stack's
        frames happened to hold. It fails exactly without room for the stack. */
    method Spawn(t: nat, junk: Bytes) returns (ok: bool, ghost stack: nat)
      requires Valid() && t !in spaces && |junk| == 2 * PAGE
      modifies `mem, `pte, `spaces, al, al.pages, al.heads
      ensures Valid() && (!ok <==> BuddyModel.NoRoom(old(al.Live()), 7))
      ensures !ok ==> St() == old(St()) && spaces == old(spaces)
      ensures ok ==> spaces == old(spaces)[t := EmptySpace]
      ensures ok ==> StepsTo(old(St()), Op.MapIn((t, STACK_BASE), stack, junk, Plain), St())
    {
      hide Inv, Layout, B.Allocator.Valid, B.Allocator.Live, BuddyModel.NoRoom;
      ghost var s := St();
      ok, stack := NewStack(t, junk);
      if ok {
        SpawnLayout(spaces, s, t, stack, junk);
        spaces := spaces[t := EmptySpace];
      }
    }

    /** A block for the stack, mapped. */
    method NewStack(t: nat, junk: Bytes) returns (ok: bool, ghost stack: nat)
      requires al.Valid()
      modifies `mem, `pte, al, al.pages, al.heads
      ensures al.Valid() && (!ok <==> BuddyModel.NoRoom(old(al.Live()), 7))
      ensures !ok ==> St() == old(St())
      ensures ok ==> stack !in old(al.Live()) && St() == Fresh(old(St()), (t, STACK_BASE), stack, junk, Plain)
    {
      hide B.Allocator.Valid, B.Allocator.Live, BuddyModel.NoRoom;
      stack := 0;
      B.OrdOfSmall();
      al.Sized();
      var a := al.Alloc(2 * PAGE);
      if a.None? {
        return false, stack;
      }
      var f := (a.value - B.OFFT) / PAGE;
      stack := f;
      mem := mem[f := junk];
      pte := pte[(t, STACK_BASE) := Entry(f, Plain)];
      return true, stack;
    }

    /** The body of clone_region's loop for the page v of a region of permission perm. */
    method ClonePage(p: nat, c: nat, v: nat, perm: Perm)
      requires al.Valid() && Inv(St()) && (p, v) in pte && v != STACK_BASE && (perm == ReadExec <==> Code(ro, (p, v)))
      modifies `pte, `ro, al.pages
      ensures al.Valid() && (p, v) in old(pte) && old(pte[(p, v)].frame in al.Live())
      ensures St() == Share(old(St()), p, c, v)
    {
      hide Inv, B.Allocator.Valid, B.Allocator.Live;
      var f := pte[(p, v)].frame;
      InView(St(), (p, v));
      MappedFrame((p, v));
      var e := Entry(f, Segment(perm == ReadExec));
      pte := pte[(p, v) := e];
      var ok := al.Dup(Addr(f), PAGE);
      pte := pte[(c, v) := e];
      ro := if (p, v) in ro then ro[(c, v) := ro[(p, v)]] else ro;
    }

    // clone_region
    method CloneRegion(p: nat, c: nat, r: Region)
      requires al.Valid() && Inv(St()) && p != c && CanShare(St(), p, c, r.Pages()) && Marked(ro, p, r)
      modifies `pte, `ro, al.pages
      ensures al.Valid() && St() == SharePages(old(St()), p, c, r.Pages())
    {
      hide Inv, Shared, ViewOf, Foreign, KeysOf, RoCopy, B.Allocator.Valid, B.Allocator.Live;
      ghost var s := St();
      for i := 0 to r.len
        invariant al.Valid() && St() == SharePages(s, p, c, r.Pages()[..i])
      {
        var v := r.base + i;
        ghost var init := r.Pages()[..i];
        PagesPrefix(r, i);
        SharePagesKeeps(s, p, c, init);
        SharedInv(s, St(), p, c, init);
        SharedStep(s, St(), p, c, init, v);
        RoCopyAt(s.ro, p, c, init, (p, v));
        assert r.Pages()[i] == v;
        ClonePage(p, c, v, r.perm);
      }
      assert r.Pages()[..r.len] == r.Pages();
    }

    /** clone_region after the pages prev have been cloned into state s. */
    method CloneNext(p: nat, c: nat, r: Region, ghost s: State, ghost prev: seq<nat>, ghost rest: seq<nat>)
      requires al.Valid() && Inv(s) && p != c && St() == SharePages(s, p, c, prev)
      requires Distinct(prev + r.Pages() + rest) && CanShare(s, p, c, prev + r.Pages() + rest) && Marked(s.ro, p, r)
      modifies `pte, `ro, al.pages
      ensures al.Valid() && St() == SharePages(s, p, c, prev + r.Pages())
    {
      hide Inv, Shared, SharePages, Marked, CanShare, Distinct, B.Allocator.Valid, B.Allocator.Live;
      var vs := r.Pages();
      CanSharePrefix(s, p, c, prev + vs, rest);
      CanSharePrefix(s, p, c, prev, vs);
      CanShareRest(s, p, c, prev, vs);
      SharePagesConcat(s, p, c, prev, vs);
      MarkedStill(s, p, c, prev, r);
      CloneRegion(p, c, r);
    }

    // clone_regions, then the brk and mmap regions
    method CloneAll(p: nat, c: nat)
      requires p in spaces && p != c && al.Valid() && Inv(St())
      requires Distinct(AllPages(spaces[p])) && CanShare(St(), p, c, AllPages(spaces[p])) && AllMarked(ro, p, spaces[p])
      modifies `pte, `ro, al.pages
      ensures al.Valid() && St() == SharePages(old(St()), p, c, AllPages(spaces[p]))
    {
      hide Inv, Shared, SharePages, Marked, B.Allocator.Valid, B.Allocator.Live;
      var sp := spaces[p];
      ghost var s, all := St(), AllPages(sp);
      NoPages(s, p, c);
      for i := 0 to |sp.program|
        invariant al.Valid() && St() == SharePages(s, p, c, ProgramPages(sp.program[..i]))
      {
        var r := sp.program[i];
        ghost var rest := RestPages(sp, i);
        CloneNext(p, c, r, s, ProgramPages(sp.program[..i]), rest);
      }
      assert sp.program[..|sp.program|] == sp.program;
      CloneNext(p, c, sp.brk, s, ProgramPages(sp.program), sp.mmap.Pages());
      assert all + [] == all;
      CloneNext(p, c, sp.mmap, s, ProgramPages(sp.program) + sp.brk.Pages(), []);
    }

    /** fork: a new stack for the child, every region cloned, the stack copied.
        It fails only when the allocator has no room for the stack. */
    method Fork(p: nat, c: nat, junk: Bytes) returns (ok: bool, ghost stack: nat)
      requires Valid() && p in spaces && c !in spaces && |junk| == 2 * PAGE
      modifies `mem, `pte, `ro, `spaces, al, al.pages, al.heads
      ensures ok ==> Valid() && spaces == old(spaces)[c := old(spaces)[p]]
      ensures ok ==> StepsTo(old(St()), Op.Fork(p, c, old(AllPages(spaces[p])), stack), St())
      ensures ok ==> ViewOf(St()) == EagerFork(old(ViewOf(St())), p, c)
      ensures !ok <==> BuddyModel.NoRoom(old(al.Live()), 7)
      ensures !ok ==> Valid() && St() == old(St()) && spaces == old(spaces)
    {
      hide Inv, Layout, ViewOf, EagerFork, AllPages, StepsTo, B.Allocator.Valid, B.Allocator.Live, B.GoodPlace;
      ghost var s := St();
      stack := 0;
      B.OrdOfSmall();
      al.Sized();
      var a := al.Alloc(2 * PAGE);
      if a.None? {
        return false, stack;
      }
      stack := (a.value - B.OFFT) / PAGE;
      ForkInto(p, c, (a.value - B.OFFT) / PAGE, junk, s);
      ok := true;
    }

    /** fork once the child's stack f is allocated. */
    method ForkInto(p: nat, c: nat, f: nat, junk: Bytes, ghost s: State)
      requires al.Valid() && Inv(s) && Layout(spaces, pte, ro) && p in spaces && c !in spaces && |junk| == 2 * PAGE
      requires f !in s.live && St() == s.(live := s.live[f := Block(7, 1, Used)])
      modifies `mem, `pte, `ro, `spaces, al.pages
      ensures Valid() && spaces == old(spaces)[c := old(spaces)[p]]
      ensures StepsTo(s, Op.Fork(p, c, old(AllPages(spaces[p])), f), St()) && ViewOf(St()) == EagerFork(ViewOf(s), p, c)
    {
      hide Inv, Layout, Shared, SharePages, ViewOf, EagerFork, AllPages, AllMarked, B.Allocator.Valid, B.Allocator.Live;
      hide CanShare, Distinct, PageLaidOut, Enabled, Apply, StepsTo;
      PageAt(spaces, pte, ro, p, STACK_BASE);
      InView(s, (p, STACK_BASE));
      ghost var data := mem[pte[(p, STACK_BASE)].frame];
      ForkLayout(spaces, s, p, c, f, junk);
      ForkLayout(spaces, s, p, c, f, data);
      ForkEnabled(spaces, s, p, c, f);
      LayoutMarks(spaces, pte, ro, p);
      PagesMapped(spaces, pte, ro, p);
      mem := mem[f := junk];
      pte := pte[(c, STACK_BASE) := Entry(f, Plain)];
      ghost var s1 := St();
      assert s1 == Fresh(s, (c, STACK_BASE), f, junk, Plain);
      ForkDone(s, p, c, f, junk, AllPages(spaces[p]));
      SharePagesElsewhere(s1, p, c, AllPages(spaces[p]), (p, STACK_BASE));
      CloneAll(p, c);
      spaces := spaces[c := spaces[p]];
      mem := mem[f := mem[pte[(p, STACK_BASE)].frame]];
      assert St() == SharePages(s1, p, c, AllPages(spaces[p])).(mem := mem);
      ForkStep(s, Op.Fork(p, c, AllPages(spaces[p]), f), St());
    }

    /** The body of free_region's loop for the block at v: one page, or the two
        of the stack. */
    method FreePage(t: nat, v: nat)
      requires al.Valid() && Inv(St()) && (t, v) in pte
      modifies `mem, `pte, `ro, al, al.pages, al.heads
      ensures al.Valid()
      ensures (t, v) in old(pte) && old(pte[(t, v)].frame in al.Live() && al.Live()[pte[(t, v)].frame].refCnt > 0)
      ensures St() == Drop(old(St()), (t, v))
    {
      hide Inv, B.Allocator.Valid, B.Allocator.Live;
      var f := pte[(t, v)].frame;
      InView(St(), (t, v));
      MappedFrame((t, v));
      mem := if al.pages[f].refCnt == 1 then mem - {f} else mem;
      al.Free(Addr(f), if v == STACK_BASE then 2 * PAGE else PAGE);
      pte := pte - {(t, v)};
      ro := ro - {(t, v)};
    }

    // free_region
    method FreeRegion(t: nat, r: Region)
      requires al.Valid() && Inv(St()) && forall v :: v in r.Pages() ==> (t, v) in pte
      modifies `mem, `pte, `ro, al, al.pages, al.heads
      ensures al.Valid() && St() == DropPages(old(St()), t, r.Pages())
    {
      hide Inv, Dropped, ViewOf, Foreign, B.Allocator.Valid, B.Allocator.Live;
      ghost var s := St();
      for i := 0 to r.len
        invariant al.Valid() && St() == DropPages(s, t, r.Pages()[..i])
      {
        var v := r.base + i;
        ghost var init := r.Pages()[..i];
        PagesPrefix(r, i);
        DropPagesKeeps(s, t, init);
        DroppedInv(s, St(), t, init);
        DroppedStep(s, St(), t, init, v);
        FreePage(t, v);
      }
      assert r.Pages()[..r.len] == r.Pages();
    }

    /** free_region after the pages prev of state s have been freed. */
    method FreeNext(t: nat, r: Region, ghost s: State, ghost prev: seq<nat>, ghost rest: seq<nat>)
      requires al.Valid() && Inv(s) && St() == DropPages(s, t, prev)
      requires Distinct(prev + r.Pages() + rest) && forall v :: v in prev + r.Pages() + rest ==> (t, v) in s.pte
      modifies `mem, `pte, `ro, al, al.pages, al.heads
      ensures al.Valid() && St() == DropPages(s, t, prev + r.Pages())
    {
      hide Inv, Dropped, DropPages, B.Allocator.Valid, B.Allocator.Live;
      var vs := r.Pages();
      PrefixOf(prev + vs, rest);
      CanDropRest(s, t, prev, vs);
      DropPagesConcat(s, t, prev, vs);
      FreeRegion(t, r);
    }

    // free_regions, then the brk and mmap regions
    method FreeAll(t: nat)
      requires Valid() && t in spaces
      modifies `mem, `pte, `ro, al, al.pages, al.heads
      ensures al.Valid() && St() == DropPages(old(St()), t, AllPages(spaces[t]))
    {
      hide Inv, DropPages, B.Allocator.Valid, B.Allocator.Live;
      var sp := spaces[t];
      ghost var s, all := St(), AllPages(sp);
      PagesMapped(spaces, pte, ro, t);
      NoDrops(s, t);
      for i := 0 to |sp.program|
        invariant al.Valid() && St() == DropPages(s, t, ProgramPages(sp.program[..i]))
      {
        var r := sp.program[i];
        ghost var rest := RestPages(sp, i);
        FreeNext(t, r, s, ProgramPages(sp.program[..i]), rest);
      }
      assert sp.program[..|sp.program|] == sp.program;
      FreeNext(t, sp.brk, s, ProgramPages(sp.program), sp.mmap.Pages());
      assert all + [] == all;
      FreeNext(t, sp.mmap, s, ProgramPages(sp.program) + sp.brk.Pages(), []);
    }

    /** The teardown of execv_inner: every region goes, the stack stays. */
    method ExecFree(t: nat)
      requires Valid() && t in spaces
      modifies `mem, `pte, `ro, `spaces, al, al.pages, al.heads
      ensures Valid() && spaces == old(spaces)[t := EmptySpace]
      ensures StepsTo(old(St()), Op.Unmap(t, old(AllPages(spaces[t]))), St())
      ensures Foreign(St()) == old(Foreign(St()))
    {
      hide Inv, Layout, Foreign, DropPages, AllPages, ViewOf, Eager, B.Allocator.Valid, B.Allocator.Live;
      ghost var s := St();
      PagesMapped(spaces, pte, ro, t);
      FreeLayout(spaces, s, t);
      FreeAll(t);
      StepsRefine(s, Op.Unmap(t, AllPages(spaces[t])), St());
      spaces := spaces[t := EmptySpace];
    }

    /** free_task's part in user memory: every region and the stack go, so that
        no frame is left with only this task's mappings. */
    method Exit(t: nat)
      requires Valid() && t in spaces
      modifies `mem, `pte, `ro, `spaces, al, al.pages, al.heads
      ensures Valid() && spaces == old(spaces) - {t}
      ensures StepsTo(old(St()), Op.Unmap(t, old(AllPages(spaces[t])) + [STACK_BASE]), St())
      ensures Foreign(St()) == old(Foreign(St()))
      ensures forall k :: k in pte <==> k in old(pte) && k.0 != t
      ensures forall f :: f in mem ==> f in al.Live() && exists k :: k in pte && k.0 != t && pte[k].frame == f
    {
      hide Inv, Layout, Foreign, DropPages, AllPages, ViewOf, Eager, B.Allocator.Valid, B.Allocator.Live;
      ghost var s := St();
      PagesMapped(spaces, pte, ro, t);
      ghost var vs := AllPages(spaces[t]);
      ExitLayout(spaces, s, t);
      FreeAll(t);
      StackLast(s, t, vs);
      FreePage(t, STACK_BASE);
      assert St() == DropPages(s, t, vs + [STACK_BASE]);
      StepsRefine(s, Op.Unmap(t, vs + [STACK_BASE]), St());
      spaces := spaces - {t};
      NoOrphans(St());
    }

    /** Allocating a frame and mapping it, as brk, mmap and execv_inner do page by
        page; a page that is mapped already, like a lack of memory, is fatal. */
    method MapPage(t: nat, v: nat, data: Bytes, prot: Prot) returns (ok: bool, ghost frame: nat)
      requires al.Valid() && (t, STACK_BASE) in pte
      modifies `mem, `pte, `ro, al, al.pages, al.heads
      ensures al.Valid() && (!ok <==> (t, v) in old(pte) || BuddyModel.NoRoom(old(al.Live()), 8))
      ensures !ok ==> St() == old(St())
      ensures ok ==> (t, v) !in old(pte) && frame !in old(al.Live())
      ensures ok ==> St() == Fresh(old(St()), (t, v), frame, data, prot)
    {
      hide B.Allocator.Valid, B.Allocator.Live, BuddyModel.NoRoom;
      ok, frame := PutPage(t, v, data, prot);
      if ok && prot.Segment? {
        ro := ro[(t, v) := prot.exec];
      }
    }

    /** The frame and the entry alone. */
    method PutPage(t: nat, v: nat, data: Bytes, prot: Prot) returns (ok: bool, ghost frame: nat)
      requires al.Valid() && (t, STACK_BASE) in pte
      modifies `mem, `pte, al, al.pages, al.heads
      ensures al.Valid() && (!ok <==> (t, v) in old(pte) || BuddyModel.NoRoom(old(al.Live()), 8))
      ensures !ok ==> St() == old(St())
      ensures ok ==> (t, v) !in old(pte) && frame !in old(al.Live())
      ensures ok ==> St() == Fresh(old(St()), (t, v), frame, data, Plain).(pte := old(pte)[(t, v) := Entry(frame, prot)])
    {
      hide B.Allocator.Valid, B.Allocator.Live, BuddyModel.NoRoom;
      frame := 0;
      if (t, v) in pte {
        return false, frame;
      }
      B.OrdOfSmall();
      al.Sized();
      var a := al.Alloc(PAGE);
      if a.None? {
        return false, frame;
      }
      var f := (a.value - B.OFFT) / PAGE;
      frame := f;
      mem := mem[f := data];
      pte := pte[(t, v) := Entry(f, prot)];
      return true, frame;
    }

    /** A whole region of new pages with the given contents. */
    method MapRegion(t: nat, r: Region, datas: seq<Bytes>, prot: Prot) returns (ok: bool, ghost ops: seq<Op>)
      requires al.Valid() && Inv(St()) && |datas| == r.len && (t, STACK_BASE) in pte
      requires forall i :: 0 <= i < r.len ==> |datas[i]| == PAGE
      requires forall k :: k in ro ==> k in pte
      modifies `mem, `pte, `ro, al, al.pages, al.heads
      ensures al.Valid()
      ensures ok ==> Added(old(St()), St(), t, r.Pages(), datas, prot) && RunFrom(old(St()), ops) == Some(St())
      ensures ok ==> forall v :: v in r.Pages() ==> (t, v) !in old(pte)
      ensures !ok ==> BuddyModel.NoRoom(al.Live(), 8) || exists v :: v in r.Pages() && (t, v) in old(pte)
    {
      hide Inv, Added, BuddyModel.NoRoom, B.Allocator.Valid, B.Allocator.Live;
      ghost var s := St();
      AddedNone(s, t, prot);
      assert r.Pages()[..0] == [] && datas[..0] == [];
      ops := [];
      for i := 0 to r.len
        invariant al.Valid() && Added(s, St(), t, r.Pages()[..i], datas[..i], prot) && RunFrom(s, ops) == Some(St())
        invariant forall v :: v in r.Pages()[..i] ==> (t, v) !in s.pte
      {
        var v := r.base + i;
        PagesPrefix(r, i);
        assert datas[..i + 1] == datas[..i] + [datas[i]];
        ghost var s0, f := St(), 0;
        AddedHere(s, s0, t, r, i, datas[..i], prot);
        var b;
        b, f := MapPage(t, v, datas[i], prot);
        if !b {
          return false, ops;
        }
        RunFromSnoc(s, ops, s0, MapIn((t, v), f, datas[i], prot), St());
        ops := ops + [MapIn((t, v), f, datas[i], prot)];
        AddedStep(s, s0, t, r.Pages()[..i], datas[..i], prot, v, f, datas[i]);
      }
      assert r.Pages()[..r.len] == r.Pages() && datas[..r.len] == datas;
      return true, ops;
    }

    /** The pages of brk and mmap as first mapped, holding junk: z is the state they
        are meant to reach, zeroed and writable. */
    method MapJunk(t: nat, r: Region, junk: seq<Bytes>, prot: Prot) returns (res: GrowResult, ghost z: State, ghost ops: seq<Op>)
      requires al.Valid() && Inv(St()) && |junk| == r.len && (t, STACK_BASE) in pte && forall k :: k in ro ==> k in pte
      modifies `mem, `pte, al, al.pages, al.heads
      ensures al.Valid() && !res.Aborted?
      ensures res.Taken? ==> exists v :: v in r.Pages() && (t, v) in old(pte)
      ensures res.NoFrame? ==> BuddyModel.NoRoom(al.Live(), 8) && (r.len == 1 ==> BuddyModel.NoRoom(old(al.Live()), 8))
      ensures res.Zeroed? ==> Added(old(St()), z, t, r.Pages(), Zeros(r.len), Plain) && RunFrom(old(St()), ops) == Some(z)
      ensures res.Zeroed? ==> Behind(z, St(), t, r.Pages(), prot) && JustMapped(z, t, r.Pages())
      ensures res.Zeroed? ==> forall v :: v in r.Pages() ==> (t, v) !in old(pte)
    {
      hide Inv, Added, Behind, JustMapped, Fresh, BuddyModel.NoRoom, B.Allocator.Valid, B.Allocator.Live;
      ghost var s := St();
      z, ops := s, [];
      JunkNone(s, t, prot);
      assert r.Pages()[..0] == [] && Zeros(r.len)[..0] == [];
      for i := 0 to r.len
        invariant al.Valid() && (i == 0 ==> St() == s) && (t, STACK_BASE) in pte
        invariant Added(s, z, t, r.Pages()[..i], Zeros(r.len)[..i], Plain) && RunFrom(s, ops) == Some(z)
        invariant Behind(z, St(), t, r.Pages()[..i], prot) && JustMapped(z, t, r.Pages()[..i])
        invariant forall v :: v in r.Pages()[..i] ==> (t, v) !in s.pte
      {
        var v := r.base + i;
        PagesPrefix(r, i);
        ghost var s0, f := St(), 0;
        JunkHere(s, z, s0, t, r, i, prot, Zeros(r.len)[..i]);
        var ok;
        ok, f := PutPage(t, v, junk[i], prot);
        if !ok {
          res := if (t, v) in pte then Taken else NoFrame;
          return;
        }
        JunkNext(s, z, s0, t, r.Pages()[..i], Zeros(r.len)[..i], prot, v, f, junk[i], Zeros(r.len)[i], ops);
        assert Zeros(r.len)[..i + 1] == Zeros(r.len)[..i] + [Zeros(r.len)[i]];
        ghost var op := MapIn((t, v), f, Zeros(r.len)[i], Plain);
        z, ops := Fresh(z, (t, v), f, Zeros(r.len)[i], Plain), ops + [op];
      }
      assert r.Pages()[..r.len] == r.Pages() && Zeros(r.len)[..r.len] == Zeros(r.len);
      res := Zeroed;
    }

    /** One page of the fill, which the kernel does through the user's own mapping: a
        page it may not write to is a fault, and a new frame is not copy-on-write. */
    method ZeroPage(t: nat, v: nat) returns (r: Outcome)
      requires al.Valid() && t in spaces && NewPage(t, v) && v != STACK_BASE
      modifies `mem, `pte, al, al.pages, al.heads
      ensures al.Valid() && old((t, v) in pte)
      ensures old(pte[(t, v)]).writable ==> r.Resolved? && St() == Fill(old(St()), (t, v), Zeros(1)[0])
      ensures !old(pte[(t, v)]).writable ==> r.Fatal?
    {
      if pte[(t, v)].writable {
        hide B.Allocator.Valid, B.Allocator.Live;
        mem := mem[pte[(t, v)].frame := Zeros(1)[0]];
        return Resolved;
      }
      ghost var copy;
      r, copy := Fault(t, v);
    }

    ghost predicate NewPage(t: nat, v: nat)
      reads this, al, al.pages
    {
      Faultable(t, v) && al.Live()[pte[(t, v)].frame] == Block(MAX_ORD, 1, Used)
    }

    /** The fill: it reaches the state the pages are meant for, unless they were mapped
        read-only, and then it ends at the first of them. */
    method ZeroPages(t: nat, r: Region, prot: Prot, ghost s: State, ghost z: State) returns (ok: bool)
      requires al.Valid() && t in spaces && STACK_BASE !in r.Pages()
      requires Added(s, z, t, r.Pages(), Zeros(r.len), Plain) && Behind(z, St(), t, r.Pages(), prot)
      requires JustMapped(z, t, r.Pages())
      modifies `mem, `pte, al, al.pages, al.heads
      ensures !ok <==> r.len > 0 && !prot.Plain?
      ensures ok ==> al.Valid() && St() == z
    {
      hide Added, Behind, JustMapped, Zeros, FindRegion, B.Allocator.Valid, B.Allocator.Live;
      assert r.Pages()[0..] == r.Pages();
      for i := 0 to r.len
        invariant al.Valid() && Behind(z, St(), t, r.Pages()[i..], prot) && (i > 0 ==> prot.Plain?)
      {
        var v := r.base + i;
        assert r.Pages()[i] == v && r.Pages()[i..] == [v] + r.Pages()[i + 1..];
        JunkAt(s, z, St(), t, r, i, prot);
        ghost var s0 := St();
        var o := ZeroPage(t, v);
        if !o.Resolved? {
          return false;
        }
        ZeroStep(z, s0, t, r, i);
      }
      assert r.Pages()[r.len..] == [];
      BehindNone(z, St(), t, prot);
      return true;
    }

    /** brk and mmap: n zeroed pages at the end of the region. The kernel zeroes them
        through the mapping it has just made, so a read-only mmap of at least one
        page is fatal, and nothing else is once the pages are mapped. */
    method Grow(t: nat, mmap: bool, n: nat, perm: Perm, junk: seq<Bytes>) returns (res: GrowResult, ghost ops: seq<Op>)
      requires Valid() && t in spaces && |junk| == n && (!mmap ==> perm == ReadWrite)
      modifies `mem, `pte, `spaces, al, al.pages, al.heads
      ensures res.Taken? ==> exists v :: v in GrowthOf(old(spaces[t]), mmap, n).Pages() && (t, v) in old(pte)
      ensures res.NoFrame? ==> BuddyModel.NoRoom(al.Live(), 8) && (n == 1 ==> BuddyModel.NoRoom(old(al.Live()), 8))
      ensures res.Zeroed? || res.Aborted? ==> (res.Aborted? <==> n > 0 && perm != ReadWrite)
      ensures res.Zeroed? ==> Valid() && Foreign(St()) == old(Foreign(St())) && RunFrom(old(St()), ops) == Some(St())
      ensures res.Zeroed? ==> var sp := old(spaces[t]);
        && spaces == old(spaces)[t := if mmap then Longer(sp, n, 0) else Longer(sp, 0, n)]
        && ViewOf(St()) == old(ViewOf(St())) + Contents(t, GrowthOf(sp, mmap, n).Pages(), Zeros(n))
    {
      hide BuddyModel.NoRoom;
      hide Inv, Layout, Foreign, ViewOf, Contents, AllPages, FindRegion, B.Allocator.Valid, B.Allocator.Live;
      var sp := spaces[t];
      var r := GrowthOf(sp, mmap, n);
      var sp' := if mmap then Longer(sp, n, 0) else Longer(sp, 0, n);
      ghost var s, sps, z := St(), spaces, St();
      PageAt(spaces, pte, ro, t, STACK_BASE);
      RoMapped(spaces, pte, ro);
      spaces := spaces[t := sp'];
      res, z, ops := MapJunk(t, r, junk, ProtOf(perm));
      if !res.Zeroed? {
        return;
      }
      var ok := ZeroPages(t, r, ProtOf(perm), s, z);
      if !ok {
        res := Aborted;
        return;
      }
      LongerGrown(sps, s.pte, s.ro, t, mmap, n);
      GrownLayout(sps, s, St(), t, sp', r.Pages(), Plain);
    }

    /** One PT_LOAD segment of execv_inner: its pages get the segment's contents
        and permissions. */
    method LoadSegment(t: nat, r: Region, image: seq<Bytes>) returns (ok: bool, ghost ops: seq<Op>)
      requires Valid() && t in spaces && |image| == r.len && forall i :: 0 <= i < r.len ==> |image[i]| == PAGE
      modifies `mem, `pte, `ro, `spaces, al, al.pages, al.heads
      ensures ok ==> Valid() && Foreign(St()) == old(Foreign(St())) && RunFrom(old(St()), ops) == Some(St())
      ensures ok ==> spaces == old(spaces)[t := old(spaces[t]).(program := old(spaces[t].program) + [r])]
      ensures ok ==> ViewOf(St()) == old(ViewOf(St())) + Contents(t, r.Pages(), image)
      ensures !ok ==> BuddyModel.NoRoom(al.Live(), 8) || exists v :: v in r.Pages() && (t, v) in old(pte)
    {
      hide BuddyModel.NoRoom;
      hide Inv, Layout, Foreign, ViewOf, Contents, AllPages, FindRegion, B.Allocator.Valid, B.Allocator.Live;
      ghost var s := St();
      PageAt(spaces, pte, ro, t, STACK_BASE);
      RoMapped(spaces, pte, ro);
      ok, ops := MapRegion(t, r, image, ProtOf(r.perm));
      if !ok {
        return;
      }
      var sp' := spaces[t].(program := spaces[t].program + [r]);
      SegmentGrown(spaces, s.pte, s.ro, t, r);
      GrownLayout(spaces, s, St(), t, sp', r.Pages(), ProtOf(r.perm));
      spaces := spaces[t := sp'];
    }

    /** dabt_handler on a write to page v. It resolves the fault exactly when the
        region it finds is writable and the frame is flagged copy-on-write. */
    method Fault(t: nat, v: nat) returns (r: Outcome, ghost copy: nat)
      requires al.Valid() && t in spaces
      requires FindRegion(spaces[t], v).Some? ==> Faultable(t, v) && v != STACK_BASE && al.Live()[pte[(t, v)].frame].ord == MAX_ORD
      modifies `mem, `pte, al, al.pages, al.heads
      ensures al.Valid() && (r.Fatal? ==> St() == old(St()))
      ensures r.Fatal? <==> !old(CowPage(t, v))
      ensures r.OutOfMemory? <==> old(CowPage(t, v)) && old(al.Live()[pte[(t, v)].frame].refCnt) > 1
                                  && BuddyModel.NoRoom(old(al.Live()), 8)
      ensures r.Resolved? ==> old(CowPage(t, v))
      ensures r.Resolved? && old(al.Live()[pte[(t, v)].frame].refCnt) > 1 ==> copy !in old(al.Live())
      ensures r.Resolved? ==> old(Faultable(t, v)) && St() == Unshare(old(St()), (t, v), copy)
    {
      hide B.Allocator.Valid, B.Allocator.Live;
      var reg := FindRegion(spaces[t], v);
      copy := 0;
      if reg.None? || reg.value.perm != ReadWrite {
        return Fatal, copy;
      }
      r, copy := Resolve(t, v);
    }

    /** cow_action on the frame of page v, with dabt_handler's two closures. */
    method Resolve(t: nat, v: nat) returns (r: Outcome, ghost copy: nat)
      requires al.Valid() && Faultable(t, v) && v != STACK_BASE && al.Live()[pte[(t, v)].frame].ord == MAX_ORD
      modifies `mem, `pte, al, al.pages, al.heads
      ensures r.Fatal? ==> St() == old(St())
      ensures r.Fatal? <==> old(al.Live()[pte[(t, v)].frame]).flags != Cow
      ensures r.OutOfMemory? <==> old(al.Live()[pte[(t, v)].frame]).flags == Cow && old(al.Live()[pte[(t, v)].frame]).refCnt > 1
                                  && BuddyModel.NoRoom(old(al.Live()), 8)
      ensures al.Valid()
      ensures r.Resolved? && old(al.Live()[pte[(t, v)].frame].refCnt) > 1 ==> copy !in old(al.Live())
      ensures r.Resolved? ==> old(Faultable(t, v)) && St() == Unshare(old(St()), (t, v), copy)
    {
      hide B.Allocator.Valid, B.Allocator.Live;
      copy := 0;
      MappedFrame((t, v));
      var f := pte[(t, v)].frame;
      var cow := al.CowAction(Addr(f), PAGE);
      if cow.None? {
        return Fatal, copy;
      }
      if cow.value {
        pte := pte[(t, v) := Entry(f, Plain)];
        return Resolved, copy;
      }
      BuddyModel.RoomSame(old(al.Live()), al.Live(), 8);
      hide BuddyModel.NoRoom;
      B.OrdOfSmall();
      al.Sized();
      var a := al.Alloc(PAGE);
      if a.None? {
        return OutOfMemory, copy;
      }
      var f' := (a.value - B.OFFT) / PAGE;
      copy := f';
      mem := mem[f' := mem[f]];
      pte := pte[(t, v) := Entry(f', Plain)];
      return Resolved, copy;
    }

    ghost predicate Faultable(t: nat, v: nat)
      reads this, al, al.pages
    {
      && (t, v) in pte && pte[(t, v)].frame in al.Live() && pte[(t, v)].frame in mem
      && al.Live()[pte[(t, v)].frame].refCnt > 0
    }

    /** What dabt_handler looks for: a writable region over a frame flagged Cow. */
    ghost predicate CowPage(t: nat, v: nat)
      requires t in spaces
      reads this, al, al.pages
    {
      && FindRegion(spaces[t], v).Some? && FindRegion(spaces[t], v).value.perm == ReadWrite
      && Faultable(t, v) && al.Live()[pte[(t, v)].frame].flags == Cow
    }

    lemma RegionMapped(t: nat, v: nat)
      requires Valid() && t in spaces
      ensures FindRegion(spaces[t], v).Some? ==> (t, v) in pte && Faultable(t, v)
      ensures FindRegion(spaces[t], v).Some? ==> v != STACK_BASE && al.Live()[pte[(t, v)].frame].ord == MAX_ORD
      ensures FindRegion(spaces[t], v).Some? ==> ((t, v) in ro <==> FindRegion(spaces[t], v).value.perm != ReadWrite)
      ensures (t, v) in pte && v != STACK_BASE ==> FindRegion(spaces[t], v).Some?
    {
      hide Inv, B.Allocator.Valid, B.Allocator.Live, AllPages;
      PageAt(spaces, pte, ro, t, v);
      assert LaidOut(spaces[t], t, pte, ro);
      if (t, v) in pte {
        InView(St(), (t, v));
      }
    }

    /** A store by the user: straight through a writable mapping, otherwise after
        the fault handler. It is refused exactly on pages that are not mapped or
        belong to a read-only segment. */
    method Store(t: nat, v: nat, off: nat, b: bv8) returns (r: Outcome, ghost copy: nat)
      requires Valid() && t in spaces && off < SizeOf(v)
      modifies `mem, `pte, al, al.pages, al.heads
      ensures r.Fatal? <==> (t, v) !in old(pte) || (t, v) in ro
      ensures r.OutOfMemory? <==> (t, v) in old(pte) && (t, v) !in ro && !old(pte)[(t, v)].writable && old(Faultable(t, v))
                                  && old(al.Live()[pte[(t, v)].frame].refCnt) > 1 && BuddyModel.NoRoom(old(al.Live()), 8)
      ensures r.Fatal? ==> Valid() && St() == old(St())
      ensures r.Resolved? ==> Valid() && StepsTo(old(St()), Op.Store((t, v), off, b, copy), St())
      ensures r.Resolved? ==> ViewOf(St()) == Eager(old(ViewOf(St())), Op.Store((t, v), off, b, copy))
    {
      hide Inv, Layout, ViewOf, B.Allocator.Valid, B.Allocator.Live, Eager;
      ghost var s, pte0 := St(), pte;
      copy := 0;
      StoreCases(t, v);
      if (t, v) in pte && pte[(t, v)].writable {
        r := Resolved;
      } else {
        RegionMapped(t, v);
        r, copy := Fault(t, v);
        if !r.Resolved? {
          return;
        }
        RemapLayout(spaces, pte0, ro, (t, v), pte[(t, v)]);
        assert pte == pte0[(t, v) := pte[(t, v)]];
      }
      var f := pte[(t, v)].frame;
      mem := mem[f := mem[f][off := b]];
      StepsRefine(s, Op.Store((t, v), off, b, copy), St());
    }

    /** What a store finds: a writable mapping, or a write fault that dabt_handler
        resolves exactly outside the read-only segments. */
    lemma StoreCases(t: nat, v: nat)
      requires Valid() && t in spaces
      ensures (t, v) in pte ==> Faultable(t, v) && |mem[pte[(t, v)].frame]| == SizeOf(v)
      ensures (t, v) in pte && pte[(t, v)].writable ==> (t, v) !in ro
      ensures (t, v) in pte && !pte[(t, v)].writable ==> v != STACK_BASE
      ensures !((t, v) in pte && pte[(t, v)].writable) ==> (CowPage(t, v) <==> (t, v) in pte && (t, v) !in ro)
    {
      hide Inv, Layout, B.Allocator.Valid, B.Allocator.Live;
      RegionMapped(t, v);
      PageAt(spaces, pte, ro, t, v);
      if (t, v) in pte {
        InView(St(), (t, v));
      }
    }

    /** A mapped frame passes the checks of dup, free and cow_action. */
    lemma MappedFrame(k: Key)
      requires al.Valid() && k in pte && pte[k].frame in al.Live() && al.Live()[pte[k].frame].ord == OrdOf(k.1)
      ensures var f := pte[k].frame;
        && f in al.Live() && f < al.pages.Length && al.Lookup(Addr(f)) == Some(f) && (Addr(f) - B.OFFT) / PAGE == f
        && al.pages[f].refCnt > 0 && al.pages[f].flags != Mid
        && al.Live()[f] == Block(al.pages[f].ord, al.pages[f].refCnt, al.pages[f].flags)
        && al.Live()[f].ord == OrdOf(k.1)
        && BlockPages(OrdOf(k.1)) * PAGE == if k.1 == STACK_BASE then 2 * PAGE else PAGE
    {
      al.LiveHead(pte[k].frame);
    }
  }

  lemma DroppedInv(s: State, s': State, t: nat, vs: seq<nat>)
    requires Dropped(s, s', t, vs)
    ensures Inv(s')
  {}

  lemma PrefixOf(vs: seq<nat>, ws: seq<nat>)
    requires Distinct(vs + ws)
    ensures Distinct(vs) && forall v :: v in vs ==> v in vs + ws
  {
    assert forall i :: 0 <= i < |vs| ==> (vs + ws)[i] == vs[i];
  }

  lemma CanSharePrefix(s: State, p: nat, c: nat, vs: seq<nat>, ws: seq<nat>)
    requires Distinct(vs + ws) && CanShare(s, p, c, vs + ws)
    ensures Distinct(vs) && CanShare(s, p, c, vs)
  {
    PrefixOf(vs, ws);
  }

  lemma NoPages(s: State, p: nat, c: nat)
    ensures SharePages(s, p, c, []) == s
  {}

  /** The pages fork visits after region i of the program. */
  ghost function RestPages(sp: Space, i: nat): (rest: seq<nat>)
    requires i < |sp.program|
    ensures AllPages(sp) == ProgramPages(sp.program[..i]) + sp.program[i].Pages() + rest
    ensures ProgramPages(sp.program[..i + 1]) == ProgramPages(sp.program[..i]) + sp.program[i].Pages()
  {
    ProgramTail(sp.program, i)
      + sp.brk.Pages() + sp.mmap.Pages()
  }

  ghost function ProgramTail(rs: seq<Region>, i: nat): (tail: seq<nat>)
    requires i < |rs|
    ensures ProgramPages(rs) == ProgramPages(rs[..i]) + rs[i].Pages() + tail
    ensures ProgramPages(rs[..i + 1]) == ProgramPages(rs[..i]) + rs[i].Pages()
    decreases |rs|
  {
    assert rs[..i + 1][..i] == rs[..i];
    if i == |rs| - 1 then
      assert rs[..i + 1] == rs;
      []
    else
      var rs' := rs[..|rs| - 1];
      assert rs'[..i] == rs[..i];
      ProgramTail(rs', i) + rs[|rs| - 1].Pages()
  }

  /** Copying the stack after the regions gives the state fork is meant to reach. */
  lemma ForkDone(s: State, p: nat, c: nat, f: nat, junk: Bytes, vs: seq<nat>)
    requires Enabled(s, Op.Fork(p, c, vs, f))
    ensures var s1 := Fresh(s, (c, STACK_BASE), f, junk, Plain);
      && SharePages(s1, p, c, vs).mem == s1.mem
      && SharePages(s1, p, c, vs).(mem := s1.mem[f := s.mem[s.pte[(p, STACK_BASE)].frame]]) == Apply(s, Op.Fork(p, c, vs, f))
  {
    hide SharePages;
    var s1 := Fresh(s, (c, STACK_BASE), f, junk, Plain);
    var data := s.mem[s.pte[(p, STACK_BASE)].frame];
    SharePagesMem(s1, p, c, vs, s1.mem[f := data]);
    assert s1.(mem := s1.mem[f := data]) == Fresh(s, (c, STACK_BASE), f, data, Plain);
  }

  lemma ForkStep(s: State, op: Op, s': State)
    requires Inv(s) && op.Fork? && Enabled(s, op) && s' == Apply(s, op)
    ensures StepsTo(s, op, s') && Inv(s') && ViewOf(s') == EagerFork(ViewOf(s), op.p, op.c)
  {
    hide Inv, ViewOf, Foreign, Enabled, Apply, EagerFork;
    StepsRefine(s, op, s');
  }

  lemma ForkEnabled(spaces: map<nat, Space>, s: State, p: nat, c: nat, stack: nat)
    requires Inv(s) && Layout(spaces, s.pte, s.ro) && p in spaces && c !in spaces && stack !in s.live
    ensures Enabled(s, Op.Fork(p, c, AllPages(spaces[p]), stack))
  {
    hide AllPages, FindRegion, Inv;
    assert LaidOut(spaces[p], p, s.pte, s.ro);
    InView(s, (p, STACK_BASE));
    assert forall v :: v in AllPages(spaces[p]) ==> PageLaidOut(spaces[p], p, s.pte, s.ro, v);
    assert forall v :: v != STACK_BASE && (p, v) in s.pte ==> PageLaidOut(spaces[p], p, s.pte, s.ro, v);
  }

  const EmptySpace: Space := Space([], Region(MMAP_BASE, 0, ReadWrite), Region(BRK_BASE, 0, ReadWrite))

  lemma SpawnLayout(spaces: map<nat, Space>, s: State, t: nat, f: nat, data: Bytes)
    requires Inv(s) && Layout(spaces, s.pte, s.ro) && t !in spaces && f !in s.live && |data| == SizeOf(STACK_BASE)
    ensures var s' := Fresh(s, (t, STACK_BASE), f, data, Plain);
      && (t, STACK_BASE) !in s.pte && (t, STACK_BASE) !in s.ro
      && Inv(s') && Layout(spaces[t := EmptySpace], s'.pte, s'.ro)
  {
    hide Inv, AllPages, FindRegion, LaidOut, SizeOf, OrdOf;
    var s' := Fresh(s, (t, STACK_BASE), f, data, Plain);
    FreshKeeps(s, (t, STACK_BASE), f, data, Plain);
    forall u | u in spaces
      ensures LaidOut(spaces[u], u, s'.pte, s'.ro)
    {
      StackKept(spaces[u], u, s.pte, s.ro);
      LaidOutFrame(spaces[u], u, s.pte, s.ro, s'.pte, s'.ro);
    }
    NewLaidOut(t, s'.pte, s'.ro);
  }

  /** A task with a stack and nothing else. */
  lemma NewLaidOut(t: nat, pte: map<Key, Pte>, ro: map<Key, bool>)
    requires (t, STACK_BASE) in pte && pte[(t, STACK_BASE)].writable
    requires forall k :: (k in pte || k in ro) && k.0 == t ==> k == (t, STACK_BASE) && k !in ro
    ensures LaidOut(EmptySpace, t, pte, ro)
  {
    assert AllPages(EmptySpace) == [];
    assert forall v :: FindRegion(EmptySpace, v).None?;
    hide AllPages, FindRegion;
    forall v: nat | v != STACK_BASE
      ensures PageLaidOut(EmptySpace, t, pte, ro, v)
    {
      assert (t, v) != (t, STACK_BASE);
    }
  }

  lemma NoDrops(s: State, t: nat)
    ensures DropPages(s, t, []) == s
  {}

  lemma PagesMapped(spaces: map<nat, Space>, pte: map<Key, Pte>, ro: map<Key, bool>, t: nat)
    requires Layout(spaces, pte, ro) && t in spaces
    ensures Distinct(AllPages(spaces[t])) && STACK_BASE !in AllPages(spaces[t])
    ensures (t, STACK_BASE) in pte && forall v :: v in AllPages(spaces[t]) ==> (t, v) in pte
  {
    hide AllPages, FindRegion;
    assert LaidOut(spaces[t], t, pte, ro);
    assert forall v :: v in AllPages(spaces[t]) ==> PageLaidOut(spaces[t], t, pte, ro, v);
  }

  lemma FreeLayout(spaces: map<nat, Space>, s: State, t: nat)
    requires Inv(s) && Layout(spaces, s.pte, s.ro) && t in spaces
    ensures var s' := DropPages(s, t, AllPages(spaces[t])); Layout(spaces[t := EmptySpace], s'.pte, s'.ro)
  {
    hide Inv, AllPages, FindRegion, DropPages, LaidOut, Dropped, Distinct;
    var vs := AllPages(spaces[t]);
    var s' := DropPages(s, t, vs);
    PagesMapped(spaces, s.pte, s.ro, t);
    DropPagesKeeps(s, t, vs);
    DroppedMeans(s, s', t, vs);
    StackKept(spaces[t], t, s.pte, s.ro);
    DropPagesElsewhere(s, t, vs, (t, STACK_BASE));
    EmptyLaidOut(spaces[t], t, s.pte, s.ro, s'.pte, s'.ro);
    forall u | u in spaces && u != t
      ensures LaidOut(spaces[u], u, s'.pte, s'.ro)
    {
      StackKept(spaces[u], u, s.pte, s.ro);
      DropPagesElsewhere(s, t, vs, (u, STACK_BASE));
      LaidOutFrame(spaces[u], u, s.pte, s.ro, s'.pte, s'.ro);
    }
  }

  lemma EmptyLaidOut(sp: Space, t: nat, pte: map<Key, Pte>, ro: map<Key, bool>, pte': map<Key, Pte>, ro': map<Key, bool>)
    requires LaidOut(sp, t, pte, ro) && pte'.Keys == pte.Keys - KeysOf(t, AllPages(sp)) && ro' == ro - KeysOf(t, AllPages(sp))
    requires (t, STACK_BASE) in pte' && pte'[(t, STACK_BASE)].writable
    ensures LaidOut(EmptySpace, t, pte', ro')
  {
    assert AllPages(EmptySpace) == [];
    assert forall v :: FindRegion(EmptySpace, v).None?;
    hide AllPages, FindRegion;
    forall v: nat | v != STACK_BASE
      ensures (t, v) !in pte' && (t, v) !in ro'
    {
      assert PageLaidOut(sp, t, pte, ro, v);
    }
  }

  lemma ExitLayout(spaces: map<nat, Space>, s: State, t: nat)
    requires Inv(s) && Layout(spaces, s.pte, s.ro) && t in spaces
    ensures var vs := AllPages(spaces[t]) + [STACK_BASE];
      var s' := DropPages(s, t, vs);
      && Distinct(vs) && (forall v :: v in vs ==> (t, v) in s.pte)
      && Layout(spaces - {t}, s'.pte, s'.ro)
      && (forall k :: k in s'.pte <==> k in s.pte && k.0 != t)
  {
    hide Inv, AllPages, FindRegion, DropPages;
    var vs := AllPages(spaces[t]) + [STACK_BASE];
    PagesMapped(spaces, s.pte, s.ro, t);
    var s' := DropPages(s, t, vs);
    DropPagesKeeps(s, t, vs);
    AllKeys(spaces[t], t, s.pte, s.ro);
    forall u | u in spaces && u != t
      ensures LaidOut(spaces[u], u, s'.pte, s'.ro)
    {
      ExitOther(spaces, s, t, vs, u);
    }
  }

  lemma ExitOther(spaces: map<nat, Space>, s: State, t: nat, vs: seq<nat>, u: nat)
    requires Inv(s) && Layout(spaces, s.pte, s.ro) && u in spaces && u != t
    requires Distinct(vs) && forall v :: v in vs ==> (t, v) in s.pte
    ensures LaidOut(spaces[u], u, DropPages(s, t, vs).pte, DropPages(s, t, vs).ro)
  {
    hide Inv, AllPages, FindRegion, DropPages, LaidOut, Dropped, Distinct;
    var s' := DropPages(s, t, vs);
    DropPagesKeeps(s, t, vs);
    DroppedMeans(s, s', t, vs);
    StackKept(spaces[u], u, s.pte, s.ro);
    DropPagesElsewhere(s, t, vs, (u, STACK_BASE));
    LaidOutFrame(spaces[u], u, s.pte, s.ro, s'.pte, s'.ro);
  }

  lemma AllKeys(sp: Space, t: nat, pte: map<Key, Pte>, ro: map<Key, bool>)
    requires LaidOut(sp, t, pte, ro)
    ensures forall k :: (k in pte || k in ro) && k.0 == t ==> k in KeysOf(t, AllPages(sp) + [STACK_BASE])
  {
    hide AllPages, FindRegion;
    forall k | (k in pte || k in ro) && k.0 == t
      ensures k.1 in AllPages(sp) + [STACK_BASE]
    {
      assert k.1 != STACK_BASE ==> PageLaidOut(sp, t, pte, ro, k.1);
    }
  }

  lemma StackLast(s: State, t: nat, vs: seq<nat>)
    requires Inv(s) && Distinct(vs + [STACK_BASE]) && forall v :: v in vs + [STACK_BASE] ==> (t, v) in s.pte
    ensures var s0, k := DropPages(s, t, vs), (t, STACK_BASE);
      && Inv(s0) && k in s0.pte && s0.pte[k].frame in s0.live && s0.live[s0.pte[k].frame].refCnt > 0
      && DropPages(s, t, vs + [STACK_BASE]) == Drop(s0, k)
  {
    var s0 := DropPages(s, t, vs);
    CanDropRest(s, t, vs, [STACK_BASE]);
    InView(s0, (t, STACK_BASE));
    assert (vs + [STACK_BASE])[..|vs|] == vs;
  }

  /** Every user frame is mapped by somebody. */
  lemma NoOrphans(s: State)
    requires Inv(s)
    ensures forall f :: f in s.mem ==> f in s.live && exists k :: k in s.pte && s.pte[k].frame == f
  {
    forall f | f in s.mem
      ensures f in s.live && exists k :: k in s.pte && s.pte[k].frame == f
    {
      assert FrameOk(s, f);
      var k :| k in Mappers(s, f);
    }
  }

  function Zeros(n: nat): (zs: seq<Bytes>)
    ensures |zs| == n && forall i :: 0 <= i < n ==> |zs[i]| == PAGE && forall j :: 0 <= j < PAGE ==> zs[i][j] == 0
  {
    seq(n, _ => seq(PAGE, _ => 0))
  }

  function Longer(sp: Space, mmap: nat, brk: nat): Space {
    sp.(mmap := sp.mmap.(len := sp.mmap.len + mmap), brk := sp.brk.(len := sp.brk.len + brk))
  }

  /** The pages that growing the mmap or brk region by n adds. */
  function GrowthOf(sp: Space, mmap: bool, n: nat): Region {
    var r := if mmap then sp.mmap else sp.brk;
    Region(r.base + r.len, n, ReadWrite)
  }

  /** sp' is sp with the pages vs added, which are to be mapped as prot says. */
  ghost predicate Grown(sp: Space, sp': Space, vs: seq<nat>, prot: Prot) {
    && sp'.brk.perm == sp'.mmap.perm == ReadWrite && Distinct(AllPages(sp'))
    && (forall v :: v in AllPages(sp') <==> v in AllPages(sp) || v in vs)
    && (forall v :: v in vs ==> FindRegion(sp', v).Some? && ProtOf(FindRegion(sp', v).value.perm) == prot)
    && (forall v :: v !in vs ==> SameRegion(sp, sp', v))
  }

  ghost predicate SameRegion(sp: Space, sp': Space, v: nat) {
    && (FindRegion(sp', v).Some? <==> FindRegion(sp, v).Some?)
    && (FindRegion(sp, v).Some? ==> FindRegion(sp', v).value.perm == FindRegion(sp, v).value.perm)
  }

  lemma RoMapped(spaces: map<nat, Space>, pte: map<Key, Pte>, ro: map<Key, bool>)
    requires Layout(spaces, pte, ro)
    ensures forall k :: k in ro ==> k in pte
  {
    hide AllPages, FindRegion;
    forall k | k in ro
      ensures k in pte
    {
      assert LaidOut(spaces[k.0], k.0, pte, ro);
      PageAt(spaces, pte, ro, k.0, k.1);
    }
  }

  lemma GrownLayout(spaces: map<nat, Space>, s: State, s': State, t: nat, sp': Space, vs: seq<nat>, prot: Prot)
    requires Layout(spaces, s.pte, s.ro) && t in spaces && Grown(spaces[t], sp', vs, prot)
    requires s'.pte.Keys == s.pte.Keys + KeysOf(t, vs) && s'.ro == s.ro + RoNew(t, vs, prot)
    requires forall k :: k in s.pte ==> s'.pte[k] == s.pte[k]
    requires forall v :: v in vs ==> (t, v) !in s.pte
    ensures Layout(spaces[t := sp'], s'.pte, s'.ro)
  {
    hide AllPages, FindRegion, Grown;
    forall u | u in spaces && u != t
      ensures LaidOut(spaces[u], u, s'.pte, s'.ro)
    {
      assert LaidOut(spaces[u], u, s.pte, s.ro);
      LaidOutFrame(spaces[u], u, s.pte, s.ro, s'.pte, s'.ro);
    }
    assert LaidOut(spaces[t], t, s.pte, s.ro);
    GrownLaidOut(spaces[t], sp', t, s, s', vs, prot);
  }

  lemma GrownLaidOut(sp: Space, sp': Space, t: nat, s: State, s': State, vs: seq<nat>, prot: Prot)
    requires LaidOut(sp, t, s.pte, s.ro) && Grown(sp, sp', vs, prot)
    requires s'.pte.Keys == s.pte.Keys + KeysOf(t, vs) && s'.ro == s.ro + RoNew(t, vs, prot)
    requires forall k :: k in s.pte ==> s'.pte[k] == s.pte[k]
    requires forall v :: v in vs ==> (t, v) !in s.pte
    ensures LaidOut(sp', t, s'.pte, s'.ro)
  {
    hide AllPages, FindRegion, Distinct;
    assert STACK_BASE !in vs && SameRegion(sp, sp', STACK_BASE);
    assert forall v :: v != STACK_BASE && PageLaidOut(sp, t, s.pte, s.ro, v) ==> PageLaidOut(sp', t, s'.pte, s'.ro, v) by {
      forall v | v != STACK_BASE && PageLaidOut(sp, t, s.pte, s.ro, v)
        ensures PageLaidOut(sp', t, s'.pte, s'.ro, v)
      {
        if v in vs { assert v !in AllPages(sp); } else { assert SameRegion(sp, sp', v); }
      }
    }
  }

  lemma InsertDistinct(a: seq<nat>, b: seq<nat>, vs: seq<nat>)
    requires Distinct(a + b) && Distinct(vs) && forall v :: v in vs ==> v !in a + b
    ensures Distinct(a + vs + b)
  {
    SplitDistinct(a, b);
    JoinDistinct(a, vs);
    JoinDistinct(a + vs, b);
  }

  /** The pages of a task that a new run of pages must avoid. */
  lemma FreshPages(spaces: map<nat, Space>, pte: map<Key, Pte>, ro: map<Key, bool>, t: nat, vs: seq<nat>)
    requires Layout(spaces, pte, ro) && t in spaces && forall v :: v in vs ==> (t, v) !in pte
    ensures var sp := spaces[t];
      && Distinct(AllPages(sp)) && sp.brk.perm == sp.mmap.perm == ReadWrite
      && (forall v :: v in vs ==> v !in AllPages(sp) && FindRegion(sp, v).None?)
  {
    hide AllPages, FindRegion, Distinct;
    assert LaidOut(spaces[t], t, pte, ro);
    forall v | v in vs
      ensures v !in AllPages(spaces[t]) && FindRegion(spaces[t], v).None?
    {
      PageAt(spaces, pte, ro, t, v);
    }
  }

  lemma LongerGrown(spaces: map<nat, Space>, pte: map<Key, Pte>, ro: map<Key, bool>, t: nat, mmap: bool, n: nat)
    requires Layout(spaces, pte, ro) && t in spaces
    requires forall v :: v in GrowthOf(spaces[t], mmap, n).Pages() ==> (t, v) !in pte
    ensures Grown(spaces[t], if mmap then Longer(spaces[t], n, 0) else Longer(spaces[t], 0, n),
                  GrowthOf(spaces[t], mmap, n).Pages(), Plain)
  {
    var sp, r := spaces[t], GrowthOf(spaces[t], mmap, n);
    FreshPages(spaces, pte, ro, t, r.Pages());
    LongerPages(sp, mmap, n);
    LongerRegions(sp, mmap, n);
  }

  lemma LongerPages(sp: Space, mmap: bool, n: nat)
    requires Distinct(AllPages(sp)) && forall v :: v in GrowthOf(sp, mmap, n).Pages() ==> v !in AllPages(sp)
    ensures var sp' := if mmap then Longer(sp, n, 0) else Longer(sp, 0, n);
      && Distinct(AllPages(sp'))
      && forall v :: v in AllPages(sp') <==> v in AllPages(sp) || v in GrowthOf(sp, mmap, n).Pages()
  {
    hide ProgramPages, Distinct;
    var r := GrowthOf(sp, mmap, n);
    var a, m := ProgramPages(sp.program) + sp.brk.Pages(), sp.mmap.Pages();
    PagesDistinct(r);
    if mmap {
      LongerRegion(sp.mmap, n);
      assert a + m + [] == a + m && a + (m + r.Pages()) == a + m + r.Pages() + [];
      InsertPages(a + m, [], r.Pages());
    } else {
      LongerRegion(sp.brk, n);
      assert ProgramPages(sp.program) + (sp.brk.Pages() + r.Pages()) == a + r.Pages();
      InsertPages(a, m, r.Pages());
    }
  }

  lemma LongerRegion(r: Region, n: nat)
    ensures r.(len := r.len + n).Pages() == r.Pages() + Region(r.base + r.len, n, ReadWrite).Pages()
  {}

  lemma InsertPages(a: seq<nat>, b: seq<nat>, vs: seq<nat>)
    requires Distinct(a + b) && Distinct(vs) && forall v :: v in vs ==> v !in a + b
    ensures Distinct(a + vs + b) && forall v :: v in a + vs + b <==> v in a + b || v in vs
  {
    hide Distinct;
    InsertDistinct(a, b, vs);
  }

  lemma LongerRegions(sp: Space, mmap: bool, n: nat)
    requires sp.brk.perm == sp.mmap.perm == ReadWrite
    requires forall v :: v in GrowthOf(sp, mmap, n).Pages() ==> FindRegion(sp, v).None?
    ensures var sp', vs := if mmap then Longer(sp, n, 0) else Longer(sp, 0, n), GrowthOf(sp, mmap, n).Pages();
      && (forall v :: v in vs ==> FindRegion(sp', v).Some? && FindRegion(sp', v).value.perm == ReadWrite)
      && (forall v :: v !in vs ==> SameRegion(sp, sp', v))
  {
    hide FindFirst;
    var r := GrowthOf(sp, mmap, n);
    forall v: nat
      ensures v in r.Pages() <==> r.Has(v)
    {
      RegionPages(r, v);
    }
  }

  lemma RegionPages(r: Region, v: nat)
    ensures v in r.Pages() <==> r.Has(v)
  {
    if r.Has(v) { assert r.Pages()[v - r.base] == v; }
  }

  lemma SegmentGrown(spaces: map<nat, Space>, pte: map<Key, Pte>, ro: map<Key, bool>, t: nat, r: Region)
    requires Layout(spaces, pte, ro) && t in spaces && forall v :: v in r.Pages() ==> (t, v) !in pte
    ensures Grown(spaces[t], spaces[t].(program := spaces[t].program + [r]), r.Pages(), ProtOf(r.perm))
  {
    var sp := spaces[t];
    var sp' := sp.(program := sp.program + [r]);
    FreshPages(spaces, pte, ro, t, r.Pages());
    assert sp'.program[..|sp.program|] == sp.program;
    SegmentPages(sp, r);
    forall v: nat
      ensures r.Has(v) ==> v in r.Pages() && FindRegion(sp', v) == Some(r)
      ensures !r.Has(v) ==> v !in r.Pages() && FindRegion(sp', v) == FindRegion(sp, v)
    {
      RegionPages(r, v);
      FindFirstSnoc(sp.program, r, v);
    }
  }

  lemma SegmentPages(sp: Space, r: Region)
    requires Distinct(AllPages(sp)) && forall v :: v in r.Pages() ==> v !in AllPages(sp)
    ensures var sp' := sp.(program := sp.program + [r]);
      Distinct(AllPages(sp')) && forall v :: v in AllPages(sp') <==> v in AllPages(sp) || v in r.Pages()
  {
    var sp' := sp.(program := sp.program + [r]);
    var a, b := ProgramPages(sp.program), sp.brk.Pages() + sp.mmap.Pages();
    assert sp'.program[..|sp.program|] == sp.program;
    assert ProgramPages(sp'.program) == a + r.Pages();
    hide ProgramPages;
    assert AllPages(sp) == a + b && AllPages(sp') == a + r.Pages() + b;
    InsertDistinct(a, b, r.Pages());
  }

  lemma {:induction false} FindFirstSnoc(rs: seq<Region>, r: Region, v: nat)
    ensures FindFirst(rs + [r], v) ==
      if FindFirst(rs, v).Some? then FindFirst(rs, v) else if r.Has(v) then Some(r) else None
  {
    if rs != [] {
      FindFirstSnoc(rs[1..], r, v);
      assert (rs + [r])[1..] == rs[1..] + [r];
    }
  }

  lemma PagesDistinct(r: Region)
    ensures Distinct(r.Pages())
  {}

  lemma PagesPrefix(r: Region, i: nat)
    requires i < r.len
    ensures r.Pages()[..i + 1] == r.Pages()[..i] + [r.base + i]
    ensures r.base + i in r.Pages() && r.base + i !in r.Pages()[..i] && Distinct(r.Pages()[..i])
    ensures forall v :: v in r.Pages()[..i] ==> v in r.Pages()
  {
    assert r.Pages()[i] == r.base + i;
  }

  /** The kernel's start: the allocator takes over the memory above the kernel and
      the first task gets its stack. */
  method Boot(kEnd: nat, junk: Bytes) returns (k: Kernel, ok: bool)
    requires kEnd > 0 && B.AlignF(kEnd, PAGE) >= B.OFFT && |junk| == 2 * PAGE
    ensures k.Valid() && (ok ==> k.spaces == map[0 := EmptySpace])
    ensures ok <==> !BuddyModel.NoRoom(B.SinglePages(0, BuddyModel.NPAGES) - B.Span(B.AlignF(kEnd, PAGE), B.OFFT + B.GB), 7)
  {
    var a := new B.Allocator();
    a.Init(kEnd);
    k := new Kernel(a);
    hide Inv, Layout, B.Allocator.Valid, B.Allocator.Live, BuddyModel.NoRoom;
    ghost var stack;
    ok, stack := k.Spawn(0, junk);
  }

  /** Such a call: a read-only mmap of one page, where there is a frame for it. */
  method ReadOnlyMmap(k: Kernel, t: nat, junk: Bytes) returns (res: GrowResult)
    requires k.Valid() && t in k.spaces && !BuddyModel.NoRoom(k.al.Live(), 8)
    requires (t, k.spaces[t].mmap.base + k.spaces[t].mmap.len) !in k.pte
    modifies k, k.al, k.al.pages, k.al.heads
    ensures res.Aborted?
  {
    hide Inv, Layout, B.Allocator.Valid, B.Allocator.Live, BuddyModel.NoRoom;
    ghost var ops;
    res, ops := k.Grow(t, true, 1, ReadOnly, [junk]);
  }
}
