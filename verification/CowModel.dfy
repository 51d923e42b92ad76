/** Copy-on-write address spaces as values: physical frames shared between
    tasks, the steps the kernel takes on them, and the eager-copy specification
    they refine. A key is a task and the page at which one of its blocks is
    mapped; every block is one page, except the stack, which is two. */
module CowModel {
  import opened Frames

  type Key = (nat, nat)
  type Bytes = seq<bv8>

  const PAGE: nat := 4096
  const MMAP_BASE: nat := 0x4_0000
  const BRK_BASE: nat := 0x8_0000
  const STACK_BASE: nat := 0x20_0000

  /** A page-table entry as the user sees it: a frame, and whether user code may write
      the page and run it. It may always read it. */
  datatype Pte = Pte(frame: nat, writable: bool, exec: bool)

  /** How a new page is mapped: writable, or write-protected as part of a read-only
      program segment, which may hold code. */
  datatype Prot = Plain | Segment(exec: bool)

  function Entry(f: nat, prot: Prot): Pte { Pte(f, prot.Plain?, prot.Segment? && prot.exec) }

  /** live: the allocator's blocks; mem: the contents of the frames user memory
      lives in; pte: the mappings of all tasks; ro: the keys that belong to a
      read-only program segment, and whether it holds code. */
  datatype State = State(live: Live, mem: map<nat, Bytes>, pte: map<Key, Pte>, ro: map<Key, bool>)

  /** The page at k belongs to a segment that holds code. */
  ghost predicate Code(ro: map<Key, bool>, k: Key) { k in ro && ro[k] }

  /** What the tasks read: the state of the eager-copy specification. */
  type View = map<Key, Bytes>

  ghost function ViewOf(s: State): View {
    map k | k in s.pte && s.pte[k].frame in s.mem :: s.mem[s.pte[k].frame]
  }

  /** The size of the block mapped at page v. */
  function SizeOf(v: nat): nat { if v == STACK_BASE then 2 * PAGE else PAGE }

  function OrdOf(v: nat): nat { if v == STACK_BASE then 7 else 8 }

  ghost function Mappers(s: State, f: nat): set<Key> {
    set k | k in s.pte && s.pte[k].frame == f
  }

  /** A mapping leads to a live user frame of the right size. A writable mapping owns
      its frame, which is not flagged; a write-protected one outside the read-only
      segments is flagged copy-on-write. Only the segments that hold code can be run. */
  ghost predicate KeyOk(s: State, k: Key)
    requires k in s.pte
  {
    var e := s.pte[k];
    && e.frame in s.mem && |s.mem[e.frame]| == SizeOf(k.1)
    && e.frame in s.live && s.live[e.frame].ord == OrdOf(k.1)
    && (e.exec <==> Code(s.ro, k))
    && if e.writable then k !in s.ro && s.live[e.frame].refCnt == 1 && s.live[e.frame].flags == Used
       else k in s.ro || s.live[e.frame].flags == Cow
  }

  /** A user frame's reference count is the number of its mappings. */
  ghost predicate FrameOk(s: State, f: nat) {
    f in s.live && s.live[f].refCnt == |Mappers(s, f)| > 0
  }

  /** The sharing invariant of every run. */
  ghost predicate Inv(s: State) {
    && (forall k :: k in s.pte ==> KeyOk(s, k))
    && (forall f :: f in s.mem ==> FrameOk(s, f))
  }

  // ------------------------------------------------------------------- steps

  /** clone_region on one page: the frame gains a reference and both mappings
      lose the write permission. */
  ghost function Share(s: State, p: nat, c: nat, v: nat): State
    requires (p, v) in s.pte && s.pte[(p, v)].frame in s.live
  {
    var f := s.pte[(p, v)].frame;
    var e := Entry(f, Segment(Code(s.ro, (p, v))));
    s.(live := DupLive(s.live, f),
       pte := s.pte[(p, v) := e][(c, v) := e],
       ro := if (p, v) in s.ro then s.ro[(c, v) := s.ro[(p, v)]] else s.ro)
  }

  /** free_region on one page: the frame loses a reference, and with the last
      one goes back to the allocator. */
  ghost function Drop(s: State, k: Key): State
    requires k in s.pte && s.pte[k].frame in s.live && s.live[s.pte[k].frame].refCnt > 0
  {
    var f := s.pte[k].frame;
    State(FreeLive(s.live, f), if s.live[f].refCnt == 1 then s.mem - {f} else s.mem, s.pte - {k}, s.ro - {k})
  }

  /** A freshly allocated frame f is mapped at k. */
  ghost function Fresh(s: State, k: Key, f: nat, data: Bytes, prot: Prot): State {
    State(s.live[f := Block(OrdOf(k.1), 1, Used)], s.mem[f := data],
          s.pte[k := Entry(f, prot)],
          if prot.Segment? then s.ro[k := prot.exec] else s.ro)
  }

  /** The two outcomes of dabt_handler on a copy-on-write frame: the last owner
      takes it over, any other owner moves to a copy in the fresh frame f'. */
  ghost function Unshare(s: State, k: Key, f': nat): State
    requires k in s.pte && s.pte[k].frame in s.live && s.pte[k].frame in s.mem && s.live[s.pte[k].frame].refCnt > 0
  {
    var f := s.pte[k].frame;
    if s.live[f].refCnt == 1 then
      s.(live := CowLive(s.live, f), pte := s.pte[k := Entry(f, Plain)])
    else
      State(CowLive(s.live, f)[f' := Block(OrdOf(k.1), 1, Used)], s.mem[f' := s.mem[f]],
            s.pte[k := Entry(f', Plain)], s.ro)
  }

  /** New contents for a frame that only k maps. */
  ghost function Fill(s: State, k: Key, data: Bytes): State
    requires k in s.pte
  {
    s.(mem := s.mem[s.pte[k].frame := data])
  }

  // ------------------------------------------------------------ what they keep

  /** A frame with count one has no mapping but the one we hold. */
  lemma OneMapper(s: State, k: Key)
    requires Inv(s) && k in s.pte && KeyOk(s, k) && s.live[s.pte[k].frame].refCnt == 1
    ensures Mappers(s, s.pte[k].frame) == {k}
    ensures forall j :: j in s.pte && j != k ==> s.pte[j].frame != s.pte[k].frame
  {
    var ks := Mappers(s, s.pte[k].frame);
    assert FrameOk(s, s.pte[k].frame) && k in ks;
    assert |ks - {k}| == 0;
    forall j | j in s.pte && j != k
      ensures s.pte[j].frame != s.pte[k].frame
    {
      assert j !in ks - {k};
    }
  }

  /** Steps that move one key leave the other mappers of a frame alone. */
  lemma MappersAt(s: State, s': State, k: Key, f: nat)
    requires forall j :: j != k ==> (j in s.pte <==> j in s'.pte)
    requires forall j :: j != k && j in s.pte ==> s.pte[j].frame == s'.pte[j].frame
    ensures Mappers(s', f) == if k in s'.pte && s'.pte[k].frame == f then Mappers(s, f) + {k} else Mappers(s, f) - {k}
  {}

  lemma ShareKeeps(s: State, p: nat, c: nat, v: nat)
    requires Inv(s) && (p, v) in s.pte && v != STACK_BASE && (c, v) !in s.pte && (c, v) !in s.ro
    ensures KeyOk(s, (p, v)) && Inv(Share(s, p, c, v))
  {
    assert KeyOk(s, (p, v));
    var s' := Share(s, p, c, v);
    forall g | g in s'.mem
      ensures FrameOk(s', g)
    {
      ShareFrame(s, p, c, v, g);
    }
    forall k | k in s'.pte
      ensures KeyOk(s', k)
    {
      ShareKey(s, p, c, v, k);
    }
  }

  lemma ShareFrame(s: State, p: nat, c: nat, v: nat, g: nat)
    requires (p, v) in s.pte && KeyOk(s, (p, v)) && (c, v) !in s.pte && FrameOk(s, g)
    ensures FrameOk(Share(s, p, c, v), g)
  {
    var s' := Share(s, p, c, v);
    MappersAt(s, s', (c, v), g);
    assert (c, v) !in Mappers(s, g);
    hide Mappers, KeyOk;
  }

  lemma ShareKey(s: State, p: nat, c: nat, v: nat, k: Key)
    requires Inv(s) && (p, v) in s.pte && KeyOk(s, (p, v)) && v != STACK_BASE && (c, v) !in s.pte && (c, v) !in s.ro
    requires k in Share(s, p, c, v).pte
    ensures KeyOk(Share(s, p, c, v), k)
  {
    hide Mappers;
    if k in s.pte {
      assert KeyOk(s, k);
      if s.pte[k].writable && k != (p, v) {
        OneMapper(s, k);
      }
    }
  }

  lemma ShareView(s: State, p: nat, c: nat, v: nat)
    requires Inv(s) && (p, v) in s.pte && (c, v) !in s.pte
    ensures KeyOk(s, (p, v)) && (p, v) in ViewOf(s)
    ensures ViewOf(Share(s, p, c, v)) == ViewOf(s)[(c, v) := ViewOf(s)[(p, v)]]
  {
    assert KeyOk(s, (p, v));
  }

  lemma DropKeeps(s: State, k: Key)
    requires Inv(s) && k in s.pte
    ensures KeyOk(s, k) && FrameOk(s, s.pte[k].frame) && Inv(Drop(s, k))
  {
    assert KeyOk(s, k) && FrameOk(s, s.pte[k].frame);
    var s' := Drop(s, k);
    forall g | g in s'.mem
      ensures FrameOk(s', g)
    {
      MappersAt(s, s', k, g);
      assert FrameOk(s, g);
      assert g == s.pte[k].frame ==> k in Mappers(s, g);
    }
    forall j | j in s'.pte
      ensures KeyOk(s', j)
    {
      DropKey(s, k, j);
    }
  }

  lemma DropKey(s: State, k: Key, j: Key)
    requires Inv(s) && k in s.pte && KeyOk(s, k) && FrameOk(s, s.pte[k].frame) && j in s.pte && j != k
    ensures KeyOk(Drop(s, k), j)
  {
    hide Mappers;
    assert KeyOk(s, j);
    if s.live[s.pte[k].frame].refCnt == 1 { OneMapper(s, k); }
    if s.pte[j].writable { OneMapper(s, j); }
  }

  lemma DropView(s: State, k: Key)
    requires Inv(s) && k in s.pte
    ensures KeyOk(s, k) && FrameOk(s, s.pte[k].frame) && ViewOf(Drop(s, k)) == ViewOf(s) - {k}
  {
    assert KeyOk(s, k) && FrameOk(s, s.pte[k].frame);
    if s.live[s.pte[k].frame].refCnt == 1 {
      OneMapper(s, k);
    }
  }

  lemma FreshKeeps(s: State, k: Key, f: nat, data: Bytes, prot: Prot)
    requires Inv(s) && k !in s.pte && k !in s.ro && f !in s.live && |data| == SizeOf(k.1)
    ensures Inv(Fresh(s, k, f, data, prot))
  {
    var s' := Fresh(s, k, f, data, prot);
    NotMapped(s, f);
    forall g | g in s'.mem
      ensures FrameOk(s', g)
    {
      FreshFrame(s, k, f, data, prot, g);
    }
    forall j | j in s'.pte
      ensures KeyOk(s', j)
    {
      if j != k { assert KeyOk(s, j); }
    }
  }

  lemma FreshFrame(s: State, k: Key, f: nat, data: Bytes, prot: Prot, g: nat)
    requires k !in s.pte && Mappers(s, f) == {} && (g == f || FrameOk(s, g))
    ensures FrameOk(Fresh(s, k, f, data, prot), g)
  {
    var s' := Fresh(s, k, f, data, prot);
    MappersAt(s, s', k, g);
    if g == f { assert Mappers(s', f) == {k}; } else { assert k !in Mappers(s, g); }
  }

  lemma FreshView(s: State, k: Key, f: nat, data: Bytes, prot: Prot)
    requires Inv(s) && k !in s.pte && f !in s.live
    ensures ViewOf(Fresh(s, k, f, data, prot)) == ViewOf(s)[k := data]
  {
    NotMapped(s, f);
  }

  /** No mapping leads to a frame that is not live. */
  lemma NotMapped(s: State, f: nat)
    requires Inv(s) && f !in s.live
    ensures Mappers(s, f) == {} && f !in s.mem && forall j :: j in s.pte ==> s.pte[j].frame != f
  {
    forall j | j in s.pte
      ensures s.pte[j].frame != f
    {
      assert KeyOk(s, j);
    }
    assert f in s.mem ==> FrameOk(s, f);
  }

  lemma UnshareKeeps(s: State, k: Key, f': nat)
    requires Inv(s) && k in s.pte && k !in s.ro && !s.pte[k].writable && k.1 != STACK_BASE
    requires KeyOk(s, k) && FrameOk(s, s.pte[k].frame)
    requires s.live[s.pte[k].frame].refCnt > 1 ==> f' !in s.live
    ensures Inv(Unshare(s, k, f')) && ViewOf(Unshare(s, k, f')) == ViewOf(s)
    ensures k in Unshare(s, k, f').pte && Unshare(s, k, f').pte[k].writable
  {
    if s.live[s.pte[k].frame].refCnt == 1 {
      TakeOverKeeps(s, k, f');
    } else {
      CopyKeeps(s, k, f');
    }
  }

  lemma TakeOverKeeps(s: State, k: Key, f': nat)
    requires Inv(s) && k in s.pte && k !in s.ro && KeyOk(s, k) && s.live[s.pte[k].frame].refCnt == 1
    ensures Inv(Unshare(s, k, f')) && ViewOf(Unshare(s, k, f')) == ViewOf(s)
  {
    hide ViewOf;
    var s' := Unshare(s, k, f');
    OneMapper(s, k);
    TakeOverView(s, k, f');
    forall g | g in s'.mem
      ensures FrameOk(s', g)
    {
      assert FrameOk(s, g) && Mappers(s', g) == Mappers(s, g);
    }
    hide Mappers, KeyOk, FrameOk;
    forall j | j in s'.pte
      ensures KeyOk(s', j)
    {
      TakeOverKey(s, k, f', j);
    }
  }

  lemma TakeOverView(s: State, k: Key, f': nat)
    requires k in s.pte && KeyOk(s, k) && s.live[s.pte[k].frame].refCnt == 1
    ensures ViewOf(Unshare(s, k, f')) == ViewOf(s)
  {}

  lemma TakeOverKey(s: State, k: Key, f': nat, j: Key)
    requires Inv(s) && k in s.pte && k !in s.ro && KeyOk(s, k) && s.live[s.pte[k].frame].refCnt == 1
    requires j in s.pte && (j != k ==> s.pte[j].frame != s.pte[k].frame)
    ensures KeyOk(Unshare(s, k, f'), j)
  {
    hide Mappers;
    assert KeyOk(s, j);
  }

  lemma CopyKeeps(s: State, k: Key, f': nat)
    requires Inv(s) && k in s.pte && k !in s.ro && KeyOk(s, k) && s.live[s.pte[k].frame].refCnt > 1
    requires !s.pte[k].writable && f' !in s.live
    ensures Inv(Unshare(s, k, f')) && ViewOf(Unshare(s, k, f')) == ViewOf(s)
  {
    var s' := Unshare(s, k, f');
    NotMapped(s, f');
    forall g | g in s'.mem
      ensures FrameOk(s', g)
    {
      CopyFrame(s, k, f', g);
    }
    forall j | j in s'.pte
      ensures KeyOk(s', j)
    {
      CopyKey(s, k, f', j);
    }
    CopyView(s, k, f');
  }

  lemma CopyView(s: State, k: Key, f': nat)
    requires Inv(s) && k in s.pte && KeyOk(s, k) && s.live[s.pte[k].frame].refCnt > 1
    requires f' !in s.live && f' !in s.mem && forall j :: j in s.pte ==> s.pte[j].frame != f'
    ensures ViewOf(Unshare(s, k, f')) == ViewOf(s)
  {
    hide FrameOk, Inv;
    var s' := Unshare(s, k, f');
    forall j | j in s.pte
      ensures s'.pte[j].frame in s'.mem <==> s.pte[j].frame in s.mem
      ensures s.pte[j].frame in s.mem ==> s'.mem[s'.pte[j].frame] == s.mem[s.pte[j].frame]
    {}
  }

  lemma CopyFrame(s: State, k: Key, f': nat, g: nat)
    requires Inv(s) && k in s.pte && KeyOk(s, k) && s.live[s.pte[k].frame].refCnt > 1
    requires f' !in s.live && Mappers(s, f') == {} && (g in s.mem || g == f')
    ensures FrameOk(Unshare(s, k, f'), g)
  {
    var s' := Unshare(s, k, f');
    MappersAt(s, s', k, g);
    if g == f' {
      assert Mappers(s', f') == {k};
    } else {
      assert FrameOk(s, g);
      assert g == s.pte[k].frame <==> k in Mappers(s, g);
    }
  }

  lemma CopyKey(s: State, k: Key, f': nat, j: Key)
    requires Inv(s) && k in s.pte && k !in s.ro && KeyOk(s, k) && s.live[s.pte[k].frame].refCnt > 1
    requires !s.pte[k].writable && f' !in s.live && j in s.pte
    ensures KeyOk(Unshare(s, k, f'), j)
  {
    hide Mappers;
    assert KeyOk(s, j);
    if s.pte[j].writable { OneMapper(s, j); }
  }

  lemma FillKeeps(s: State, k: Key, data: Bytes)
    requires Inv(s) && k in s.pte && KeyOk(s, k) && s.live[s.pte[k].frame].refCnt == 1 && |data| == SizeOf(k.1)
    ensures Inv(Fill(s, k, data)) && ViewOf(Fill(s, k, data)) == ViewOf(s)[k := data]
  {
    var s' := Fill(s, k, data);
    OneMapper(s, k);
    forall g | g in s'.mem
      ensures FrameOk(s', g)
    {
      assert FrameOk(s, g) && Mappers(s', g) == Mappers(s, g);
    }
    forall j | j in s'.pte
      ensures KeyOk(s', j)
    {
      assert KeyOk(s, j);
    }
  }

  // -------------------------------------------------------------- whole regions

  ghost function KeysOf(t: nat, vs: seq<nat>): set<Key> { set v | v in vs :: (t, v) }

  /** What the specification copies: the pages vs of task p, for task c. */
  ghost function CopyOf(view: View, p: nat, c: nat, vs: seq<nat>): View {
    map v | v in vs && (p, v) in view :: (c, v) := view[(p, v)]
  }

  /** clone_region: the pages vs, first to last. */
  ghost function SharePages(s: State, p: nat, c: nat, vs: seq<nat>): State
    decreases |vs|
  {
    if vs == [] then s
    else
      var s0 := SharePages(s, p, c, vs[..|vs| - 1]);
      var v := vs[|vs| - 1];
      if (p, v) in s0.pte && s0.pte[(p, v)].frame in s0.live then Share(s0, p, c, v) else s0
  }

  /** free_region: the pages vs, first to last. */
  ghost function DropPages(s: State, t: nat, vs: seq<nat>): State
    decreases |vs|
  {
    if vs == [] then s
    else
      var s0 := DropPages(s, t, vs[..|vs| - 1]);
      var k := (t, vs[|vs| - 1]);
      if k in s0.pte && s0.pte[k].frame in s0.live && s0.live[s0.pte[k].frame].refCnt > 0 then Drop(s0, k) else s0
  }

  ghost predicate CanShare(s: State, p: nat, c: nat, vs: seq<nat>) {
    forall v :: v in vs ==> v != STACK_BASE && (p, v) in s.pte && (c, v) !in s.pte && (c, v) !in s.ro
  }

  /** The blocks of the allocator that hold no user memory. */
  ghost function Foreign(s: State): Live { s.live - s.mem.Keys }

  /** The read-only keys that cloning the pages vs adds. */
  ghost function RoCopy(ro: map<Key, bool>, p: nat, c: nat, vs: seq<nat>): map<Key, bool> {
    map v | v in vs && (p, v) in ro :: (c, v) := ro[(p, v)]
  }

  /** Cloning the pages vs of p for c took s to s'. */
  ghost predicate Shared(s: State, s': State, p: nat, c: nat, vs: seq<nat>) {
    && Inv(s') && Foreign(s') == Foreign(s)
    && s'.pte.Keys == s.pte.Keys + KeysOf(c, vs)
    && s'.ro == s.ro + RoCopy(s.ro, p, c, vs)
    && ViewOf(s') == ViewOf(s) + CopyOf(ViewOf(s), p, c, vs)
  }

  /** Cloning regions page by page copies them, as far as any task can read. */
  lemma {:induction false} SharePagesKeeps(s: State, p: nat, c: nat, vs: seq<nat>)
    requires Inv(s) && p != c && Distinct(vs) && CanShare(s, p, c, vs)
    ensures Shared(s, SharePages(s, p, c, vs), p, c, vs)
    decreases |vs|
  {
    if vs == [] {
      SharedNone(s, p, c);
    } else {
      hide Inv, Shared, ViewOf, CopyOf;
      var init, v := vs[..|vs| - 1], vs[|vs| - 1];
      InitOf(vs);
      SharePagesKeeps(s, p, c, init);
      SharedStep(s, SharePages(s, p, c, init), p, c, init, v);
    }
  }

  lemma SharedNone(s: State, p: nat, c: nat)
    requires Inv(s)
    ensures Shared(s, s, p, c, [])
  {
    hide Inv, ViewOf;
    assert CopyOf(ViewOf(s), p, c, []) == map[] && KeysOf(p, []) == {};
  }

  lemma SharedStep(s: State, s0: State, p: nat, c: nat, init: seq<nat>, v: nat)
    requires Inv(s) && p != c && Shared(s, s0, p, c, init) && v !in init
    requires v != STACK_BASE && (p, v) in s.pte && (c, v) !in s.pte && (c, v) !in s.ro
    ensures (p, v) in s0.pte && s0.pte[(p, v)].frame in s0.live
    ensures Shared(s, Share(s0, p, c, v), p, c, init + [v])
  {
    hide Inv, KeyOk, FrameOk, Mappers, ViewOf, Foreign, CopyOf, RoCopy;
    RoCopySnoc(s.ro, p, c, init, v);
    RoCopyAt(s.ro, p, c, init, (c, v));
    assert (c, v) !in s0.pte && (c, v) !in s0.ro;
    InView(s, (p, v));
    InView(s0, (p, v));
    ShareKeeps(s0, p, c, v);
    ShareView(s0, p, c, v);
    ShareForeign(s0, p, c, v);
    ShareCopy(s, s0, p, c, init, v);
    KeysOfSnoc(c, init, v);
    KeysOfSnoc(p, init, v);
  }

  lemma {:induction false} SharePagesConcat(s: State, p: nat, c: nat, vs: seq<nat>, ws: seq<nat>)
    ensures SharePages(s, p, c, vs + ws) == SharePages(SharePages(s, p, c, vs), p, c, ws)
    decreases |ws|
  {
    if ws == [] {
      assert vs + ws == vs;
    } else {
      SharePagesConcat(s, p, c, vs, ws[..|ws| - 1]);
      assert (vs + ws)[..|vs + ws| - 1] == vs + ws[..|ws| - 1];
    }
  }

  /** Cloning does not read frames, so it commutes with writing them. */
  lemma {:induction false} SharePagesMem(s: State, p: nat, c: nat, vs: seq<nat>, m: map<nat, Bytes>)
    ensures SharePages(s.(mem := m), p, c, vs) == SharePages(s, p, c, vs).(mem := m)
    ensures SharePages(s, p, c, vs).mem == s.mem
    decreases |vs|
  {
    if vs != [] { SharePagesMem(s, p, c, vs[..|vs| - 1], m); }
  }

  lemma {:induction false} SharePagesElsewhere(s: State, p: nat, c: nat, vs: seq<nat>, k: Key)
    requires k.1 !in vs
    ensures k in SharePages(s, p, c, vs).pte <==> k in s.pte
    ensures k in s.pte ==> SharePages(s, p, c, vs).pte[k] == s.pte[k]
    decreases |vs|
  {
    if vs != [] { SharePagesElsewhere(s, p, c, vs[..|vs| - 1], k); }
  }

  /** After some pages have been cloned, the rest still can be. */
  lemma CanShareRest(s: State, p: nat, c: nat, vs: seq<nat>, ws: seq<nat>)
    requires Inv(s) && p != c && Distinct(vs + ws) && CanShare(s, p, c, vs + ws)
    ensures Inv(SharePages(s, p, c, vs)) && CanShare(SharePages(s, p, c, vs), p, c, ws)
  {
    hide Inv, Shared, SharePages, RoCopy;
    SplitDistinct(vs, ws);
    SharePagesKeeps(s, p, c, vs);
    SharedInv(s, SharePages(s, p, c, vs), p, c, vs);
    forall v | v in ws
      ensures (c, v) !in RoCopy(s.ro, p, c, vs)
    {
      RoCopyAt(s.ro, p, c, vs, (c, v));
    }
  }

  lemma KeysOfSnoc(t: nat, init: seq<nat>, v: nat)
    ensures KeysOf(t, init + [v]) == KeysOf(t, init) + {(t, v)}
  {}

  /** The read-only keys once one more page is cloned. */
  lemma RoCopySnoc(ro: map<Key, bool>, p: nat, c: nat, init: seq<nat>, v: nat)
    requires p != c
    ensures var r := ro + RoCopy(ro, p, c, init);
      ro + RoCopy(ro, p, c, init + [v]) == if (p, v) in r then r[(c, v) := r[(p, v)]] else r
  {}

  lemma RoNewSnoc(ro: map<Key, bool>, t: nat, vs: seq<nat>, v: nat, prot: Prot)
    ensures var r := ro + RoNew(t, vs, prot);
      ro + RoNew(t, vs + [v], prot) == if prot.Segment? then r[(t, v) := prot.exec] else r
  {}

  lemma InitOf(vs: seq<nat>)
    requires vs != [] && Distinct(vs)
    ensures var init, v := vs[..|vs| - 1], vs[|vs| - 1];
      && vs == init + [v] && v !in init && Distinct(init)
      && forall x :: x in vs <==> x in init || x == v
  {
    var init, v := vs[..|vs| - 1], vs[|vs| - 1];
    assert vs == init + [v];
  }

  lemma InView(s: State, k: Key)
    requires Inv(s) && k in s.pte
    ensures KeyOk(s, k) && s.pte[k].frame in s.live && FrameOk(s, s.pte[k].frame) && s.live[s.pte[k].frame].refCnt > 0
    ensures k in ViewOf(s) && ViewOf(s)[k] == s.mem[s.pte[k].frame]
  {
    assert KeyOk(s, k);
    assert FrameOk(s, s.pte[k].frame);
  }

  lemma ShareForeign(s: State, p: nat, c: nat, v: nat)
    requires (p, v) in s.pte && KeyOk(s, (p, v))
    ensures Foreign(Share(s, p, c, v)) == Foreign(s)
  {}

  lemma ShareCopy(s: State, s0: State, p: nat, c: nat, init: seq<nat>, v: nat)
    requires ViewOf(s0) == ViewOf(s) + CopyOf(ViewOf(s), p, c, init) && p != c && (p, v) in ViewOf(s)
    ensures (p, v) in ViewOf(s0)
    ensures ViewOf(s0)[(c, v) := ViewOf(s0)[(p, v)]] == ViewOf(s) + CopyOf(ViewOf(s), p, c, init + [v])
  {}

  /** Freeing the pages vs of t took s to s'. */
  ghost predicate Dropped(s: State, s': State, t: nat, vs: seq<nat>) {
    && Inv(s') && Foreign(s') == Foreign(s)
    && s'.pte.Keys == s.pte.Keys - KeysOf(t, vs)
    && s'.ro == s.ro - KeysOf(t, vs)
    && ViewOf(s') == ViewOf(s) - KeysOf(t, vs)
  }

  lemma DroppedMeans(s: State, s': State, t: nat, vs: seq<nat>)
    requires Dropped(s, s', t, vs)
    ensures Inv(s') && s'.pte.Keys == s.pte.Keys - KeysOf(t, vs) && s'.ro == s.ro - KeysOf(t, vs)
  {}

  /** Freeing regions page by page takes away exactly their pages. */
  lemma {:induction false} DropPagesKeeps(s: State, t: nat, vs: seq<nat>)
    requires Inv(s) && Distinct(vs) && forall v :: v in vs ==> (t, v) in s.pte
    ensures Dropped(s, DropPages(s, t, vs), t, vs)
    decreases |vs|
  {
    if vs == [] {
      assert KeysOf(t, vs) == {};
    } else {
      hide Inv, Dropped;
      var init, v := vs[..|vs| - 1], vs[|vs| - 1];
      InitOf(vs);
      DropPagesKeeps(s, t, init);
      DroppedStep(s, DropPages(s, t, init), t, init, v);
    }
  }

  lemma DroppedStep(s: State, s0: State, t: nat, init: seq<nat>, v: nat)
    requires Dropped(s, s0, t, init) && v !in init && (t, v) in s.pte
    ensures var k := (t, v);
      && k in s0.pte && s0.pte[k].frame in s0.live && s0.live[s0.pte[k].frame].refCnt > 0
      && Dropped(s, Drop(s0, k), t, init + [v])
  {
    hide Inv, KeyOk, FrameOk, Mappers, ViewOf, Foreign;
    assert (t, v) in s0.pte;
    InView(s0, (t, v));
    DropKeeps(s0, (t, v));
    DropView(s0, (t, v));
    DropForeign(s0, (t, v));
    KeysOfSnoc(t, init, v);
    assert ViewOf(s) - KeysOf(t, init) - {(t, v)} == ViewOf(s) - KeysOf(t, init + [v]);
  }

  lemma {:induction false} DropPagesConcat(s: State, t: nat, vs: seq<nat>, ws: seq<nat>)
    ensures DropPages(s, t, vs + ws) == DropPages(DropPages(s, t, vs), t, ws)
    decreases |ws|
  {
    if ws == [] {
      assert vs + ws == vs;
    } else {
      DropPagesConcat(s, t, vs, ws[..|ws| - 1]);
      assert (vs + ws)[..|vs + ws| - 1] == vs + ws[..|ws| - 1];
    }
  }

  lemma {:induction false} DropPagesElsewhere(s: State, t: nat, vs: seq<nat>, k: Key)
    requires k !in KeysOf(t, vs)
    ensures k in DropPages(s, t, vs).pte <==> k in s.pte
    ensures k in s.pte ==> DropPages(s, t, vs).pte[k] == s.pte[k]
    decreases |vs|
  {
    if vs != [] {
      var init, v := vs[..|vs| - 1], vs[|vs| - 1];
      assert vs == init + [v];
      KeysOfSnoc(t, init, v);
      DropPagesElsewhere(s, t, init, k);
    }
  }

  /** After some pages have been freed, the rest are still mapped. */
  lemma CanDropRest(s: State, t: nat, vs: seq<nat>, ws: seq<nat>)
    requires Inv(s) && Distinct(vs + ws) && forall v :: v in vs + ws ==> (t, v) in s.pte
    ensures Inv(DropPages(s, t, vs)) && forall v :: v in ws ==> (t, v) in DropPages(s, t, vs).pte
  {
    hide Inv, DropPages;
    SplitDistinct(vs, ws);
    DropPagesKeeps(s, t, vs);
  }

  lemma DropForeign(s: State, k: Key)
    requires Inv(s) && k in s.pte && KeyOk(s, k) && FrameOk(s, s.pte[k].frame)
    ensures Foreign(Drop(s, k)) == Foreign(s)
  {}

  lemma FreshForeign(s: State, k: Key, f: nat, data: Bytes, prot: Prot)
    requires Inv(s) && f !in s.live
    ensures Foreign(Fresh(s, k, f, data, prot)) == Foreign(s)
  {
    NotMapped(s, f);
  }

  lemma UnshareForeign(s: State, k: Key, f': nat)
    requires Inv(s) && k in s.pte && KeyOk(s, k) && FrameOk(s, s.pte[k].frame)
    requires s.live[s.pte[k].frame].refCnt > 1 ==> f' !in s.live
    ensures Foreign(Unshare(s, k, f')) == Foreign(s)
  {
    if f' !in s.live { NotMapped(s, f'); }
  }

  /** Pages vs of task t with the given contents. */
  ghost function Contents(t: nat, vs: seq<nat>, datas: seq<Bytes>): View
    requires |vs| == |datas|
  {
    if vs == [] then map[]
    else Contents(t, vs[..|vs| - 1], datas[..|vs| - 1])[(t, vs[|vs| - 1]) := datas[|vs| - 1]]
  }

  /** The read-only keys that mapping the pages vs adds. */
  ghost function RoNew(t: nat, vs: seq<nat>, prot: Prot): map<Key, bool> {
    map v | v in vs && prot.Segment? :: (t, v) := prot.exec
  }

  /** Mapping fresh frames with these contents took s to s'. */
  ghost predicate Added(s: State, s': State, t: nat, vs: seq<nat>, datas: seq<Bytes>, prot: Prot)
    requires |vs| == |datas|
  {
    && Inv(s') && Foreign(s') == Foreign(s)
    && s'.pte.Keys == s.pte.Keys + KeysOf(t, vs)
    && s'.ro == s.ro + RoNew(t, vs, prot)
    && (forall k :: k in s.pte ==> s'.pte[k] == s.pte[k])
    && ViewOf(s') == ViewOf(s) + Contents(t, vs, datas)
  }

  lemma AddedNone(s: State, t: nat, prot: Prot)
    requires Inv(s)
    ensures Added(s, s, t, [], [], prot)
  {
    hide Inv, Foreign, ViewOf;
    assert KeysOf(t, []) == {} && RoNew(t, [], prot) == map[];
  }

  lemma AddedStep(s: State, s0: State, t: nat, vs: seq<nat>, datas: seq<Bytes>, prot: Prot, v: nat, f: nat, data: Bytes)
    requires |vs| == |datas| && Added(s, s0, t, vs, datas, prot)
    requires (t, v) !in s0.pte && (t, v) !in s0.ro && f !in s0.live && |data| == SizeOf(v)
    ensures Added(s, Fresh(s0, (t, v), f, data, prot), t, vs + [v], datas + [data], prot)
  {
    hide Inv, Foreign, ViewOf, RoNew, Contents;
    RoNewSnoc(s.ro, t, vs, v, prot);
    FreshKeeps(s0, (t, v), f, data, prot);
    FreshView(s0, (t, v), f, data, prot);
    FreshForeign(s0, (t, v), f, data, prot);
    KeysOfSnoc(t, vs, v);
    ContentsSnoc(ViewOf(s), t, vs, datas, v, data);
  }

  lemma ContentsSnoc(view: View, t: nat, vs: seq<nat>, datas: seq<Bytes>, v: nat, data: Bytes)
    requires |vs| == |datas|
    ensures view + Contents(t, vs + [v], datas + [data]) == (view + Contents(t, vs, datas))[(t, v) := data]
  {
    assert (vs + [v])[..|vs|] == vs && (datas + [data])[..|vs|] == datas;
  }

  // ---------------------------------------------------------------- whole runs

  /** What tasks and the kernel do to user memory. Frames named copy, stack or
      frame are the allocator's choices. */
  datatype Op =
    | Fork(p: nat, c: nat, pages: seq<nat>, stack: nat)
    | Store(k: Key, off: nat, b: bv8, copy: nat)
    | MapIn(k: Key, frame: nat, data: Bytes, prot: Prot)
    | Unmap(t: nat, pages: seq<nat>)

  /** The allocator hands out free frames, fork names a task with no memory and
      all pages of its parent, and nothing is mapped twice. */
  ghost predicate Enabled(s: State, op: Op) {
    match op
    case Fork(p, c, pages, stack) =>
      && p != c && stack !in s.live && Distinct(pages)
      && (p, STACK_BASE) in s.pte && s.pte[(p, STACK_BASE)].frame in s.mem
      && (forall k :: k in s.pte || k in s.ro ==> k.0 != c)
      && (forall v :: v in pages <==> v != STACK_BASE && (p, v) in s.pte)
    case Store(k, off, b, copy) =>
      && k in s.pte && k !in s.ro && s.pte[k].frame in s.mem && off < |s.mem[s.pte[k].frame]|
      && s.pte[k].frame in s.live && s.live[s.pte[k].frame].refCnt > 0
      && (k.1 == STACK_BASE ==> s.pte[k].writable)
      && (!s.pte[k].writable && s.live[s.pte[k].frame].refCnt > 1 ==> copy !in s.live)
    case MapIn(k, frame, data, prot) => k !in s.pte && k !in s.ro && frame !in s.live && |data| == SizeOf(k.1)
    case Unmap(t, pages) => Distinct(pages) && forall v :: v in pages ==> (t, v) in s.pte
  }

  /** What the kernel does. */
  ghost function Apply(s: State, op: Op): State
    requires Enabled(s, op)
  {
    match op
    case Fork(p, c, pages, stack) =>
      var s1 := Fresh(s, (c, STACK_BASE), stack, s.mem[s.pte[(p, STACK_BASE)].frame], Plain);
      SharePages(s1, p, c, pages)
    case Store(k, off, b, copy) =>
      var s1 := if s.pte[k].writable then s else Unshare(s, k, copy);
      Fill(s1, k, s.mem[s.pte[k].frame][off := b])
    case MapIn(k, frame, data, prot) => Fresh(s, k, frame, data, prot)
    case Unmap(t, pages) => DropPages(s, t, pages)
  }

  /** Every page of p, copied for c. */
  ghost function EagerFork(view: View, p: nat, c: nat): View {
    view + map v | v in PagesOf(view, p) && (p, v) in view :: (c, v) := view[(p, v)]
  }

  ghost function PagesOf(view: View, t: nat): (vs: set<nat>)
    ensures forall v :: v in vs <==> (t, v) in view
  {
    var vs := set k | k in view && k.0 == t :: k.1;
    assert forall v :: (t, v) in view ==> (t, v).1 in vs;
    vs
  }

  /** What the specification does: fork copies every page at once. */
  ghost function Eager(view: View, op: Op): View {
    match op
    case Fork(p, c, _, _) => EagerFork(view, p, c)
    case Store(k, off, b, _) => if k in view && off < |view[k]| then view[k := view[k][off := b]] else view
    case MapIn(k, _, data, _) => view[k := data]
    case Unmap(t, pages) => view - KeysOf(t, pages)
  }

  ghost function EagerRun(view: View, ops: seq<Op>): View
    decreases |ops|
  {
    if ops == [] then view else Eager(EagerRun(view, ops[..|ops| - 1]), ops[|ops| - 1])
  }

  ghost predicate StepsTo(s: State, op: Op, s': State) { Enabled(s, op) && s' == Apply(s, op) }

  /** A run: every operation is enabled where it happens. */
  ghost predicate IsRun(ss: seq<State>, ops: seq<Op>) {
    && |ss| == |ops| + 1 && Inv(ss[0])
    && forall i :: 0 <= i < |ops| ==> StepsTo(ss[i], ops[i], ss[i + 1])
  }

  /** Where a sequence of operations leads, if each is enabled in its turn. */
  ghost function RunFrom(s: State, ops: seq<Op>): Option<State>
    decreases |ops|
  {
    if ops == [] then Some(s)
    else
      var before := RunFrom(s, ops[..|ops| - 1]);
      if before.Some? && Enabled(before.value, ops[|ops| - 1]) then Some(Apply(before.value, ops[|ops| - 1])) else None
  }

  lemma RunFromSnoc(s: State, ops: seq<Op>, s0: State, op: Op, s': State)
    requires RunFrom(s, ops) == Some(s0) && StepsTo(s0, op, s')
    ensures RunFrom(s, ops + [op]) == Some(s')
  {
    assert (ops + [op])[..|ops|] == ops;
  }

  /** It leads through the states of a run. */
  lemma {:induction false} RunFromIsRun(s: State, ops: seq<Op>) returns (ss: seq<State>)
    requires Inv(s) && RunFrom(s, ops).Some?
    ensures IsRun(ss, ops) && ss[0] == s && ss[|ops|] == RunFrom(s, ops).value
    decreases |ops|
  {
    if ops == [] {
      ss := [s];
    } else {
      hide Inv, Enabled, Apply;
      var n := |ops| - 1;
      var ss' := RunFromIsRun(s, ops[..n]);
      ss := ss' + [RunFrom(s, ops).value];
      forall i | 0 <= i < |ops|
        ensures StepsTo(ss[i], ops[i], ss[i + 1])
      {
        if i < n { assert StepsTo(ss'[i], ops[..n][i], ss'[i + 1]); }
      }
    }
  }

  /** One operation keeps the sharing invariant, leaves the kernel's own blocks
      alone, and does to what the tasks read what the specification does. */
  lemma StepRefines(s: State, op: Op)
    requires Inv(s) && Enabled(s, op)
    ensures Inv(Apply(s, op)) && Foreign(Apply(s, op)) == Foreign(s)
    ensures ViewOf(Apply(s, op)) == Eager(ViewOf(s), op)
  {
    match op
    case Fork(p, c, pages, stack) => ForkRefines(s, op);
    case Store(k, off, b, copy) => StoreRefines(s, op);
    case MapIn(k, frame, data, prot) =>
      FreshKeeps(s, k, frame, data, prot);
      FreshView(s, k, frame, data, prot);
      FreshForeign(s, k, frame, data, prot);
    case Unmap(t, pages) => DropPagesKeeps(s, t, pages);
  }

  lemma ForkRefines(s: State, op: Op)
    requires Inv(s) && op.Fork? && Enabled(s, op)
    ensures Inv(Apply(s, op)) && Foreign(Apply(s, op)) == Foreign(s)
    ensures ViewOf(Apply(s, op)) == Eager(ViewOf(s), op)
  {
    hide Inv, Foreign, ViewOf, Shared, CopyOf, EagerFork;
    var p, c, k := op.p, op.c, (op.p, STACK_BASE);
    InView(s, k);
    var s1 := Fresh(s, (c, STACK_BASE), op.stack, ViewOf(s)[k], Plain);
    StackFirst(s, op, s1);
    SharePagesKeeps(s1, p, c, op.pages);
    ViewKeys(s);
    EagerForkIs(ViewOf(s), p, c, op.pages);
    SharedMeans(s1, SharePages(s1, p, c, op.pages), p, c, op.pages);
  }

  lemma SharedMeans(s: State, s': State, p: nat, c: nat, vs: seq<nat>)
    requires Shared(s, s', p, c, vs)
    ensures Inv(s') && Foreign(s') == Foreign(s) && ViewOf(s') == ViewOf(s) + CopyOf(ViewOf(s), p, c, vs)
  {}

  lemma SharedInv(s: State, s': State, p: nat, c: nat, vs: seq<nat>)
    requires Shared(s, s', p, c, vs)
    ensures Inv(s') && s'.pte.Keys == s.pte.Keys + KeysOf(c, vs) && s'.ro == s.ro + RoCopy(s.ro, p, c, vs)
  {}

  /** The child's stack comes first; its pages can then be shared. */
  lemma StackFirst(s: State, op: Op, s1: State)
    requires Inv(s) && op.Fork? && Enabled(s, op) && (op.p, STACK_BASE) in ViewOf(s)
    requires s1 == Fresh(s, (op.c, STACK_BASE), op.stack, ViewOf(s)[(op.p, STACK_BASE)], Plain)
    ensures Inv(s1) && Foreign(s1) == Foreign(s) && CanShare(s1, op.p, op.c, op.pages)
    ensures ViewOf(s1) == ViewOf(s)[(op.c, STACK_BASE) := ViewOf(s)[(op.p, STACK_BASE)]]
  {
    hide Inv, Foreign, ViewOf;
    var k, data := (op.c, STACK_BASE), ViewOf(s)[(op.p, STACK_BASE)];
    InView(s, (op.p, STACK_BASE));
    FreshKeeps(s, k, op.stack, data, Plain);
    FreshView(s, k, op.stack, data, Plain);
    FreshForeign(s, k, op.stack, data, Plain);
  }

  lemma ViewKeys(s: State)
    requires Inv(s)
    ensures ViewOf(s).Keys == s.pte.Keys
  {
    forall k | k in s.pte
      ensures k in ViewOf(s)
    {
      InView(s, k);
    }
  }

  lemma EagerForkIs(view: View, p: nat, c: nat, pages: seq<nat>)
    requires p != c && (p, STACK_BASE) in view
    requires forall v :: v in pages <==> v != STACK_BASE && (p, v) in view
    ensures var view1 := view[(c, STACK_BASE) := view[(p, STACK_BASE)]];
      view1 + CopyOf(view1, p, c, pages) == EagerFork(view, p, c)
  {
    var view1 := view[(c, STACK_BASE) := view[(p, STACK_BASE)]];
    var l, r := view1 + CopyOf(view1, p, c, pages), EagerFork(view, p, c);
    forall k
      ensures (k in l <==> k in r) && (k in l && k in r ==> l[k] == r[k])
    {
      EagerForkAt(view, p, c, pages, k);
    }
  }

  lemma EagerForkAt(view: View, p: nat, c: nat, pages: seq<nat>, k: Key)
    requires p != c && (p, STACK_BASE) in view
    requires forall v :: v in pages <==> v != STACK_BASE && (p, v) in view
    ensures var view1 := view[(c, STACK_BASE) := view[(p, STACK_BASE)]];
      var l, r := view1 + CopyOf(view1, p, c, pages), EagerFork(view, p, c);
      (k in l <==> k in r) && (k in l && k in r ==> l[k] == r[k])
  {
    assert k.0 == c ==> (k.1 in pages <==> k.1 != STACK_BASE && k.1 in PagesOf(view, p));
  }

  lemma StoreRefines(s: State, op: Op)
    requires Inv(s) && op.Store? && Enabled(s, op)
    ensures Inv(Apply(s, op)) && Foreign(Apply(s, op)) == Foreign(s)
    ensures ViewOf(Apply(s, op)) == Eager(ViewOf(s), op)
  {
    hide Inv, Foreign, ViewOf, Mappers;
    var k := op.k;
    InView(s, k);
    var data := s.mem[s.pte[k].frame][op.off := op.b];
    var s1 := if s.pte[k].writable then s else Unshare(s, k, op.copy);
    if !s.pte[k].writable {
      UnshareKeeps(s, k, op.copy);
      UnshareForeign(s, k, op.copy);
    }
    InView(s1, k);
    FillKeeps(s1, k, data);
    FillForeign(s1, k, data);
  }

  lemma FillForeign(s: State, k: Key, data: Bytes)
    requires k in s.pte && s.pte[k].frame in s.mem
    ensures Foreign(Fill(s, k, data)) == Foreign(s)
  {
    assert Fill(s, k, data).mem.Keys == s.mem.Keys;
  }

  /** A run without its last operation. */
  lemma RunPrefix(ss: seq<State>, ops: seq<Op>)
    requires IsRun(ss, ops) && ops != []
    ensures IsRun(ss[..|ops|], ops[..|ops| - 1]) && StepsTo(ss[|ops| - 1], ops[|ops| - 1], ss[|ops|])
  {
    hide Inv, StepsTo;
    var n := |ops| - 1;
    var ss', ops' := ss[..n + 1], ops[..n];
    forall i | 0 <= i < n
      ensures StepsTo(ss'[i], ops'[i], ss'[i + 1])
    {
      assert StepsTo(ss[i], ops[i], ss[i + 1]);
    }
    assert StepsTo(ss[n], ops[n], ss[n + 1]);
  }

  /** Lazy copying refines eager copying: over every run the sharing invariant
      holds in every state, the kernel's own blocks are never touched, and what
      the tasks read is what they would read had fork copied every page. */
  lemma {:induction false} RunRefines(ss: seq<State>, ops: seq<Op>)
    requires IsRun(ss, ops)
    ensures forall i :: 0 <= i < |ss| ==> Inv(ss[i]) && Foreign(ss[i]) == Foreign(ss[0])
    ensures ViewOf(ss[|ops|]) == EagerRun(ViewOf(ss[0]), ops)
    decreases |ops|
  {
    if ops != [] {
      hide Inv, StepsTo, ViewOf, Foreign, Eager;
      var n := |ops| - 1;
      var ss', ops' := ss[..n + 1], ops[..n];
      RunPrefix(ss, ops);
      RunRefines(ss', ops');
      assert ss'[n] == ss[n] && StepsTo(ss[n], ops[n], ss[n + 1]);
      StepsRefine(ss[n], ops[n], ss[n + 1]);
      assert forall i :: 0 <= i < |ss'| ==> ss'[i] == ss[i];
    }
  }

  lemma StepsRefine(s: State, op: Op, s': State)
    requires Inv(s) && StepsTo(s, op, s')
    ensures Inv(s') && Foreign(s') == Foreign(s) && ViewOf(s') == Eager(ViewOf(s), op)
  {
    StepRefines(s, op);
  }

  // ------------------------------------------------------- read-only segments

  /** User memory before the first task. */
  ghost predicate Start(s: State) { s.mem == map[] && s.pte == map[] && s.ro == map[] }

  /** How the page at k, or the page it was cloned from, was mapped by a run. */
  ghost function MappedAs(ops: seq<Op>, k: Key): Option<Prot>
    decreases |ops|
  {
    if ops == [] then None
    else
      var before := ops[..|ops| - 1];
      match ops[|ops| - 1]
      case Fork(p, c, pages, _) =>
        if k.0 != c then MappedAs(before, k)
        else if k.1 == STACK_BASE then Some(Plain)
        else if k.1 in pages then MappedAs(before, (p, k.1))
        else None
      case Store(_, _, _, _) => MappedAs(before, k)
      case MapIn(j, _, _, prot) => if j == k then Some(prot) else MappedAs(before, k)
      case Unmap(t, pages) => if k.0 == t && k.1 in pages then None else MappedAs(before, k)
  }

  /** What a state remembers of the run that led to it. */
  ghost predicate Recalls(s: State, ops: seq<Op>, k: Key) {
    && (k in s.pte <==> MappedAs(ops, k).Some?)
    && (k in s.ro <==> MappedAs(ops, k).Some? && MappedAs(ops, k).value.Segment?)
    && (k in s.ro ==> MappedAs(ops, k) == Some(Segment(s.ro[k])))
  }

  /** One more operation. */
  lemma RecallStep(s: State, ops: seq<Op>, op: Op, s': State, k: Key)
    requires Inv(s) && StepsTo(s, op, s') && (forall j :: Recalls(s, ops, j))
    ensures Recalls(s', ops + [op], k)
  {
    hide Inv;
    assert (ops + [op])[..|ops|] == ops;
    assert Recalls(s, ops, k);
    match op
    case Fork(p, c, pages, stack) => ForkRecalls(s, ops, op, s', k);
    case Store(_, _, _, _) =>
    case MapIn(_, _, _, _) =>
    case Unmap(t, pages) => UnmapKeys(s, op, s');
  }

  lemma UnmapKeys(s: State, op: Op, s': State)
    requires Inv(s) && op.Unmap? && StepsTo(s, op, s')
    ensures s'.pte.Keys == s.pte.Keys - KeysOf(op.t, op.pages) && s'.ro == s.ro - KeysOf(op.t, op.pages)
  {
    hide Inv, KeyOk, FrameOk, ViewOf, Foreign, DropPages;
    DropPagesKeeps(s, op.t, op.pages);
  }

  /** The keys after a fork. */
  lemma ForkKeys(s: State, op: Op, s': State)
    requires Inv(s) && op.Fork? && StepsTo(s, op, s')
    ensures s'.pte.Keys == s.pte.Keys + {(op.c, STACK_BASE)} + KeysOf(op.c, op.pages)
    ensures s'.ro == s.ro + RoCopy(s.ro, op.p, op.c, op.pages)
  {
    hide Inv, Shared, ViewOf, Foreign, KeyOk, FrameOk, SharePages, RoCopy;
    var p, c, pages := op.p, op.c, op.pages;
    InView(s, (p, STACK_BASE));
    var s1 := Fresh(s, (c, STACK_BASE), op.stack, ViewOf(s)[(p, STACK_BASE)], Plain);
    StackFirst(s, op, s1);
    SharePagesKeeps(s1, p, c, pages);
    SharedInv(s1, SharePages(s1, p, c, pages), p, c, pages);
  }

  lemma ForkRecalls(s: State, ops: seq<Op>, op: Op, s': State, k: Key)
    requires Inv(s) && op.Fork? && StepsTo(s, op, s') && (forall j :: Recalls(s, ops, j))
    ensures Recalls(s', ops + [op], k)
  {
    hide Inv, StepsTo, MappedAs;
    ForkMappedAs(ops, op, k);
    ForkKeys(s, op, s');
    RoCopyAt(s.ro, op.p, op.c, op.pages, k);
    assert Recalls(s, ops, k) && Recalls(s, ops, (op.p, k.1));
    ForkApart(s, op, s');
  }

  lemma ForkMappedAs(ops: seq<Op>, op: Op, k: Key)
    requires op.Fork?
    ensures MappedAs(ops + [op], k) == if k.0 != op.c then MappedAs(ops, k)
                                       else if k.1 == STACK_BASE then Some(Plain)
                                       else if k.1 in op.pages then MappedAs(ops, (op.p, k.1))
                                       else None
  {
    assert (ops + [op])[..|ops|] == ops;
  }

  lemma ForkApart(s: State, op: Op, s': State)
    requires op.Fork? && StepsTo(s, op, s')
    ensures forall k :: k in s.pte || k in s.ro ==> k.0 != op.c
    ensures forall v :: v in op.pages ==> v != STACK_BASE && (op.p, v) in s.pte
  {}

  lemma RoCopyAt(ro: map<Key, bool>, p: nat, c: nat, vs: seq<nat>, k: Key)
    ensures k in RoCopy(ro, p, c, vs) <==> k.0 == c && k.1 in vs && (p, k.1) in ro
    ensures k in RoCopy(ro, p, c, vs) ==> RoCopy(ro, p, c, vs)[k] == ro[(p, k.1)]
  {}

  /** Over every run from the start, a state recalls how each page was mapped. */
  lemma {:induction false} RunRecalls(ss: seq<State>, ops: seq<Op>, k: Key)
    requires IsRun(ss, ops) && Start(ss[0])
    ensures Inv(ss[|ops|]) && Recalls(ss[|ops|], ops, k)
    decreases |ops|
  {
    hide Inv, StepsTo, Recalls, Start, ViewOf, Foreign, EagerRun, MappedAs;
    RunRefines(ss, ops);
    if ops == [] {
      StartRecalls(ss[0], k);
    } else {
      var n := |ops| - 1;
      RunPrefix(ss, ops);
      forall j
        ensures Recalls(ss[n], ops[..n], j)
      {
        RunRecalls(ss[..n + 1], ops[..n], j);
      }
      assert Inv(ss[n]) && ops == ops[..n] + [ops[n]];
      RecallStep(ss[n], ops[..n], ops[n], ss[n + 1], k);
    }
  }

  lemma StartRecalls(s: State, k: Key)
    requires Start(s)
    ensures Recalls(s, [], k)
  {}

  /** The protection of a read-only segment outlives every fork: its mappings are never
      writable, and user code can run them exactly if the segment holds code. */
  lemma SegmentForEver(ss: seq<State>, ops: seq<Op>, k: Key)
    requires IsRun(ss, ops) && Start(ss[0]) && MappedAs(ops, k).Some? && MappedAs(ops, k).value.Segment?
    ensures k in ss[|ops|].pte && !ss[|ops|].pte[k].writable
    ensures ss[|ops|].pte[k].exec <==> MappedAs(ops, k).value.exec
  {
    RunRecalls(ss, ops, k);
    assert KeyOk(ss[|ops|], k);
  }
}
