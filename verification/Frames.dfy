/** The vocabulary shared by the physical-memory modules: block orders, page
    flags, and the map of live blocks with the three operations that change a
    reference count. The buddy allocator proves that it implements these
    operations; the copy-on-write model builds on them. */
module Frames {

  datatype Option<+T> = None | Some(value: T)

  /** The flags of a page (Flags::None is Idle here). */
  datatype Flags = Idle | Used | Cow | Mid

  /** A live block: its order, its reference count and the flags of its head. */
  datatype Block = Block(ord: nat, refCnt: nat, flags: Flags)

  /** The live blocks, keyed by the index of their head page. */
  type Live = map<nat, Block>

  const MAX_ORD: nat := 8

  /** The number of 4 KB pages in a block: order 0 is 1 MB, order 8 is 4 KB. */
  function BlockPages(ord: nat): (n: nat)
    ensures n > 0
    decreases MAX_ORD - ord
  {
    if ord < MAX_ORD then 2 * BlockPages(ord + 1) else 1
  }

  /** What a successful dup leaves: one more reference, flagged copy-on-write. */
  function DupLive(live: Live, p: nat): Live
    requires p in live
  {
    live[p := live[p].(refCnt := live[p].refCnt + 1, flags := Cow)]
  }

  /** What free leaves: one reference fewer, or no block at all. */
  function FreeLive(live: Live, p: nat): Live
    requires p in live && live[p].refCnt > 0
  {
    if live[p].refCnt == 1 then live - {p}
    else live[p := live[p].(refCnt := live[p].refCnt - 1)]
  }

  /** What cow_action leaves before its caller's closure runs: the last owner
      keeps the block and drops the flag, any other owner gives up its share. */
  function CowLive(live: Live, p: nat): Live
    requires p in live && live[p].refCnt > 0
  {
    if live[p].refCnt == 1 then live[p := live[p].(flags := Used)]
    else live[p := live[p].(refCnt := live[p].refCnt - 1)]
  }

  /** No value occurs twice. */
  ghost predicate Distinct(s: seq<nat>) {
    forall i, j :: 0 <= i < j < |s| ==> s[i] != s[j]
  }

  lemma SplitDistinct(vs: seq<nat>, ws: seq<nat>)
    requires Distinct(vs + ws)
    ensures Distinct(vs) && Distinct(ws) && forall v :: v in ws ==> v !in vs
  {
    var all := vs + ws;
    assert forall i :: 0 <= i < |vs| ==> all[i] == vs[i];
    assert forall i :: 0 <= i < |ws| ==> all[|vs| + i] == ws[i];
    forall v | v in ws
      ensures v !in vs
    {
      var j :| 0 <= j < |ws| && ws[j] == v;
      assert all[|vs| + j] == v;
    }
  }

  lemma JoinDistinct(a: seq<nat>, b: seq<nat>)
    requires Distinct(a) && Distinct(b) && forall v :: v in b ==> v !in a
    ensures Distinct(a + b)
  {
    forall i, j | 0 <= i < j < |a + b|
      ensures (a + b)[i] != (a + b)[j]
    {
      if i < |a| <= j { assert b[j - |a|] in b && a[i] in a; }
    }
  }
}
