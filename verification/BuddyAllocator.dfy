/** The buddy allocator of src/pm.rs, in place: an array of page descriptors
    threaded by nine singly linked free lists. */
module BuddyAllocator {
  import opened Frames
  import opened BuddyModel
  import opened Bits

  const PAGE: nat := 4096
  const MB: nat := 1024 * 1024
  const GB: nat := 1024 * MB
  const OFFT: nat := 0x4000_0000

  datatype Page = Page(idx: nat, ord: nat, refCnt: nat, next: Option<nat>, flags: Flags) {
    function Info(): Meta { Meta(ord, refCnt, flags) }
  }

  ghost function Metas(ps: seq<Page>): (ms: seq<Meta>)
    ensures |ms| == |ps| && forall i :: 0 <= i < |ps| ==> ms[i] == ps[i].Info()
  {
    seq(|ps|, i requires 0 <= i < |ps| => ps[i].Info())
  }

  // -------------------------------------------------------------- block orders

  function AlignB(n: nat, t: nat): (r: nat)
    requires t > 0
    ensures r % t == 0 && r <= n < r + t
  {
    MulDiv(n / t, t);
    n / t * t
  }

  function AlignF(n: nat, t: nat): (r: nat)
    requires n > 0 && t > 0
    ensures r % t == 0 && n <= r < n + t
  {
    NextMultiple(AlignB(n - 1, t), t);
    AlignB(n - 1, t) + t
  }

  /** align_b masks with the complement of t - 1: on words of any width, and for a power
      of two, that is the same. */
  lemma AlignIsMask(n: nat, k: nat, w: nat)
    requires k <= w && n < Pow2(w)
    ensures Pow2(k) <= Pow2(w) && And(n, Pow2(w) - 1 - (Pow2(k) - 1)) == AlignB(n, Pow2(k))
  {
    hide And, Pow2;
    PowersGrow(k, w);
    AndComplement(n, Pow2(k) - 1, w);
    AndLow(n, k);
    AndLow(n, w);
    Rest(n, Pow2(k));
    Unique(n, Pow2(w), 0, n);
  }

  lemma Rest(n: nat, t: nat)
    requires t > 0
    ensures n - n % t == n / t * t
  {}

  lemma {:induction false} PowersGrow(k: nat, m: nat)
    requires k <= m
    ensures Pow2(k) <= Pow2(m)
    decreases m
  {
    if k < m { PowersGrow(k, m - 1); }
  }

  lemma NextMultiple(n: nat, t: nat)
    requires t > 0 && n % t == 0
    ensures (n + t) % t == 0
  {
    var q := n / t;
    MulDistr(q, 1, t);
    MulDiv(q + 1, t);
  }

  function PowerFrom(n: nat, p: nat): nat
    requires p > 0
    decreases n - p
  {
    if p >= n then p else PowerFrom(n, 2 * p)
  }

  function NextPowerOfTwo(n: nat): nat { PowerFrom(n, 1) }

  function Ilog2(n: nat): nat { if n < 2 then 0 else 1 + Ilog2(n / 2) }

  /** get_ord: the order of the smallest power-of-two block that holds n bytes. */
  function GetOrd(n: nat): (o: nat)
    requires 0 < n <= MB
    ensures o <= MAX_ORD && n <= BlockPages(o) * PAGE
    ensures o < MAX_ORD ==> BlockPages(o + 1) * PAGE < n
  {
    OrdIsSmallest(n);
    8 - (Ilog2(NextPowerOfTwo(AlignF(n, PAGE))) - 12)
  }

  lemma {:induction false} PowerFromIsLeast(n: nat, k: nat) returns (j: nat)
    ensures PowerFrom(n, Pow2(k)) == Pow2(j) && Pow2(j) >= n && j >= k
    ensures j > k ==> Pow2(j - 1) < n
    decreases n - Pow2(k)
  {
    if Pow2(k) >= n {
      j := k;
    } else {
      assert Pow2(k + 1) == 2 * Pow2(k);
      j := PowerFromIsLeast(n, k + 1);
    }
  }

  lemma {:induction false} Ilog2OfPow2(k: nat)
    ensures Ilog2(Pow2(k)) == k
  {
    if k > 0 { Ilog2OfPow2(k - 1); }
  }

  lemma {:induction false} Pow2Mono(j: nat, k: nat)
    requires j <= k
    ensures Pow2(j) <= Pow2(k)
    decreases k
  {
    if j < k { Pow2Mono(j, k - 1); }
  }

  lemma {:induction false} BlockBytes(o: nat)
    requires o <= MAX_ORD
    ensures BlockPages(o) * PAGE == Pow2(20 - o)
    decreases MAX_ORD - o
  {
    if o == MAX_ORD {
      Pow2Of12();
    } else {
      BlockBytes(o + 1);
    }
  }

  lemma Pow2Of12()
    ensures Pow2(12) == PAGE
  {
    assert Pow2(4) == 16 && Pow2(6) == 4 * Pow2(4) && Pow2(8) == 4 * Pow2(6);
    assert Pow2(10) == 4 * Pow2(8) && Pow2(12) == 4 * Pow2(10);
  }

  lemma OrdIsSmallest(n: nat)
    requires 0 < n <= MB
    ensures var o := 8 - (Ilog2(NextPowerOfTwo(AlignF(n, PAGE))) - 12);
      && 0 <= o <= MAX_ORD && n <= BlockPages(o) * PAGE
      && (o < MAX_ORD ==> BlockPages(o + 1) * PAGE < n)
  {
    var m := AlignF(n, PAGE);
    assert Pow2(0) == 1;
    hide Pow2, PowerFrom, Ilog2, BlockPages;
    var j := PowerFromIsLeast(m, 0);
    assert PAGE <= m <= MB && n <= m < n + PAGE;
    Ilog2OfPow2(j);
    ExponentInRange(m, j);
    BlockBytes(20 - j);
    if j > 12 {
      BlockBytes(21 - j);
      RoundUpAbove(n, BlockPages(21 - j));
    }
  }

  lemma OrdOfSmall()
    ensures GetOrd(PAGE) == 8 && GetOrd(2 * PAGE) == 7
  {
    Sizes();
    SizesNest(GetOrd(PAGE), 8);
    if GetOrd(2 * PAGE) < 7 { SizesNest(GetOrd(2 * PAGE) + 1, 7); }
    if GetOrd(PAGE) < 8 { SizesNest(GetOrd(PAGE) + 1, 8); }
  }

  lemma ExponentInRange(m: nat, j: nat)
    requires PAGE <= m <= MB && m <= Pow2(j) && (j > 0 ==> Pow2(j - 1) < m)
    ensures 12 <= j <= 20
  {
    BlockBytes(0);
    Sizes();
    Pow2Of12();
    if j < 12 { Pow2Mono(j + 1, 12); }
    if j > 20 { Pow2Mono(20, j - 1); }
  }

  lemma RoundUpAbove(n: nat, k: nat)
    requires n > 0 && k * PAGE < AlignF(n, PAGE)
    ensures k * PAGE < n
  {}

  // --------------------------------------------------------------- free lists

  ghost function Nth(list: seq<nat>, k: nat): Option<nat> {
    if k < |list| then Some(list[k]) else None
  }

  /** The pages of list, in order, are linked from head and carry order o. */
  ghost predicate Linked(ps: seq<Page>, o: nat, head: Option<nat>, list: seq<nat>) {
    && Distinct(list) && head == Nth(list, 0)
    && forall k :: 0 <= k < |list| ==>
         list[k] < |ps| && ps[list[k]].ord == o && ps[list[k]].next == Nth(list, k + 1)
  }

  lemma LinkedFrame(ps: seq<Page>, ps': seq<Page>, o: nat, head: Option<nat>, list: seq<nat>)
    requires Linked(ps, o, head, list) && |ps| == |ps'|
    requires forall i :: 0 <= i < |ps| && i in list ==> ps'[i].ord == ps[i].ord && ps'[i].next == ps[i].next
    ensures Linked(ps', o, head, list)
  {
    forall k | 0 <= k < |list|
      ensures ps'[list[k]].ord == o && ps'[list[k]].next == Nth(list, k + 1)
    {
      assert list[k] in list;
    }
  }

  lemma LinkAt(ps: seq<Page>, o: nat, head: Option<nat>, list: seq<nat>, k: nat)
    requires Linked(ps, o, head, list) && 0 < k <= |list|
    ensures list[k - 1] < |ps| && ps[list[k - 1]].next == Nth(list, k)
    ensures k < |list| ==> list[k] < |ps|
  {}

  ghost function Without(list: seq<nat>, k: nat): (rest: seq<nat>)
    requires k < |list|
    ensures |rest| == |list| - 1
    ensures forall j :: 0 <= j < |rest| ==> rest[j] == if j < k then list[j] else list[j + 1]
  {
    list[..k] + list[k + 1..]
  }

  lemma WithoutElements(list: seq<nat>, k: nat)
    requires Distinct(list) && k < |list|
    ensures Distinct(Without(list, k))
    ensures forall x :: x in Without(list, k) <==> x in list && x != list[k]
  {
    var rest := Without(list, k);
    forall x | x in list && x != list[k]
      ensures x in rest
    {
      var j :| 0 <= j < |list| && list[j] == x;
      assert rest[if j < k then j else j - 1] == x;
    }
    forall x | x in rest
      ensures x in list && x != list[k]
    {
      var j :| 0 <= j < |rest| && rest[j] == x;
      assert list[if j < k then j else j + 1] == x;
    }
  }

  /** The page array after FL::remove has taken list[k] out of its list. */
  ghost function UnlinkPages(ps: seq<Page>, list: seq<nat>, k: nat): seq<Page>
    requires k < |list| && forall j :: 0 <= j < |list| ==> list[j] < |ps|
  {
    var i := list[k];
    var ps' := if k == 0 then ps else ps[list[k - 1] := ps[list[k - 1]].(next := ps[i].next)];
    ps'[i := ps'[i].(next := None)]
  }

  /** The links of the remaining pages skip list[k]. */
  lemma UnlinkAt(ps: seq<Page>, list: seq<nat>, k: nat, j: nat)
    requires k < |list| && j < |list| && j != k && forall m :: 0 <= m < |list| ==> list[m] < |ps|
    requires list[j] != list[k] && (0 < k && j != k - 1 ==> list[j] != list[k - 1])
    requires ps[list[j]].next == Nth(list, j + 1) && ps[list[k]].next == Nth(list, k + 1)
    ensures UnlinkPages(ps, list, k)[list[j]].ord == ps[list[j]].ord
    ensures UnlinkPages(ps, list, k)[list[j]].next == Nth(Without(list, k), if j < k then j + 1 else j)
  {}

  lemma UnlinkLinked(ps: seq<Page>, o: nat, head: Option<nat>, list: seq<nat>, k: nat)
    requires Linked(ps, o, head, list) && k < |list|
    ensures Linked(UnlinkPages(ps, list, k), o, if k == 0 then ps[list[0]].next else head, Without(list, k))
  {
    WithoutElements(list, k);
    var rest, ps' := Without(list, k), UnlinkPages(ps, list, k);
    forall j | 0 <= j < |rest|
      ensures rest[j] < |ps| && ps'[rest[j]].ord == o && ps'[rest[j]].next == Nth(rest, j + 1)
    {
      UnlinkAt(ps, list, k, if j < k then j else j + 1);
    }
  }

  /** Only links change, and only those of pages of order o. */
  lemma UnlinkOnly(ps: seq<Page>, o: nat, head: Option<nat>, list: seq<nat>, k: nat)
    requires Linked(ps, o, head, list) && k < |list|
    ensures var ps' := UnlinkPages(ps, list, k);
      && |ps'| == |ps| && Metas(ps') == Metas(ps)
      && (forall i :: 0 <= i < |ps| ==> ps'[i].idx == ps[i].idx)
      && (forall i :: 0 <= i < |ps| && ps[i].ord != o ==> ps'[i] == ps[i])
  {
    assert ps[list[k]].ord == o && (k > 0 ==> ps[list[k - 1]].ord == o);
  }

  /** All nine lists are threaded through the page array. */
  ghost predicate ChainsOf(ps: seq<Page>, hs: seq<Option<nat>>, lists: seq<seq<nat>>) {
    && |ps| == NPAGES && |hs| == MAX_ORD + 1 == |lists|
    && (forall i :: 0 <= i < NPAGES ==> ps[i].idx == i)
    && forall o :: 0 <= o <= MAX_ORD ==> Linked(ps, o, hs[o], lists[o])
  }

  /** A list of another order is untouched when only pages of order o move. */
  lemma OtherList(ps: seq<Page>, ps': seq<Page>, q: nat, head: Option<nat>, list: seq<nat>, o: nat)
    requires Linked(ps, q, head, list) && |ps'| == |ps| && q != o
    requires forall i :: 0 <= i < |ps| && ps[i].ord != o ==> ps'[i] == ps[i]
    ensures Linked(ps', q, head, list)
  {}

  /** Rethreading one list leaves the other eight alone. */
  lemma RethreadChains(ps: seq<Page>, hs: seq<Option<nat>>, lists: seq<seq<nat>>, o: nat,
                       ps': seq<Page>, head: Option<nat>, list: seq<nat>)
    requires ChainsOf(ps, hs, lists) && o <= MAX_ORD && |ps'| == |ps| && Linked(ps', o, head, list)
    requires forall i :: 0 <= i < |ps| ==> ps'[i].idx == ps[i].idx
    requires forall i :: 0 <= i < |ps| && ps[i].ord != o ==> ps'[i] == ps[i]
    ensures ChainsOf(ps', hs[o := head], lists[o := list])
  {
    forall q | 0 <= q <= MAX_ORD && q != o
      ensures Linked(ps', q, hs[q], lists[q])
    {
      OtherList(ps, ps', q, hs[q], lists[q], o);
    }
  }

  lemma AddChains(ps: seq<Page>, hs: seq<Option<nat>>, lists: seq<seq<nat>>, o: nat, i: nat)
    requires ChainsOf(ps, hs, lists) && o <= MAX_ORD && i < NPAGES && ps[i].ord == o && i !in lists[o]
    ensures var ps' := ps[i := ps[i].(next := hs[o])];
      ChainsOf(ps', hs[o := Some(i)], lists[o := [i] + lists[o]]) && Metas(ps') == Metas(ps)
  {
    var ps' := ps[i := ps[i].(next := hs[o])];
    LinkedFrame(ps, ps', o, hs[o], lists[o]);
    AddLinked(ps', o, hs[o], lists[o], i);
    RethreadChains(ps, hs, lists, o, ps', Some(i), [i] + lists[o]);
  }

  lemma AddLinked(ps: seq<Page>, o: nat, head: Option<nat>, list: seq<nat>, i: nat)
    requires Linked(ps, o, head, list) && i < |ps| && i !in list && ps[i].ord == o && ps[i].next == head
    ensures Linked(ps, o, Some(i), [i] + list)
  {
    var list' := [i] + list;
    forall k | 0 < k < |list'|
      ensures list'[k] < |ps| && ps[list'[k]].ord == o && ps[list'[k]].next == Nth(list', k + 1)
    {
      assert list'[k] == list[k - 1];
    }
    assert Distinct(list') by {
      forall j, k | 0 <= j < k < |list'|
        ensures list'[j] != list'[k]
      {
        assert list'[k] == list[k - 1];
      }
    }
  }

  lemma ListHead(ps: seq<Page>, hs: seq<Option<nat>>, lists: seq<seq<nat>>, o: nat)
    requires ChainsOf(ps, hs, lists) && o <= MAX_ORD
    ensures hs[o] == Nth(lists[o], 0)
  {
    assert Linked(ps, o, hs[o], lists[o]);
  }

  lemma RemoveChains(ps: seq<Page>, hs: seq<Option<nat>>, lists: seq<seq<nat>>, o: nat, k: nat)
    requires ChainsOf(ps, hs, lists) && o <= MAX_ORD && k < |lists[o]|
    ensures forall j :: 0 <= j < |lists[o]| ==> lists[o][j] < |ps|
    ensures var ps' := UnlinkPages(ps, lists[o], k);
      && ChainsOf(ps', if k == 0 then hs[o := ps[lists[o][0]].next] else hs, lists[o := Without(lists[o], k)])
      && Metas(ps') == Metas(ps)
  {
    assert Linked(ps, o, hs[o], lists[o]);
    UnlinkLinked(ps, o, hs[o], lists[o], k);
    UnlinkOnly(ps, o, hs[o], lists[o], k);
    RethreadChains(ps, hs, lists, o, UnlinkPages(ps, lists[o], k),
                   if k == 0 then ps[lists[o][0]].next else hs[o], Without(lists[o], k));
    assert hs[o := hs[o]] == hs;
  }

  /** Descriptors of pages in no list may be rewritten. */
  lemma SetChains(ps: seq<Page>, hs: seq<Option<nat>>, lists: seq<seq<nat>>, i: nat, p: Page)
    requires ChainsOf(ps, hs, lists) && i < NPAGES && p.idx == i
    requires forall o :: 0 <= o <= MAX_ORD ==> i !in lists[o]
    ensures ChainsOf(ps[i := p], hs, lists) && Metas(ps[i := p]) == Metas(ps)[i := p.Info()]
  {
    forall q | 0 <= q <= MAX_ORD
      ensures Linked(ps[i := p], q, hs[q], lists[q])
    {
      LinkedFrame(ps, ps[i := p], q, hs[q], lists[q]);
    }
  }

  class Allocator {
    const pages: array<Page>
    const heads: array<Option<nat>>
    var size: nat
    ghost var own: seq<nat>
    ghost var lists: seq<seq<nat>>

    ghost function Ms(): (ms: seq<Meta>)
      reads pages
      ensures |ms| == pages.Length
    {
      Metas(pages[..])
    }

    ghost predicate Chains()
      reads this, pages, heads
      ensures Chains() ==> pages.Length == NPAGES && heads.Length == MAX_ORD + 1 == |lists|
    {
      ChainsOf(pages[..], heads[..], lists)
    }

    // FL::add
    method ListAdd(o: nat, i: nat)
      requires Chains() && o <= MAX_ORD && i < NPAGES
      requires pages[i].ord == o && i !in lists[o]
      modifies pages, heads, `lists
      ensures Chains() && Ms() == old(Ms())
      ensures lists == old(lists)[o := [i] + old(lists[o])]
    {
      AddChains(pages[..], heads[..], lists, o, i);
      pages[i] := pages[i].(next := heads[o]);
      heads[o] := Some(i);
      lists := lists[o := [i] + lists[o]];
    }

    // FL::rm_first
    method ListRmFirst(o: nat) returns (r: Option<nat>)
      requires Chains() && o <= MAX_ORD
      modifies heads, `lists
      ensures Chains()
      ensures r == Nth(old(lists[o]), 0)
      ensures lists == if r.None? then old(lists) else old(lists)[o := old(lists[o])[1..]]
    {
      assert Linked(pages[..], o, heads[o], lists[o]);
      if heads[o].None? {
        return None;
      }
      var h := heads[o].value;
      heads[o] := pages[h].next;
      lists := lists[o := lists[o][1..]];
      return Some(h);
    }

    // FL::remove, its search for the predecessor of page i
    method ListFindPrev(o: nat, i: nat) returns (h: nat, ghost k: nat)
      requires Chains() && o <= MAX_ORD && i in lists[o] && heads[o] != Some(i)
      ensures 0 < k < |lists[o]| && h == lists[o][k - 1] && lists[o][k] == i
      ensures h in lists[o] && h < pages.Length && pages[h].next == Some(i)
    {
      ghost var list := lists[o];
      assert Linked(pages[..], o, heads[o], list);
      k := 1;
      h := heads[o].value;
      LinkAt(pages[..], o, heads[o], list, k);
      while pages[h].next.Some? && pages[pages[h].next.value].idx != i
        invariant 0 < k <= |list| && h == list[k - 1] && pages[h].next == Nth(list, k)
        invariant forall j :: 0 <= j < k ==> list[j] != i
        decreases |list| - k
      {
        h := pages[h].next.value;
        k := k + 1;
        LinkAt(pages[..], o, heads[o], list, k);
      }
    }

    // FL::remove
    method ListRemove(o: nat, i: nat)
      requires Chains() && o <= MAX_ORD && i in lists[o]
      modifies pages, heads, `lists
      ensures Chains() && Ms() == old(Ms())
      ensures |lists| == |old(lists)| && forall q :: 0 <= q <= MAX_ORD && q != o ==> lists[q] == old(lists[q])
      ensures forall x :: x in lists[o] <==> x in old(lists[o]) && x != i
    {
      ghost var ps, hs, list := pages[..], heads[..], lists[o];
      ghost var k := 0;
      assert Linked(ps, o, heads[o], list);
      if heads[o] == Some(i) {
        RemoveChains(ps, hs, lists, o, k);
        heads[o] := pages[i].next;
        pages[i] := pages[i].(next := None);
      } else {
        var h;
        h, k := ListFindPrev(o, i);
        RemoveChains(ps, hs, lists, o, k);
        pages[h] := pages[h].(next := pages[i].next);
        pages[i] := pages[i].(next := None);
      }
      WithoutElements(list, k);
      lists := lists[o := Without(list, k)];
      assert pages[..] == UnlinkPages(ps, list, k);
      assert heads[..] == if k == 0 then hs[o := ps[list[0]].next] else hs;
    }

    /** Memory is partitioned, described, listed except for x, and coalesced
        except around y. */
    ghost predicate State(x: set<nat>, y: set<nat>)
      reads this, pages, heads
    {
      && Chains()
      && Partition(Ms(), own) && Described(Ms(), own, {})
      && Listed(Ms(), own, lists, x) && Coalesced(Ms(), own, y)
    }

    /** The invariant between two calls on an initialised allocator. */
    ghost predicate Valid()
      reads this, pages, heads
    {
      size == GB && State({}, {})
    }

    ghost function Live(): Live
      reads this, pages
    {
      LiveOf(Ms(), own)
    }

    method SetInfo(i: nat, m: Meta)
      requires Chains() && i < NPAGES && forall o :: 0 <= o <= MAX_ORD ==> i !in lists[o]
      modifies pages
      ensures Chains() && Ms() == old(Ms())[i := m]
    {
      SetChains(pages[..], heads[..], lists, i, pages[i].(ord := m.ord, refCnt := m.refCnt, flags := m.flags));
      pages[i] := pages[i].(ord := m.ord, refCnt := m.refCnt, flags := m.flags);
    }

    /** A free block leaves its list. */
    method TakeOff(o: nat, p: nat, ghost x: set<nat>, ghost y: set<nat>)
      requires State(x, y) && FreeHead(Ms(), own, p, o) && o <= MAX_ORD && p !in x
      modifies pages, heads, `lists
      ensures State(x + {p}, y) && Ms() == old(Ms())
    {
      assert p in lists[o];
      ListRemove(o, p);
      ListedRemove(Ms(), own, old(lists), lists, x, p, o);
    }

    /** An unlisted free block goes to the front of its list. */
    method PutOn(o: nat, p: nat, ghost x: set<nat>, ghost y: set<nat>)
      requires State(x, y) && FreeHead(Ms(), own, p, o) && o <= MAX_ORD && p in x
      modifies pages, heads, `lists
      ensures State(x - {p}, y) && Ms() == old(Ms()) && heads[o] == Some(p)
    {
      ListAdd(o, p);
      ListedAdd(Ms(), own, old(lists), x, p, o);
      assert Linked(pages[..], o, heads[o], lists[o]);
    }

    /** The one free block left unlisted ends a join. */
    method EndJoin(p: nat)
      requires State({p}, {p}) && p < NPAGES && FreeHead(Ms(), own, p, pages[p].ord)
      requires pages[p].ord > 0 ==> !FreeHead(Ms(), own, Buddy(p, pages[p].ord), pages[p].ord)
      modifies pages, heads, `lists
      ensures State({}, {}) && Live() == old(Live())
    {
      HeadAligned(Ms(), own, p, pages[p].ord);
      CoalescedClose(Ms(), own, p, pages[p].ord);
      assert {p} - {p} == {};
      PutOn(pages[p].ord, p, {p}, {});
    }

    /** One turn of join's loop: the free buddy b leaves its list and the pair
        becomes the block at the smaller index. */
    method Merge(p: nat, b: nat) returns (m: nat)
      requires State({p}, {p}) && p < NPAGES && Mergeable(Ms(), own, p, b)
      modifies pages, heads, `lists, `own
      ensures m < NPAGES && pages[m].ord == old(pages[p].ord) - 1
      ensures State({m}, {m}) && FreeHead(Ms(), own, m, pages[m].ord) && Live() == old(Live())
    {
      hide Partition, Described, Coalesced, ChainsOf, LiveOf;
      var o := pages[p].ord;
      MergedPair(Ms(), own, p, b);
      TakeOff(o, b, {p}, {p});
      assert {p} + {b} == {p, b};
      MergeState(Ms(), own, lists, p, b);
      m := if p > b then b else p;
      own := Paint(own, m, 2 * BlockPages(o));
      SetInfo(m, Meta(pages[m].ord - 1, pages[m].refCnt, pages[m].flags));
    }

    // Page::join
    method Join(page: nat)
      requires State({page}, {page}) && page < NPAGES && FreeHead(Ms(), own, page, pages[page].ord)
      modifies pages, heads, `lists, `own
      ensures State({}, {}) && Live() == old(Live())
    {
      var p: nat := page;
      while true
        invariant p < NPAGES && State({p}, {p}) && FreeHead(Ms(), own, p, pages[p].ord)
        invariant Live() == old(Live())
        decreases pages[p].ord
      {
        var o := pages[p].ord;
        if o == 0 {
          EndJoin(p);
          return;
        }
        BuddyIsHead(Ms(), own, p);
        BuddyIsXor(p, o);
        var b := GetBuddy(p * PAGE, o) / PAGE;
        if pages[b].ord != o || pages[b].refCnt != 0 {
          EndJoin(p);
          return;
        }
        p := Merge(p, b);
      }
    }

    // Page::split, for the block of order pages[p].ord at p
    method Split(p: nat)
      requires p < NPAGES && State({}, {p}) && FreeHead(Ms(), own, p, pages[p].ord) && pages[p].ord < MAX_ORD
      modifies pages, heads, `lists, `own
      ensures State({}, {p}) && Live() == old(Live())
      ensures pages[p].ord == old(pages[p].ord) + 1 && FreeHead(Ms(), own, p, pages[p].ord)
      ensures heads[pages[p].ord] == Some(p)
    {
      hide Partition, Described, Coalesced, ChainsOf, LiveOf;
      var o := pages[p].ord;
      var p2 := p + BlockPages(o + 1);
      TakeOff(o, p, {}, {p});
      assert {} + {p} == {p};
      SplitState(Ms(), own, lists, p);
      SetHalves(p, p2, o + 1);
      PutOn(o + 1, p2, {p, p2}, {p});
      assert {p, p2} - {p2} == {p} && {p} - {p} == {};
      PutOn(o + 1, p, {p}, {p});
    }

    method SetHalves(p: nat, p2: nat, o: nat)
      requires Chains() && p < p2 < NPAGES && |own| == NPAGES
      requires forall q :: 0 <= q <= MAX_ORD ==> p !in lists[q] && p2 !in lists[q]
      requires o == pages[p].ord + 1
      modifies pages, `own
      ensures Chains() && Ms() == SplitMeta(old(Ms()), p, p2) && own == Paint(old(own), p2, BlockPages(o))
    {
      own := Paint(own, p2, BlockPages(o));
      SetInfo(p, Meta(o, pages[p].refCnt, pages[p].flags));
      SetInfo(p2, Meta(o, pages[p2].refCnt, pages[p2].flags));
    }

    // Allocator::split_to
    method SplitTo(page: nat, curOrd: nat, tOrd: nat)
      requires page < NPAGES && State({}, {page}) && FreeHead(Ms(), own, page, curOrd) && curOrd < tOrd <= MAX_ORD
      modifies pages, heads, `lists, `own
      ensures State({}, {page}) && Live() == old(Live())
      ensures FreeHead(Ms(), own, page, tOrd) && heads[tOrd] == Some(page)
    {
      hide Partition, Described, Coalesced, ChainsOf, LiveOf;
      var p: nat, cur := page, curOrd;
      while tOrd > cur
        invariant curOrd <= cur <= tOrd && p == page && State({}, {page})
        invariant FreeHead(Ms(), own, page, cur) && Live() == old(Live())
        invariant cur > curOrd ==> heads[cur] == Some(page)
      {
        Split(p);
        cur := cur + 1;
        p := heads[cur].value;
      }
    }

    /** The free block at the front of list o, if any, leaves it with count 1. */
    method TakeFirst(o: nat, ghost y: set<nat>) returns (r: Option<nat>)
      requires o <= MAX_ORD && State({}, y)
      modifies pages, heads, `lists
      ensures Chains() && r == Nth(old(lists[o]), 0) == old(heads[o])
      ensures r.None? ==> Ms() == old(Ms()) && lists == old(lists)
      ensures r.Some? ==>
        && r.value < NPAGES && FreeHead(old(Ms()), own, r.value, o)
        && Listed(old(Ms()), own, lists, {r.value})
        && Ms() == old(Ms())[r.value := Meta(o, 1, old(pages[r.value].flags))]
    {
      assert Linked(pages[..], o, heads[o], lists[o]);
      ghost var ms := Ms();
      r := ListRmFirst(o);
      if r.Some? {
        var p := r.value;
        assert p in old(lists[o]);
        FirstElement(old(lists[o]));
        ListedRemove(ms, own, old(lists), lists, {}, p, o);
        assert {} + {p} == {p};
        SetInfo(p, Meta(pages[p].ord, 1, pages[p].flags));
      }
    }

    // Page::mark_mids and Page::unmark_mids
    method SetMids(p: nat, n: nat, mark: bool)
      requires Chains() && 0 < n && p + n <= NPAGES
      requires forall j, o :: p < j < p + n && 0 <= o <= MAX_ORD ==> j !in lists[o]
      modifies pages
      ensures Chains() && Ms() == FillMids(old(Ms()), p, n, mark)
    {
      var i := 1;
      assert Ms() == FillMids(old(Ms()), p, 1, mark);
      while i < n
        invariant 1 <= i <= n && Chains() && Ms() == FillMids(old(Ms()), p, i, mark)
      {
        ghost var ms := Ms();
        SetInfo(p + i, if mark then Meta(pages[p + i].ord, i, Mid) else Meta(pages[p + i].ord, 0, Idle));
        i := i + 1;
        assert Ms() == FillMids(old(Ms()), p, i, mark);
      }
    }

    /** What _alloc leaves: block p taken out of state ms with count 1, no list
        holding it and its interior not yet marked. */
    ghost predicate Taken(ms: seq<Meta>, p: nat, o: nat)
      reads this, pages, heads
    {
      && Chains() && o <= MAX_ORD && p < NPAGES && |ms| == NPAGES
      && Partition(ms, own) && Described(ms, own, {})
      && Listed(ms, own, lists, {p}) && Coalesced(ms, own, {p}) && FreeHead(ms, own, p, o)
      && Ms() == ms[p := Meta(o, 1, ms[p].flags)]
    }

    /** The search of _alloc for a larger free block, smallest first. */
    method FindLarger(ord: nat) returns (i: nat)
      requires 0 < ord <= MAX_ORD && Chains()
      ensures i < ord && (heads[i].None? ==> i == 0 && lists[0] == [])
      ensures forall q :: i < q < ord ==> lists[q] == []
      ensures heads[i].Some? ==> heads[i].value in lists[i]
    {
      hide ChainsOf;
      i := ord - 1;
      ListHead(pages[..], heads[..], lists, i);
      while heads[i].None? && i > 0
        invariant 0 <= i < ord && forall q :: i < q < ord ==> lists[q] == []
        invariant heads[i] == Nth(lists[i], 0)
      {
        i := i - 1;
        ListHead(pages[..], heads[..], lists, i);
      }
    }

    // Allocator::_alloc, its second half
    method TakeSplit(ord: nat) returns (r: Option<nat>, ghost ms: seq<Meta>)
      requires 0 < ord <= MAX_ORD && State({}, {}) && lists[ord] == []
      modifies pages, heads, `lists, `own
      ensures r.None? ==> State({}, {}) && lists == old(lists) && Live() == old(Live())
      ensures r.None? <==> forall q :: 0 <= q <= ord ==> old(lists)[q] == []
      ensures r.Some? ==> Taken(ms, r.value, ord) && LiveOf(ms, own) == old(Live())
    {
      hide Partition, Described, Coalesced, LiveOf, ChainsOf;
      var i := FindLarger(ord);
      if heads[i].None? {
        return None, Ms();
      }
      var p := heads[i].value;
      assert FreeHead(Ms(), own, p, i);
      CoalescedOpen(Ms(), own, p);
      SplitTo(p, i, ord);
      ms := Ms();
      r := TakeFirst(ord, {p});
    }

    // Allocator::_alloc
    method TakeBlock(ord: nat) returns (r: Option<nat>, ghost ms: seq<Meta>)
      requires ord <= MAX_ORD && State({}, {})
      modifies pages, heads, `lists, `own
      ensures r.None? ==> State({}, {}) && lists == old(lists) && Live() == old(Live())
      ensures r.None? <==> forall q :: 0 <= q <= ord ==> old(lists)[q] == []
      ensures r.Some? ==> Taken(ms, r.value, ord) && LiveOf(ms, own) == old(Live())
    {
      hide Partition, Described, Coalesced, LiveOf, ChainsOf;
      ms := Ms();
      r := TakeFirst(ord, {});
      if r.Some? {
        CoalescedOpen(ms, own, r.value);
      } else if ord > 0 {
        r, ms := TakeSplit(ord);
      }
    }

    /** Marking a taken block completes an allocation. */
    method MarkTaken(p: nat, o: nat, ghost ms: seq<Meta>)
      requires Taken(ms, p, o)
      modifies pages
      ensures State({}, {})
      ensures Live() == LiveOf(ms, own)[p := Block(o, 1, Used)]
    {
      InteriorUnlisted(ms, own, lists, {p}, p, o);
      var n := BlockPages(o);
      SetMids(p, n, true);
      SetInfo(p, Meta(pages[p].ord, pages[p].refCnt, Used));
      FinishTake(ms, own, lists, p, o, Ms());
    }

    /** Allocator::alloc. The block is the smallest that holds n bytes, aligned
        to its size and disjoint from every live block; it fails exactly when no
        aligned run of that size is free. */
    method Alloc(n: nat) returns (r: Option<nat>)
      requires size != 0 ==> Valid()
      modifies pages, heads, `lists, `own
      ensures old(size) == 0 || n == 0 || n > MB ==> r.None?
      ensures old(size) != 0 ==> Valid()
      ensures r.None? && old(size) != 0 ==> Live() == old(Live())
      ensures old(size) != 0 && 0 < n <= MB ==>
        (r.None? <==> NoRoom(old(Live()), GetOrd(n)))
      ensures r.Some? ==> AllocatedAt(old(Live()), Live(), n, r.value)
      ensures r.Some? ==> GoodPlace(old(Live()), n, r.value)
      ensures r.Some? ==> FreeRun(old(Ms()), old(own), (r.value - OFFT) / PAGE, GetOrd(n))
    {
      hide Partition, Described, Listed, Coalesced, LiveOf, ChainsOf, FreeRun;
      if n > MB || n == 0 || size == 0 {
        return None;
      }
      var o := GetOrd(n);
      ghost var ms;
      ListsEmptyIffNoRun(Ms(), own, lists, o);
      NoRoomIff(o);
      var p;
      p, ms := TakeBlock(o);
      if p.None? {
        return None;
      }
      TakenWasFree(old(Ms()), old(own), ms, own, p.value, o);
      RunIsRoom(old(Ms()), old(own), p.value, o);
      PlaceIsGood(old(Live()), p.value, n);
      MarkTaken(p.value, o, ms);
      r := Some(p.value * PAGE + OFFT);
    }

    lemma NoRoomIff(o: nat)
      requires Valid()
      ensures NoRoom(Live(), o) <==> !exists a: nat :: FreeRun(Ms(), own, a, o)
    {
      hide FreeRun, Room, Partition, LiveOf;
      forall a: nat
        ensures FreeRun(Ms(), own, a, o) <==> Room(Live(), a, o)
      {
        RunIsRoom(Ms(), own, a, o);
      }
    }

    /** Exactly the addresses of the gigabyte from 0x4000_0000 on have a page, the one
        they lie in. */
    lemma LookupMeans(addr: nat)
      requires Valid()
      ensures Lookup(addr).Some? <==> 0x4000_0000 <= addr < 0x8000_0000
      ensures Lookup(addr).Some? ==> var a := 0x4000_0000 + 4096 * Lookup(addr).value; a <= addr < a + 4096
    {}

    // Allocator::lookup
    function Lookup(addr: nat): Option<nat>
      reads this
    {
      if addr < OFFT || addr - OFFT >= size then None else Some((addr - OFFT) / PAGE)
    }

    /** addr lies in the first page of a live block of len bytes. */
    ghost predicate LiveAt(addr: nat, len: nat)
      reads this, pages
    {
      && addr >= OFFT && var p := (addr - OFFT) / PAGE;
      && p in Live() && BlockPages(Live()[p].ord) * PAGE == len
    }

    /** Allocator::dup. It accepts exactly the pages with a nonzero count and a
        matching length; on a page that is not an interior page that is a live
        head, on an interior page it destroys the link to the head. */
    method Dup(addr: nat, len: nat) returns (ok: bool)
      requires Valid()
      modifies pages
      ensures ok <==> Lookup(addr).Some? && var p := old(pages[Lookup(addr).value]);
        p.refCnt > 0 && BlockPages(p.ord) * PAGE == len
      ensures !ok ==> Valid() && Live() == old(Live())
      ensures ok && old(pages[(addr - OFFT) / PAGE].flags) != Mid ==>
        && Valid() && (addr - OFFT) / PAGE in old(Live())
        && Live() == DupLive(old(Live()), (addr - OFFT) / PAGE)
      ensures ok && old(pages[(addr - OFFT) / PAGE].flags) == Mid ==> Broken(Ms())
    {
      var l := Lookup(addr);
      if l.None? {
        return false;
      }
      var p := l.value;
      if pages[p].refCnt == 0 || BlockPages(pages[p].ord) * PAGE != len {
        return false;
      }
      ghost var ms := Ms();
      HeadIffNotMid(ms, own, p);
      CountedUnlisted(ms, own, lists, p);
      SetInfo(p, Meta(pages[p].ord, pages[p].refCnt + 1, Cow));
      if ms[p].flags != Mid {
        Recount(ms, own, lists, p, Ms()[p]);
      } else {
        BrokenInside(ms, Ms(), own, p);
      }
      return true;
    }

    // cow_action, before its closure runs
    method CowAction(addr: nat, len: nat) returns (r: Option<bool>)
      requires Valid()
      modifies pages
      ensures Valid()
      ensures r.Some? <==> Lookup(addr).Some? && var p := old(pages[Lookup(addr).value]);
        p.flags == Cow && BlockPages(p.ord) * PAGE == len
      ensures r.None? ==> Live() == old(Live())
      ensures r.Some? ==> var p := (addr - OFFT) / PAGE;
        && p in old(Live()) && (r.value <==> old(Live())[p].refCnt == 1)
        && Live() == CowLive(old(Live()), p)
      ensures r.Some? ==> var p := (addr - 0x4000_0000) / 4096; var b := old(Live())[p];
        p in Live() && Live()[p] == if r.value then Block(b.ord, 1, Used) else Block(b.ord, b.refCnt - 1, Cow)
    {
      hide ChainsOf, Partition, Described, Coalesced;
      var l := Lookup(addr);
      if l.None? {
        return None;
      }
      var p := l.value;
      if pages[p].flags != Cow || BlockPages(pages[p].ord) * PAGE != len {
        return None;
      }
      CowIsLive(Ms(), own, p);
      CountedUnlisted(Ms(), own, lists, p);
      if pages[p].refCnt == 1 {
        Recount(Ms(), own, lists, p, Meta(pages[p].ord, 1, Used));
        SetInfo(p, Meta(pages[p].ord, 1, Used));
        return Some(true);
      } else {
        Recount(Ms(), own, lists, p, Meta(pages[p].ord, pages[p].refCnt - 1, Cow));
        SetInfo(p, Meta(pages[p].ord, pages[p].refCnt - 1, pages[p].flags));
        return Some(false);
      }
    }

    /** Allocator::free on a live block, whose asserts LiveAt discharges: one
        reference goes, and with the last one the block. */
    method Free(addr: nat, len: nat)
      requires Valid() && LiveAt(addr, len)
      modifies pages, heads, `lists, `own
      ensures Valid() && Live() == FreeLive(old(Live()), (addr - OFFT) / PAGE)
    {
      hide Partition, Described, Coalesced, ChainsOf;
      var p := Lookup(addr).value;
      ghost var ms := Ms();
      HeadIffNotMid(ms, own, p);
      CountedUnlisted(ms, own, lists, p);
      if pages[p].refCnt > 1 {
        Recount(ms, own, lists, p, Meta(pages[p].ord, pages[p].refCnt - 1, pages[p].flags));
        SetInfo(p, Meta(pages[p].ord, pages[p].refCnt - 1, pages[p].flags));
        return;
      }
      ReleaseBlock(p);
      Join(p);
    }

    /** Allocator::free on an interior page, which its asserts let through when the
        order left there fits len: whatever the page, no division of memory into
        blocks accounts for the descriptors any more. The first interior page, whose
        distance of one reads as the last reference, is also listed as free. */
    method FreeInside(addr: nat, len: nat)
      requires Valid() && Lookup(addr).Some? && var page := pages[Lookup(addr).value];
        page.flags == Mid && BlockPages(page.ord) * PAGE == len
      modifies pages, heads, `lists
      ensures Broken(Ms()) && var p := (addr - OFFT) / PAGE;
        old(pages[p].refCnt) == 1 ==> lists == old(lists)[MAX_ORD := [p] + old(lists[MAX_ORD])]
    {
      hide Partition, Described, Coalesced, ChainsOf;
      var p := Lookup(addr).value;
      ghost var ms := Ms();
      MidCounted(ms, own, p);
      CountedUnlisted(ms, own, lists, p);
      if pages[p].refCnt > 1 {
        SetInfo(p, Meta(pages[p].ord, pages[p].refCnt - 1, pages[p].flags));
        BrokenInside(ms, Ms(), own, p);
        return;
      }
      FirstInside(ms, own, p);
      SetInfo(p, Meta(pages[p].ord, 0, Idle));
      BrokenInside(ms, Ms(), own, p);
      var b := GetBuddy(p * PAGE, pages[p].ord) / PAGE;
      assert pages[b].ord != pages[p].ord;
      ListAdd(pages[p].ord, p);
    }

    /** The last reference goes: unmark_mids, clear the flags. */
    method ReleaseBlock(p: nat)
      requires State({}, {}) && p in Live()
      requires forall o :: 0 <= o <= MAX_ORD ==> p !in lists[o]
      modifies pages
      ensures State({p}, {p}) && FreeHead(Ms(), own, p, pages[p].ord) && Live() == old(Live()) - {p}
    {
      hide Partition, Described, Coalesced, ChainsOf;
      ghost var ms := Ms();
      var o := pages[p].ord;
      Release(ms, own, lists, p);
      InteriorUnlisted(ms, own, lists, {}, p, o);
      SetInfo(p, Meta(o, 0, pages[p].flags));
      SetMids(p, BlockPages(o), false);
      SetInfo(p, Meta(o, pages[p].refCnt, Idle));
      assert Ms() == FillMids(ms[p := Meta(o, 0, Idle)], p, BlockPages(o), false);
    }

    constructor ()
      ensures size == 0 && pages.Length == NPAGES && heads.Length == MAX_ORD + 1
      ensures fresh(pages) && fresh(heads)
    {
      pages := new Page[NPAGES](_ => Page(0, 0, 0, None, Idle));
      heads := new Option<nat>[MAX_ORD + 1](_ => None);
      size := 0;
      own := [];
      lists := [];
    }

    /** The state init starts from: every page a live block of its own. */
    method Reset()
      requires pages.Length == NPAGES && heads.Length == MAX_ORD + 1
      modifies this, pages, heads
      ensures Valid() && Live() == SinglePages(0, NPAGES)
    {
      forall i | 0 <= i < NPAGES {
        pages[i] := Page(i, MAX_ORD, 1, None, Idle);
      }
      forall o | 0 <= o <= MAX_ORD {
        heads[o] := None;
      }
      size := GB;
      own := seq(NPAGES, i requires 0 <= i < NPAGES => i);
      lists := seq(MAX_ORD + 1, o requires 0 <= o <= MAX_ORD => []);
      ResetPartition(Ms(), own);
      ResetLive(Ms(), own);
    }

    /** The loop of init_free_list and init_free_list2: the live single pages
        from one address up to another are freed one at a time. */
    method FreeSpan(start: nat, end: nat)
      requires Valid() && OFFT <= start && (start - OFFT) % PAGE == 0 && (start < end ==> end <= OFFT + GB)
      requires forall p :: p in Span(start, end) ==> p in Live() && Live()[p].ord == MAX_ORD && Live()[p].refCnt == 1
      modifies pages, heads, `lists, `own
      ensures Valid() && Live() == old(Live()) - Span(start, end)
    {
      hide Partition, Described, Listed, Coalesced, ChainsOf, LiveOf;
      var i := start;
      ghost var k := (i - OFFT) / PAGE;
      while i < end
        invariant start <= i == OFFT + k * PAGE && Valid() && (i < end + PAGE || i == start)
        invariant Live() == old(Live()) - Span(start, i)
      {
        assert k in Span(start, end);
        Free(i, PAGE);
        i := i + PAGE;
        k := k + 1;
        assert Span(start, i) == Span(start, i - PAGE) + {k - 1};
      }
      assert Span(start, i) == Span(start, end);
    }

    /** Allocator::init: every page from the kernel's end on becomes free. */
    method Init(kEnd: nat)
      requires pages.Length == NPAGES && heads.Length == MAX_ORD + 1
      requires kEnd > 0 && AlignF(kEnd, PAGE) >= OFFT
      modifies this, pages, heads
      ensures Valid() && Live() == SinglePages(0, NPAGES) - Span(AlignF(kEnd, PAGE), OFFT + GB)
      ensures forall a: nat :: InUse(Live(), a) <==> 0x4000_0000 <= a < 0x8000_0000 && a < AlignF(kEnd, 4096)
    {
      Reset();
      FreeSpan(AlignF(kEnd, PAGE), OFFT + GB);
      InitUse(Live(), AlignF(kEnd, PAGE));
    }

    /** free_low: every page below the kernel becomes free. */
    method FreeLow(kBegin: nat)
      requires Valid() && AlignB(kBegin, PAGE) <= OFFT + GB
      requires forall p :: p in Span(OFFT, AlignB(kBegin, PAGE)) ==>
        p in Live() && Live()[p].ord == MAX_ORD && Live()[p].refCnt == 1
      modifies pages, heads, `lists, `own
      ensures Valid() && Live() == old(Live()) - Span(OFFT, AlignB(kBegin, PAGE))
    {
      FreeSpan(OFFT, AlignB(kBegin, PAGE));
    }

    /** Freeing a block just allocated restores the partition, the free blocks of
        every order, and the count and flags of every page. */
    method AllocThenFree(n: nat) returns (r: Option<nat>)
      requires Valid()
      modifies pages, heads, `lists, `own
      ensures Valid() && own == old(own) && Live() == old(Live())
      ensures forall o, i :: 0 <= o <= MAX_ORD ==> (i in lists[o] <==> i in old(lists)[o])
      ensures forall i :: 0 <= i < NPAGES ==>
        pages[i].refCnt == old(pages[i].refCnt) && pages[i].flags == old(pages[i].flags)
    {
      hide Partition, Described, Listed, Coalesced, ChainsOf, LiveOf, FreeRun, FreeHead;
      ghost var ms, own0, lists0 := Ms(), own, lists;
      r := Alloc(n);
      if r.Some? {
        Free(r.value, BlockPages(GetOrd(n)) * PAGE);
      }
      assert Live() == old(Live());
      LiveDeterminesState(ms, own0, Ms(), own);
      SameLists(ms, own0, lists0, Ms(), own, lists);
      assert forall i :: 0 <= i < NPAGES ==> ms[i] == old(pages[i]).Info() && Ms()[i] == pages[i].Info();
    }

    lemma Sized()
      requires Valid()
      ensures size == GB
    {}

    /** What a live block's head page says. */
    lemma LiveHead(p: nat)
      requires Valid() && p in Live()
      ensures p < NPAGES && pages[p].flags != Mid
      ensures Live()[p] == Block(pages[p].ord, pages[p].refCnt, pages[p].flags) && pages[p].refCnt > 0
    {
      HeadIffNotMid(Ms(), own, p);
    }

    /** Page::get_head */
    function GetHead(i: nat): Option<int>
      requires i < pages.Length
      reads pages
    {
      if pages[i].flags == Mid then Some(i - pages[i].refCnt) else None
    }

    /** In every valid state each interior page of a live block leads back to the
        block's head, and no other page claims to be an interior page. */
    lemma HeadsReachable(h: nat, i: nat)
      requires Valid() && i < NPAGES
      ensures h in Live() && h < i < h + BlockPages(Live()[h].ord) ==> GetHead(i) == Some(h)
      ensures GetHead(i).Some? ==> var g := GetHead(i).value;
        g in Live() && g < i < g + BlockPages(Live()[g].ord)
    {
      ghost var ms := Ms();
      assert InBlock(ms, own, i) && PageOk(ms[own[i]], ms[i], i - own[i]);
      if h in Live() {
        assert IsBlock(ms, own, h);
      }
    }
  }

  ghost function PageRange(lo: nat, hi: nat): (s: set<nat>)
    ensures forall p :: p in s <==> lo <= p < hi
  {
    if lo >= hi then {} else PageRange(lo, hi - 1) + {hi - 1}
  }

  /** The pages with an address from start on and below end. */
  ghost function Span(start: nat, end: nat): (s: set<nat>)
    requires start >= OFFT
    ensures forall p :: p in s <==> start <= OFFT + p * PAGE + PAGE - 1 && OFFT + p * PAGE < end
  {
    PageRange((start - OFFT) / PAGE, if end <= OFFT then 0 else (end - OFFT + PAGE - 1) / PAGE)
  }

  ghost function SinglePages(lo: nat, hi: nat): Live {
    map p | p in PageRange(lo, hi) :: Block(MAX_ORD, 1, Idle)
  }

  lemma ResetPartition(ms: seq<Meta>, own: seq<nat>)
    requires |ms| == |own| == NPAGES
    requires forall i :: 0 <= i < NPAGES ==> own[i] == i && ms[i] == Meta(MAX_ORD, 1, Idle)
    ensures Partition(ms, own)
  {
    forall i | 0 <= i < NPAGES
      ensures InBlock(ms, own, i) && IsBlock(ms, own, i)
    {
      MultipleOf(i, 1);
    }
  }

  lemma ResetLive(ms: seq<Meta>, own: seq<nat>)
    requires |ms| == |own| == NPAGES
    requires forall i :: 0 <= i < NPAGES ==> own[i] == i && ms[i] == Meta(MAX_ORD, 1, Idle)
    ensures LiveOf(ms, own) == SinglePages(0, NPAGES)
  {
    hide PageRange;
    var live, all := LiveOf(ms, own), SinglePages(0, NPAGES);
    forall p: nat
      ensures p in live <==> p in all
      ensures p in live ==> live[p] == all[p]
    {}
    assert live == all;
  }

  lemma SameLists(ms: seq<Meta>, own: seq<nat>, lists: seq<seq<nat>>, ms': seq<Meta>, own': seq<nat>, lists': seq<seq<nat>>)
    requires Listed(ms, own, lists, {}) && Listed(ms', own', lists', {})
    requires forall h: nat, o: nat :: FreeHead(ms, own, h, o) <==> FreeHead(ms', own', h, o)
    ensures forall o, i :: 0 <= o <= MAX_ORD ==> (i in lists[o] <==> i in lists'[o])
  {
    forall o, i: nat | 0 <= o <= MAX_ORD
      ensures i in lists[o] <==> i in lists'[o]
    {
      assert i in lists[o] <==> FreeHead(ms, own, i, o) && i !in {};
      assert i in lists'[o] <==> FreeHead(ms', own', i, o) && i !in {};
    }
  }

  /** In a described state a counted page heads a live block unless it is Mid. */
  lemma HeadIffNotMid(ms: seq<Meta>, own: seq<nat>, p: nat)
    requires Partition(ms, own) && Described(ms, own, {}) && p < NPAGES && ms[p].refCnt > 0
    ensures p in LiveOf(ms, own) <==> ms[p].flags != Mid
  {
    assert InBlock(ms, own, p) && PageOk(ms[own[p]], ms[p], p - own[p]);
  }

  lemma CowIsLive(ms: seq<Meta>, own: seq<nat>, p: nat)
    requires Partition(ms, own) && Described(ms, own, {}) && p < NPAGES && ms[p].flags == Cow
    ensures p in LiveOf(ms, own)
  {
    assert InBlock(ms, own, p) && PageOk(ms[own[p]], ms[p], p - own[p]);
  }

  /** No division into blocks accounts for these descriptors. */
  ghost predicate Broken(ms: seq<Meta>) {
    forall own: seq<nat> :: !(Divided(ms, own) && Described(ms, own, {}))
  }

  /** A page behind a live head leads to it, however memory is divided. */
  lemma LeadsToHead(ms: seq<Meta>, own: seq<nat>, h: nat, p: nat)
    requires Divided(ms, own) && Described(ms, own, {}) && h < p < NPAGES
    requires ms[h].refCnt > 0 && ms[h].flags != Mid && p < h + BlockPages(ms[h].ord)
    ensures ms[p].flags == Mid && ms[p].refCnt == p - h
  {
    assert InBlock(ms, own, h) && PageOk(ms[own[h]], ms[h], h - own[h]);
    assert IsBlock(ms, own, h) && own[p] == h;
    assert PageOk(ms[own[p]], ms[p], p - own[p]);
  }

  /** Changing an interior page's flag or distance breaks the descriptors. */
  lemma BrokenInside(ms: seq<Meta>, ms': seq<Meta>, own: seq<nat>, p: nat)
    requires Partition(ms, own) && Described(ms, own, {}) && p < NPAGES && ms[p].flags == Mid
    requires |ms'| == |ms| && ms' == ms[p := ms'[p]] && (ms'[p].flags != Mid || ms'[p].refCnt != ms[p].refCnt)
    ensures Broken(ms')
  {
    var h := own[p];
    assert InBlock(ms, own, p) && PageOk(ms[h], ms[p], p - h) && PageOk(ms[h], ms[h], 0);
    hide Divided, Described;
    forall own': seq<nat> | Divided(ms', own') && Described(ms', own', {})
      ensures false
    {
      LeadsToHead(ms', own', h, p);
    }
  }

  /** The first interior page of a block is odd, so that it records the order of a
      single page and its buddy is the head. */
  lemma FirstInside(ms: seq<Meta>, own: seq<nat>, p: nat)
    requires Partition(ms, own) && Described(ms, own, {}) && p < NPAGES && ms[p].flags == Mid && ms[p].refCnt == 1
    ensures own[p] == p - 1 && ms[p - 1].ord < MAX_ORD == ms[p].ord && GetBuddy(p * PAGE, MAX_ORD) / PAGE == p - 1
  {
    var h := own[p];
    assert InBlock(ms, own, p) && PageOk(ms[h], ms[p], p - h);
    assert IsBlock(ms, own, h);
    AlignedFiner(h, ms[h].ord, MAX_ORD - 1);
    MultipleIsMod(h, 2);
    MultipleIsMod(p, 2);
    MultipleIsMod(p, 1);
    if ms[p].ord < MAX_ORD { AlignedFiner(p, ms[p].ord, MAX_ORD - 1); }
    BuddyIsXor(p, MAX_ORD);
  }

  lemma MidCounted(ms: seq<Meta>, own: seq<nat>, p: nat)
    requires Partition(ms, own) && Described(ms, own, {}) && p < NPAGES && ms[p].flags == Mid
    ensures ms[p].refCnt > 0 && own[p] < p
  {
    assert InBlock(ms, own, p) && PageOk(ms[own[p]], ms[p], p - own[p]);
  }

  lemma CountedUnlisted(ms: seq<Meta>, own: seq<nat>, lists: seq<seq<nat>>, p: nat)
    requires Listed(ms, own, lists, {}) && p < |ms| && ms[p].refCnt > 0
    ensures forall o :: 0 <= o <= MAX_ORD ==> p !in lists[o]
  {
    forall o | 0 <= o <= MAX_ORD
      ensures p !in lists[o]
    {
      assert !FreeHead(ms, own, p, o);
    }
  }

  /** A block for n bytes has been added to the live blocks at addr. */
  ghost predicate AllocatedAt(live: Live, live': Live, n: nat, addr: nat) {
    && 0 < n <= MB && addr >= OFFT && (addr - OFFT) % PAGE == 0
    && var p := (addr - OFFT) / PAGE;
    && p !in live && live' == live[p := Block(GetOrd(n), 1, Used)]
  }

  // ------------------------------------------------------------------ addresses

  /** Address a lies in a live block. */
  ghost predicate InUse(live: Live, a: nat) {
    exists h :: h in live && 0x4000_0000 + 4096 * h <= a < 0x4000_0000 + 4096 * (h + BlockPages(live[h].ord))
  }

  lemma UseIsCover(live: Live, a: nat)
    ensures InUse(live, a) <==> a >= 0x4000_0000 && Covered(live, (a - 0x4000_0000) / 4096)
  {
    if a >= 0x4000_0000 && Covered(live, (a - 0x4000_0000) / 4096) {
      var h :| h in live && h <= (a - 0x4000_0000) / 4096 < h + BlockPages(live[h].ord);
      assert 0x4000_0000 + 4096 * h <= a < 0x4000_0000 + 4096 * (h + BlockPages(live[h].ord));
    }
  }

  /** The bytes of a block for n: the smallest power of two that holds them, and no
      less than a page. */
  lemma SmallestBlock(n: nat)
    requires 0 < n <= MB
    ensures var size := BlockPages(GetOrd(n)) * 4096;
      && size == 4096 * Pow2(8 - GetOrd(n)) && n <= size <= 0x10_0000 && (size == 4096 || size < 2 * n)
  {
    var o := GetOrd(n);
    PagesArePowers(o);
    SizesNest(0, o);
    assert BlockPages(0) == 256;
    if o < MAX_ORD { assert BlockPages(o) == 2 * BlockPages(o + 1); }
  }

  /** A block for n bytes at addr would be aligned to its size, inside the memory from
      0x4000_0000 to 0x8000_0000, and on no live block. */
  ghost predicate GoodPlace(live: Live, n: nat, addr: nat)
    requires 0 < n <= MB
  {
    var size := BlockPages(GetOrd(n)) * 4096;
    && addr % size == 0 && 0x4000_0000 <= addr && addr + size <= 0x8000_0000
    && forall a :: addr <= a < addr + size ==> !InUse(live, a)
  }

  lemma PlaceIsGood(live: Live, p: nat, n: nat)
    requires 0 < n <= MB && Room(live, p, GetOrd(n))
    ensures GoodPlace(live, n, p * PAGE + OFFT)
  {
    var o, addr := GetOrd(n), p * PAGE + OFFT;
    var pages := BlockPages(o);
    AlignedAddress(p, o);
    forall a | addr <= a < addr + pages * 4096
      ensures !InUse(live, a)
    {
      assert p <= (a - 0x4000_0000) / 4096 < p + pages;
      UseIsCover(live, a);
    }
  }

  lemma AlignedAddress(p: nat, o: nat)
    requires o <= MAX_ORD
    ensures Aligned(p, o) <==> (p * PAGE + OFFT) % (BlockPages(o) * 4096) == 0
  {
    var n := BlockPages(o);
    AlignedFiner(0x4_0000, 0, o) by { assert BlockPages(0) == 256; MultipleIsMod(0x4_0000, 256); }
    MultipleIsMod(p, n);
    MultipleIsMod(0x4_0000, n);
    var k := Quotient(0x4_0000, n);
    assert p * PAGE + OFFT == (p + k * n) * 4096;
    ScaledMod(p + k * n, n, 4096);
    ShiftedMod(p, k, n);
  }

  lemma ScaledMod(x: nat, n: nat, c: nat)
    requires n > 0 && c > 0
    ensures (x * c) % (n * c) == 0 <==> x % n == 0
  {
    if x % n == 0 {
      var q := x / n;
      assert x == q * n;
      assert x * c == q * (n * c);
      MulDiv(q, n * c);
    }
    if (x * c) % (n * c) == 0 {
      var q := (x * c) / (n * c);
      assert x * c == q * (n * c) == (q * n) * c;
      MulDiv(x, c);
      MulDiv(q * n, c);
      MulDiv(q, n);
    }
  }

  lemma ShiftedMod(x: nat, k: nat, n: nat)
    requires n > 0
    ensures (x + k * n) % n == 0 <==> x % n == 0
  {
    MultipleIsMod(x, n);
    MultipleIsMod(x + k * n, n);
    MultipleOf(k, n);
    if x % n == 0 {
      AddMultiples(x, k * n, n);
    } else {
      Shifted(x, k, n);
    }
  }

  lemma {:induction false} Shifted(x: nat, k: nat, n: nat)
    requires n > 0 && !Multiple(x, n)
    ensures !Multiple(x + k * n, n)
    decreases k
  {
    if k > 0 {
      Shifted(x, k - 1, n);
      MulDistr(k - 1, 1, n);
      assert x + k * n == (x + (k - 1) * n) + n;
    }
  }

  /** Without room for n bytes no place is good, and with room some place is. */
  lemma NoRoomMeans(live: Live, n: nat)
    requires 0 < n <= MB
    ensures NoRoom(live, GetOrd(n)) <==> forall addr: nat :: !GoodPlace(live, n, addr)
  {
    var o := GetOrd(n);
    hide Room, GoodPlace;
    forall addr: nat | GoodPlace(live, n, addr)
      ensures !NoRoom(live, o)
    {
      var p := GoodIsRoom(live, n, addr);
    }
    forall p: nat | Room(live, p, o)
      ensures exists addr: nat :: GoodPlace(live, n, addr)
    {
      PlaceIsGood(live, p, n);
    }
  }

  lemma GoodIsRoom(live: Live, n: nat, addr: nat) returns (p: nat)
    requires 0 < n <= MB && GoodPlace(live, n, addr)
    ensures Room(live, p, GetOrd(n))
  {
    var o := GetOrd(n);
    var pages := BlockPages(o);
    var q := addr / (pages * 4096);
    assert addr == q * (pages * 4096) == (q * pages) * 4096;
    p := q * pages - 0x4_0000;
    assert addr == p * PAGE + OFFT;
    AlignedAddress(p, o);
    forall j | p <= j < p + pages
      ensures !Covered(live, j)
    {
      UseIsCover(live, 0x4000_0000 + 4096 * j);
    }
  }

  lemma InitUse(live: Live, end: nat)
    requires end >= OFFT && end % PAGE == 0 && live == SinglePages(0, NPAGES) - Span(end, OFFT + GB)
    ensures forall a: nat :: InUse(live, a) <==> 0x4000_0000 <= a < 0x8000_0000 && a < end
  {
    forall a: nat
      ensures InUse(live, a) <==> 0x4000_0000 <= a < 0x8000_0000 && a < end
    {
      UseIsCover(live, a);
      if 0x4000_0000 <= a { SingleCover(live, (a - 0x4000_0000) / 4096); }
    }
  }

  /** Single pages cover just themselves. */
  lemma SingleCover(live: Live, j: nat)
    requires forall h :: h in live ==> live[h].ord == MAX_ORD
    ensures Covered(live, j) <==> j in live
  {
    assert BlockPages(MAX_ORD) == 1;
    if j in live { assert j <= j < j + BlockPages(live[j].ord); }
  }

  lemma InteriorUnlisted(ms: seq<Meta>, own: seq<nat>, lists: seq<seq<nat>>, x: set<nat>, p: nat, o: nat)
    requires Partition(ms, own) && Listed(ms, own, lists, x) && p < NPAGES && own[p] == p && ms[p].ord == o
    ensures o <= MAX_ORD && p + BlockPages(o) <= NPAGES
    ensures forall j, q :: p < j < p + BlockPages(o) && 0 <= q <= MAX_ORD ==> j !in lists[q]
  {
    assert IsBlock(ms, own, p);
    forall j, q | p < j < p + BlockPages(o) && 0 <= q <= MAX_ORD
      ensures j !in lists[q]
    {
      assert own[j] == p && !FreeHead(ms, own, j, q);
    }
  }

  lemma FinishTake(ms: seq<Meta>, own: seq<nat>, lists: seq<seq<nat>>, p: nat, o: nat, ms': seq<Meta>)
    requires Partition(ms, own) && Described(ms, own, {}) && p < NPAGES
    requires Listed(ms, own, lists, {p}) && Coalesced(ms, own, {p}) && FreeHead(ms, own, p, o)
    requires ms' == FillMids(ms[p := Meta(o, 1, ms[p].flags)], p, BlockPages(o), true)[p := Meta(o, 1, Used)]
    ensures Partition(ms', own) && Described(ms', own, {}) && Listed(ms', own, lists, {}) && Coalesced(ms', own, {})
    ensures LiveOf(ms', own) == LiveOf(ms, own)[p := Block(o, 1, Used)]
  {
    assert ms' == FillMids(ms[p := Meta(o, 1, Used)], p, BlockPages(o), true);
    FillOnlyBlock(ms, own, p, Meta(o, 1, Used), true);
    FillDescribed(ms, own, p, Meta(o, 1, Used));
    RewritePartition(ms, ms', own);
    TakeKeeps(ms, own, lists, p, ms');
  }

  /** A block that is free after splitting was a free run before it. */
  lemma TakenWasFree(ms: seq<Meta>, own: seq<nat>, ms': seq<Meta>, own': seq<nat>, p: nat, o: nat)
    requires Partition(ms, own) && Partition(ms', own') && LiveOf(ms, own) == LiveOf(ms', own')
    requires FreeHead(ms', own', p, o)
    ensures FreeRun(ms, own, p, o) && p !in LiveOf(ms, own)
  {
    HeadIsFreeRun(ms', own', p, o);
    forall j: nat | p <= j < p + BlockPages(o)
      ensures FreePage(ms, own, j)
    {
      assert FreePage(ms', own', j);
      FreeIffUncovered(ms', own', j);
      FreeIffUncovered(ms, own, j);
    }
  }

  lemma FirstElement(list: seq<nat>)
    requires Distinct(list) && list != []
    ensures forall x :: x in list[1..] <==> x in list && x != list[0]
  {
    WithoutElements(list, 0);
    assert Without(list, 0) == list[1..];
  }
}
