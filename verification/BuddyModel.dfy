/** The value-level theory of the buddy allocator: the partition of physical
    memory into aligned blocks and what splitting and joining do to it. */
module BuddyModel {
  import opened Frames
  import Bits

  const NPAGES: nat := 0x40000

  // ---------------------------------------------------------------- alignment

  /** h is a multiple of n. */
  predicate Multiple(h: nat, n: nat)
    requires n > 0
    decreases h
  {
    if h < n then h == 0 else Multiple(h - n, n)
  }

  /** h can head a block of order o. */
  predicate Aligned(h: nat, o: nat) { Multiple(h, BlockPages(o)) }

  /** The page index of the buddy of the block of order o at h: the other half
      of the block one order up that holds it. */
  function Buddy(h: nat, o: nat): int
    requires o > 0
  {
    if Aligned(h, o - 1) then h + BlockPages(o) else h - BlockPages(o)
  }

  lemma MulMono(x: nat, y: nat, s: nat)
    requires x <= y
    ensures x * s <= y * s
  {}

  lemma MulDistr(x: int, y: int, s: int)
    ensures (x + y) * s == x * s + y * s
  {}

  lemma MulDiv(k: nat, s: nat)
    requires s > 0
    ensures (k * s) % s == 0 && (k * s) / s == k
  {
    var n := k * s;
    var q, r := n / s, n % s;
    assert n == q * s + r;
    if q < k {
      MulMono(q + 1, k, s);
      MulDistr(q, 1, s);
    } else if q > k {
      MulMono(k + 1, q, s);
      MulDistr(k, 1, s);
    }
  }

  lemma {:induction false} MultipleOf(k: nat, n: nat)
    requires n > 0
    ensures Multiple(k * n, n)
  {
    if k > 0 {
      MulDistr(k - 1, 1, n);
      MultipleOf(k - 1, n);
    }
  }

  lemma {:induction false} Quotient(h: nat, n: nat) returns (k: nat)
    requires n > 0 && Multiple(h, n)
    ensures h == k * n
    decreases h
  {
    if h < n {
      k := 0;
    } else {
      k := Quotient(h - n, n);
      MulDistr(k, 1, n);
      k := k + 1;
    }
  }

  lemma MultipleIsMod(h: nat, n: nat)
    requires n > 0
    ensures Multiple(h, n) <==> h % n == 0
  {
    if Multiple(h, n) {
      var k := Quotient(h, n);
      MulDiv(k, n);
    }
    if h % n == 0 {
      var k := h / n;
      assert h == k * n;
      MultipleOf(k, n);
    }
  }

  lemma {:induction false} AddMultiples(a: nat, b: nat, n: nat)
    requires n > 0 && Multiple(a, n) && Multiple(b, n)
    ensures Multiple(a + b, n)
    decreases a
  {
    if a >= n { AddMultiples(a - n, b, n); }
  }

  /** Multiples of n are n apart or equal. */
  lemma {:induction false} MultiplesApart(a: nat, b: nat, n: nat)
    requires n > 0 && Multiple(a, n) && Multiple(b, n) && a < b
    ensures a + n <= b
    decreases a
  {
    if a >= n { MultiplesApart(a - n, b - n, n); }
  }

  lemma {:induction false} HalfDivides(h: nat, n: nat)
    requires n > 0 && Multiple(h, 2 * n)
    ensures Multiple(h, n)
    decreases h
  {
    if h >= 2 * n {
      HalfDivides(h - 2 * n, n);
      assert Multiple(h - n, n);
    }
  }

  /** A multiple of n is a multiple of 2n or n past one, never both. */
  lemma {:induction false} EvenOrOdd(h: nat, n: nat)
    requires n > 0 && Multiple(h, n)
    ensures !Multiple(h, 2 * n) <==> (h >= n && Multiple(h - n, 2 * n))
    ensures Multiple(h + n, n)
    decreases h
  {
    if h >= 2 * n {
      EvenOrOdd(h - 2 * n, n);
    }
  }

  lemma {:induction false} AlignedFiner(h: nat, o: nat, o': nat)
    requires o <= o' <= MAX_ORD && Aligned(h, o)
    ensures Aligned(h, o')
    decreases o' - o
  {
    if o < o' {
      HalfDivides(h, BlockPages(o + 1));
      AlignedFiner(h, o + 1, o');
    }
  }

  lemma {:induction false} SizesNest(o: nat, o': nat)
    requires o <= o' <= MAX_ORD
    ensures Aligned(BlockPages(o), o') && BlockPages(o') <= BlockPages(o)
    ensures o < o' ==> 2 * BlockPages(o') <= BlockPages(o)
    decreases o' - o
  {
    if o < o' {
      SizesNest(o + 1, o');
      AddMultiples(BlockPages(o + 1), BlockPages(o + 1), BlockPages(o'));
    }
  }

  /** Two aligned blocks are nested or disjoint. */
  lemma Laminar(a: nat, oa: nat, b: nat, ob: nat)
    requires oa <= ob <= MAX_ORD && Aligned(a, oa) && Aligned(b, ob)
    requires a < b + BlockPages(ob) && b < a + BlockPages(oa)
    ensures a <= b && b + BlockPages(ob) <= a + BlockPages(oa)
  {
    AlignedFiner(a, oa, ob);
    SizesNest(oa, ob);
    AddMultiples(a, BlockPages(oa), BlockPages(ob));
    MultiplesApart(b, a + BlockPages(oa), BlockPages(ob));
    if b < a { MultiplesApart(b, a, BlockPages(ob)); }
  }

  /** The buddy pair of an aligned block: the block and its buddy are the two
      halves of an aligned block one order up, and each is the other's buddy. */
  lemma BuddyPair(h: nat, o: nat)
    requires 0 < o <= MAX_ORD && Aligned(h, o)
    ensures var b, n := Buddy(h, o), BlockPages(o);
      && 0 <= b && Aligned(b, o) && Buddy(b, o) == h
      && (b == h + n || h == b + n)
      && Aligned(if h < b then h else b, o - 1)
  {
    hide Multiple;
    PairOfMultiple(h, BlockPages(o));
  }

  lemma PairOfMultiple(h: nat, n: nat)
    requires n > 0 && Multiple(h, n)
    ensures var b := if Multiple(h, 2 * n) then h + n else h - n;
      && 0 <= b && Multiple(b, n) && h == (if Multiple(b, 2 * n) then b + n else b - n)
      && Multiple(if h < b then h else b, 2 * n)
  {
    EvenOrOdd(h, n);
    if Multiple(h, 2 * n) {
      EvenOrOdd(h + n, n);
    } else {
      HalfDivides(h - n, n);
    }
  }

  /** get_buddy, on addresses relative to the start of memory. */
  function GetBuddy(addr: nat, ord: nat): nat
    requires ord <= MAX_ORD
  {
    Bits.Xor(addr, Bits.Shl(0x1000, MAX_ORD - ord))
  }

  /** The XOR of get_buddy finds the other half. */
  lemma BuddyIsXor(h: nat, o: nat)
    requires 0 < o <= MAX_ORD && Aligned(h, o)
    ensures GetBuddy(h * 0x1000, o) / 0x1000 == Buddy(h, o)
  {
    var k := MAX_ORD - o;
    var n, x := Bits.Pow2(k), Bits.Xor(h, Bits.Pow2(k));
    PagesArePowers(o);
    Bits.XorPow2(h, k);
    HalfOfPair(h, BlockPages(o));
    assert x == Buddy(h, o);
    PageShift(h);
    PageShift(n);
    PageShift(x);
    SizeShift(k);
    Bits.XorShift(h, n, 12);
    hide Bits.Xor, Bits.Shl, Bits.Pow2, BlockPages, Aligned;
    assert GetBuddy(h * 0x1000, o) == x * 0x1000;
  }

  lemma PageShift(a: nat)
    ensures Bits.Shl(a, 12) == a * 0x1000
  {
    assert Bits.Pow2(6) == 64 && Bits.Pow2(12) == 0x1000;
    Bits.ShlIs(a, 12);
  }

  lemma {:induction false} SizeShift(k: nat)
    ensures Bits.Shl(0x1000, k) == Bits.Pow2(k) * 0x1000
  {
    if k > 0 {
      SizeShift(k - 1);
    }
  }

  lemma {:induction false} PagesArePowers(o: nat)
    requires o <= MAX_ORD
    ensures BlockPages(o) == Bits.Pow2(MAX_ORD - o)
    decreases MAX_ORD - o
  {
    if o < MAX_ORD {
      PagesArePowers(o + 1);
    }
  }

  lemma HalfOfPair(h: nat, n: nat)
    requires n > 0 && Multiple(h, n)
    ensures h / n % 2 == 0 <==> Multiple(h, 2 * n)
  {
    hide Multiple;
    var k := Quotient(h, n);
    MulDiv(k, n);
    EvenOrOdd(h, n);
    if Multiple(h, 2 * n) {
      var j := Quotient(h, 2 * n);
      DoubledQuotient(k, j, n);
    } else {
      var j := Quotient(h - n, 2 * n);
      DoubledQuotientPlus(k, j, n);
    }
  }

  lemma DoubledQuotientPlus(k: nat, j: nat, n: nat)
    requires n > 0 && k * n == j * (2 * n) + n
    ensures k == 2 * j + 1
  {
    assert j * (2 * n) == (2 * j) * n;
    MulDistr(2 * j, 1, n);
    MulDiv(k, n);
    MulDiv(2 * j + 1, n);
  }

  lemma DoubledQuotient(k: nat, j: nat, n: nat)
    requires n > 0 && k * n == j * (2 * n)
    ensures k == 2 * j
  {
    assert j * (2 * n) == (2 * j) * n;
    MulDiv(k, n);
    MulDiv(2 * j, n);
  }

  // ---------------------------------------------------------------- partition

  /** The part of a page descriptor that the free lists do not own. */
  datatype Meta = Meta(ord: nat, refCnt: nat, flags: Flags)

  /** The pages from h on form one aligned block of h's order. */
  ghost predicate IsBlock(ms: seq<Meta>, own: seq<nat>, h: nat)
    requires |ms| == |own| && h < |own|
  {
    && ms[h].ord <= MAX_ORD
    && Aligned(h, ms[h].ord)
    && h + BlockPages(ms[h].ord) <= |own|
    && forall j :: h <= j < h + BlockPages(ms[h].ord) ==> own[j] == h
  }

  /** own sends each page to the head of the one block that holds it: the
      blocks cover memory, are disjoint, and are aligned powers of two. */
  ghost predicate Divided(ms: seq<Meta>, own: seq<nat>) {
    && |ms| == |own| == NPAGES
    && (forall i :: 0 <= i < NPAGES ==> InBlock(ms, own, i))
    && (forall h :: 0 <= h < NPAGES && own[h] == h ==> IsBlock(ms, own, h))
  }

  /** Every page, even inside a block, records an order it could head a block of. */
  ghost predicate OrdersFit(ms: seq<Meta>) {
    forall i :: 0 <= i < |ms| ==> ms[i].ord <= MAX_ORD && Aligned(i, ms[i].ord)
  }

  ghost predicate Partition(ms: seq<Meta>, own: seq<nat>) {
    Divided(ms, own) && OrdersFit(ms)
  }

  /** Page i lies in the block its owner heads. */
  ghost predicate InBlock(ms: seq<Meta>, own: seq<nat>, i: nat)
    requires |ms| == |own| && i < |own|
  {
    own[i] <= i && own[own[i]] == own[i] && i < own[i] + BlockPages(ms[own[i]].ord)
  }

  /** What a page's descriptor says, given its head's and its distance to it. */
  ghost predicate PageOk(head: Meta, page: Meta, distance: int) {
    if head.refCnt == 0 then page.refCnt == 0 && page.flags == Idle
    else if distance == 0 then page.flags != Mid
    else page.flags == Mid && page.refCnt == distance
  }

  /** Every page outside the blocks headed by x describes itself correctly. */
  ghost predicate Described(ms: seq<Meta>, own: seq<nat>, x: set<nat>) {
    && |ms| == |own|
    && forall i :: 0 <= i < |own| && own[i] < |ms| && own[i] !in x ==>
         PageOk(ms[own[i]], ms[i], i - own[i])
  }

  ghost predicate FreeHead(ms: seq<Meta>, own: seq<nat>, h: int, o: nat) {
    && 0 <= h < |own| == |ms|
    && own[h] == h && ms[h].ord == o && ms[h].refCnt == 0
  }

  /** List o holds exactly the free heads of order o, except those in x. */
  ghost predicate Listed(ms: seq<Meta>, own: seq<nat>, lists: seq<seq<nat>>, x: set<nat>) {
    && |lists| == MAX_ORD + 1
    && forall o: nat, i: nat :: o <= MAX_ORD ==>
         (i in lists[o] <==> FreeHead(ms, own, i, o) && i !in x)
  }

  /** No two free buddies of one order coexist, leaving aside those in x. */
  ghost predicate Coalesced(ms: seq<Meta>, own: seq<nat>, x: set<nat>) {
    forall h: nat, o: nat ::
      (0 < o && h !in x && FreeHead(ms, own, h, o) && Buddy(h, o) !in x) ==>
        !FreeHead(ms, own, Buddy(h, o), o)
  }

  ghost predicate FreePage(ms: seq<Meta>, own: seq<nat>, i: int) {
    0 <= i < |own| && own[i] < |ms| && ms[own[i]].refCnt == 0
  }

  /** The live blocks: the abstract state of the allocator. */
  ghost function LiveOf(ms: seq<Meta>, own: seq<nat>): Live {
    map h: nat | h < |own| && h < |ms| && own[h] == h && ms[h].refCnt > 0
      :: Block(ms[h].ord, ms[h].refCnt, ms[h].flags)
  }

  /** The ownership map after the n pages from m have become one block. */
  ghost function Paint(own: seq<nat>, m: nat, n: nat): (own': seq<nat>)
    ensures |own'| == |own|
    ensures forall i :: 0 <= i < |own| ==> own'[i] == if m <= i < m + n then m else own[i]
  {
    seq(|own|, i requires 0 <= i < |own| => if m <= i < m + n then m else own[i])
  }

  /** The buddy index of a block always heads a block, so join never reads a
      stale order or count. */
  lemma BuddyIsHead(ms: seq<Meta>, own: seq<nat>, h: nat)
    requires Partition(ms, own) && h < NPAGES && own[h] == h && ms[h].ord > 0
    ensures var b := Buddy(h, ms[h].ord);
      && 0 <= b < NPAGES && own[b] == b && ms[b].ord >= ms[h].ord
  {
    var o := ms[h].ord;
    var n := BlockPages(o);
    var b := Buddy(h, o);
    BuddyPair(h, o);
    var m := if h < b then h else b;
    PairInBounds(m, o);
    var g := own[b];
    assert InBlock(ms, own, b);
    assert IsBlock(ms, own, g);
    if ms[g].ord < o {
      Laminar(g, ms[g].ord, m, o - 1);
    } else {
      Laminar(b, o, g, ms[g].ord);
    }
  }

  lemma PairInBounds(m: nat, o: nat)
    requires 0 < o <= MAX_ORD && m < NPAGES && Aligned(m, o - 1)
    ensures m + 2 * BlockPages(o) <= NPAGES
  {
    Sizes();
    MultipleIsMod(NPAGES, 256);
    AlignedFiner(NPAGES, 0, o - 1);
    MultiplesApart(m, NPAGES, BlockPages(o - 1));
  }

  lemma Sizes()
    ensures BlockPages(8) == 1 && BlockPages(7) == 2 && BlockPages(6) == 4
    ensures BlockPages(5) == 8 && BlockPages(4) == 16 && BlockPages(3) == 32
    ensures BlockPages(2) == 64 && BlockPages(1) == 128 && BlockPages(0) == 256
  {
    assert BlockPages(7) == 2 && BlockPages(5) == 4 * BlockPages(7);
    assert BlockPages(3) == 4 * BlockPages(5) && BlockPages(1) == 4 * BlockPages(3);
  }

  // ------------------------------------------------------------ join and split

  /** Two free buddies of order o, one of them unlisted, that join can merge. */
  ghost predicate Mergeable(ms: seq<Meta>, own: seq<nat>, p: nat, b: nat) {
    && p < |ms| && ms[p].ord > 0 && b == Buddy(p, ms[p].ord)
    && FreeHead(ms, own, p, ms[p].ord) && FreeHead(ms, own, b, ms[p].ord)
  }

  ghost function MergeMeta(ms: seq<Meta>, m: nat): seq<Meta>
    requires m < |ms| && ms[m].ord > 0
  {
    ms[m := ms[m].(ord := ms[m].ord - 1)]
  }

  lemma MergePartition(ms: seq<Meta>, own: seq<nat>, p: nat, b: nat)
    requires Partition(ms, own) && Mergeable(ms, own, p, b)
    ensures var m := if p > b then b else p;
      Partition(MergeMeta(ms, m), Paint(own, m, 2 * BlockPages(ms[p].ord)))
  {
    hide Multiple, InBlock;
    var m := if p > b then b else p;
    var ms', own' := MergeMeta(ms, m), Paint(own, m, 2 * BlockPages(ms[p].ord));
    MergedPair(ms, own, p, b);
    forall i | 0 <= i < NPAGES
      ensures InBlock(ms', own', i)
    {
      MergeInBlock(ms, own, p, b, i);
    }
    forall h | 0 <= h < NPAGES && own'[h] == h
      ensures IsBlock(ms', own', h)
    {
      if h != m {
        MergeIsBlock(ms, own, p, b, h);
      }
    }
  }

  lemma MergeInBlock(ms: seq<Meta>, own: seq<nat>, p: nat, b: nat, i: nat)
    requires Partition(ms, own) && Mergeable(ms, own, p, b) && i < NPAGES
    ensures var m := if p > b then b else p;
      InBlock(MergeMeta(ms, m), Paint(own, m, 2 * BlockPages(ms[p].ord)), i)
  {
    hide Multiple;
    MergedPair(ms, own, p, b);
    assert InBlock(ms, own, i);
  }

  lemma MergeIsBlock(ms: seq<Meta>, own: seq<nat>, p: nat, b: nat, h: nat)
    requires Partition(ms, own) && Mergeable(ms, own, p, b) && h < NPAGES && own[h] == h && h != p && h != b
    ensures var m := if p > b then b else p;
      IsBlock(MergeMeta(ms, m), Paint(own, m, 2 * BlockPages(ms[p].ord)), h)
  {
    MergedPair(ms, own, p, b);
    assert IsBlock(ms, own, h);
  }

  /** The pages of a mergeable pair are those of one aligned block. */
  lemma MergedPair(ms: seq<Meta>, own: seq<nat>, p: nat, b: nat)
    requires Partition(ms, own) && Mergeable(ms, own, p, b)
    ensures var m := if p > b then b else p;
      var n := BlockPages(ms[p].ord);
      && BlockPages(ms[p].ord - 1) == 2 * n && Aligned(m, ms[p].ord - 1) && m + 2 * n <= NPAGES
      && (forall i :: m <= i < m + 2 * n ==> own[i] == p || own[i] == b)
      && (forall i :: 0 <= i < NPAGES && (own[i] == p || own[i] == b) ==> m <= i < m + 2 * n)
  {
    BuddyPair(p, ms[p].ord);
    assert IsBlock(ms, own, p) && IsBlock(ms, own, b);
    forall i | 0 <= i < NPAGES && (own[i] == p || own[i] == b)
      ensures p <= i < p + BlockPages(ms[p].ord) || b <= i < b + BlockPages(ms[p].ord)
    {
      assert InBlock(ms, own, i);
    }
  }

  /** Apart from the pair, the same pages are free heads. */
  lemma MergeHeads(ms: seq<Meta>, own: seq<nat>, p: nat, b: nat, h: nat, q: nat)
    requires Partition(ms, own) && Mergeable(ms, own, p, b)
    ensures var m := if p > b then b else p;
      FreeHead(MergeMeta(ms, m), Paint(own, m, 2 * BlockPages(ms[p].ord)), h, q) <==>
        if h == m then q == ms[p].ord - 1 else h != p && h != b && FreeHead(ms, own, h, q)
  {
    MergedPair(ms, own, p, b);
  }

  /** Merging two free buddies changes no live block and no page's freedom; the
      merged head is the one free head left unlisted. */
  lemma MergeKeeps(ms: seq<Meta>, own: seq<nat>, lists: seq<seq<nat>>, p: nat, b: nat)
    requires Partition(ms, own) && Mergeable(ms, own, p, b)
    requires Described(ms, own, {}) && Listed(ms, own, lists, {p, b}) && Coalesced(ms, own, {p})
    ensures var m := if p > b then b else p;
      var ms', own' := MergeMeta(ms, m), Paint(own, m, 2 * BlockPages(ms[p].ord));
      && Described(ms', own', {}) && Listed(ms', own', lists, {m}) && Coalesced(ms', own', {m})
      && FreeHead(ms', own', m, ms[p].ord - 1)
  {
    var m := if p > b then b else p;
    var ms', own' := MergeMeta(ms, m), Paint(own, m, 2 * BlockPages(ms[p].ord));
    MergeDescribed(ms, own, p, b);
    forall h: nat, q: nat
      ensures FreeHead(ms', own', h, q) <==>
        if h == m then q == ms[p].ord - 1 else h != p && h != b && FreeHead(ms, own, h, q)
    {
      MergeHeads(ms, own, p, b, h, q);
    }
    CoalescedFrame(ms, own, {p}, ms', own', {m});
  }

  lemma CoalescedFrame(ms: seq<Meta>, own: seq<nat>, x: set<nat>, ms': seq<Meta>, own': seq<nat>, x': set<nat>)
    requires Coalesced(ms, own, x)
    requires forall h: nat, q: nat :: FreeHead(ms', own', h, q) && h !in x' ==> FreeHead(ms, own, h, q) && h !in x
    ensures Coalesced(ms', own', x')
  {}

  lemma MergeDescribed(ms: seq<Meta>, own: seq<nat>, p: nat, b: nat)
    requires Partition(ms, own) && Mergeable(ms, own, p, b) && Described(ms, own, {})
    ensures var m := if p > b then b else p;
      Described(MergeMeta(ms, m), Paint(own, m, 2 * BlockPages(ms[p].ord)), {})
  {
    MergedPair(ms, own, p, b);
  }

  lemma MergeLive(ms: seq<Meta>, own: seq<nat>, p: nat, b: nat)
    requires Partition(ms, own) && Mergeable(ms, own, p, b) && Described(ms, own, {})
    ensures var m := if p > b then b else p;
      LiveOf(MergeMeta(ms, m), Paint(own, m, 2 * BlockPages(ms[p].ord))) == LiveOf(ms, own)
  {
    MergedPair(ms, own, p, b);
  }

  ghost function SplitMeta(ms: seq<Meta>, p: nat, p2: nat): seq<Meta>
    requires p < |ms| && p2 < |ms|
  {
    ms[p := ms[p].(ord := ms[p].ord + 1)][p2 := ms[p2].(ord := ms[p].ord + 1)]
  }

  lemma SplitPartition(ms: seq<Meta>, own: seq<nat>, p: nat)
    requires Partition(ms, own) && p < NPAGES && ms[p].ord < MAX_ORD && own[p] == p
    ensures var n := BlockPages(ms[p].ord + 1);
      && p + 2 * n <= NPAGES
      && Partition(SplitMeta(ms, p, p + n), Paint(own, p + n, n))
  {
    hide IsBlock, InBlock;
    var n := BlockPages(ms[p].ord + 1);
    assert IsBlock(ms, own, p);
    SplitHalves(ms, own, p);
    var ms', own' := SplitMeta(ms, p, p + n), Paint(own, p + n, n);
    forall i | 0 <= i < NPAGES
      ensures InBlock(ms', own', i)
    {
      SplitInBlock(ms, own, p, i);
    }
    forall h | 0 <= h < NPAGES && own'[h] == h
      ensures IsBlock(ms', own', h)
    {
      if h != p && h != p + n {
        SplitIsBlock(ms, own, p, h);
      }
    }
    SplitOrders(ms, ms', own', p, p + n);
  }

  lemma SplitOrders(ms: seq<Meta>, ms': seq<Meta>, own': seq<nat>, p: nat, p2: nat)
    requires OrdersFit(ms) && |ms'| == |ms| == |own'| && p < |ms| && p2 < |ms| && IsBlock(ms', own', p) && IsBlock(ms', own', p2)
    requires forall i :: 0 <= i < |ms| && i != p && i != p2 ==> ms'[i] == ms[i]
    ensures OrdersFit(ms')
  {}

  lemma SplitHalves(ms: seq<Meta>, own: seq<nat>, p: nat)
    requires |ms| == |own| && p < |own| && IsBlock(ms, own, p) && ms[p].ord < MAX_ORD
    ensures var n := BlockPages(ms[p].ord + 1);
      && p + 2 * n <= |own|
      && Buddy(p, ms[p].ord + 1) == p + n
      && IsBlock(SplitMeta(ms, p, p + n), Paint(own, p + n, n), p)
      && IsBlock(SplitMeta(ms, p, p + n), Paint(own, p + n, n), p + n)
  {
    var n := BlockPages(ms[p].ord + 1);
    HalfDivides(p, n);
    BuddyPair(p, ms[p].ord + 1);
  }

  lemma SplitInBlock(ms: seq<Meta>, own: seq<nat>, p: nat, i: nat)
    requires Partition(ms, own) && p < NPAGES && ms[p].ord < MAX_ORD && own[p] == p && i < NPAGES
    requires p + 2 * BlockPages(ms[p].ord + 1) <= NPAGES
    ensures var n := BlockPages(ms[p].ord + 1);
      InBlock(SplitMeta(ms, p, p + n), Paint(own, p + n, n), i)
  {
    assert InBlock(ms, own, i) && IsBlock(ms, own, p);
  }

  lemma SplitIsBlock(ms: seq<Meta>, own: seq<nat>, p: nat, h: nat)
    requires Partition(ms, own) && p < NPAGES && ms[p].ord < MAX_ORD && own[p] == p
    requires p + 2 * BlockPages(ms[p].ord + 1) <= NPAGES
    requires h < NPAGES && own[h] == h != p
    ensures var n := BlockPages(ms[p].ord + 1);
      IsBlock(SplitMeta(ms, p, p + n), Paint(own, p + n, n), h)
  {
    assert IsBlock(ms, own, h) && IsBlock(ms, own, p);
  }

  /** Apart from the two halves, the same pages are free heads. */
  lemma SplitHeads(ms: seq<Meta>, own: seq<nat>, p: nat, h: nat, q: nat)
    requires Partition(ms, own) && p < NPAGES && ms[p].ord < MAX_ORD && FreeHead(ms, own, p, ms[p].ord)
    requires p + 2 * BlockPages(ms[p].ord + 1) <= NPAGES && Described(ms, own, {})
    ensures var n := BlockPages(ms[p].ord + 1);
      FreeHead(SplitMeta(ms, p, p + n), Paint(own, p + n, n), h, q) <==>
        if h == p || h == p + n then q == ms[p].ord + 1 else FreeHead(ms, own, h, q)
    ensures !FreeHead(ms, own, p + BlockPages(ms[p].ord + 1), q)
  {
    assert IsBlock(ms, own, p);
    var p2 := p + BlockPages(ms[p].ord + 1);
    assert own[p2] == p;
    assert PageOk(ms[p], ms[p2], p2 - p);
  }

  lemma SplitDescribed(ms: seq<Meta>, own: seq<nat>, p: nat)
    requires Partition(ms, own) && p < NPAGES && ms[p].ord < MAX_ORD && FreeHead(ms, own, p, ms[p].ord)
    requires p + 2 * BlockPages(ms[p].ord + 1) <= NPAGES && Described(ms, own, {})
    ensures var n := BlockPages(ms[p].ord + 1);
      Described(SplitMeta(ms, p, p + n), Paint(own, p + n, n), {})
  {
    hide Multiple;
    assert IsBlock(ms, own, p);
    var n := BlockPages(ms[p].ord + 1);
    var ms', own' := SplitMeta(ms, p, p + n), Paint(own, p + n, n);
    forall i | p <= i < p + 2 * n
      ensures ms'[i].refCnt == 0 && ms'[i].flags == Idle
    {
      assert own[i] == p && PageOk(ms[p], ms[i], i - p);
    }
  }

  lemma SplitLive(ms: seq<Meta>, own: seq<nat>, p: nat)
    requires Partition(ms, own) && p < NPAGES && ms[p].ord < MAX_ORD && FreeHead(ms, own, p, ms[p].ord)
    requires p + 2 * BlockPages(ms[p].ord + 1) <= NPAGES && Described(ms, own, {})
    ensures var n := BlockPages(ms[p].ord + 1);
      LiveOf(SplitMeta(ms, p, p + n), Paint(own, p + n, n)) == LiveOf(ms, own)
  {
    hide Multiple;
    assert IsBlock(ms, own, p);
    var n := BlockPages(ms[p].ord + 1);
    var ms', own' := SplitMeta(ms, p, p + n), Paint(own, p + n, n);
    assert own[p + n] == p;
    assert PageOk(ms[p], ms[p + n], n);
    assert forall h :: 0 <= h < NPAGES && own'[h] == h && ms'[h].refCnt > 0 ==> own[h] == h && ms[h] == ms'[h];
    assert forall h :: 0 <= h < NPAGES && own[h] == h && ms[h].refCnt > 0 ==> own'[h] == h && ms[h] == ms'[h];
  }

  /** Splitting a free block gives two free halves, the left one at the same
      head, and changes no live block. */
  lemma SplitKeeps(ms: seq<Meta>, own: seq<nat>, lists: seq<seq<nat>>, p: nat)
    requires Partition(ms, own) && p < NPAGES && ms[p].ord < MAX_ORD && FreeHead(ms, own, p, ms[p].ord)
    requires Described(ms, own, {}) && Listed(ms, own, lists, {p}) && Coalesced(ms, own, {p})
    ensures var n := BlockPages(ms[p].ord + 1);
      && p + 2 * n <= NPAGES
      && var ms', own' := SplitMeta(ms, p, p + n), Paint(own, p + n, n);
      && Listed(ms', own', lists, {p, p + n}) && Coalesced(ms', own', {p})
      && FreeHead(ms', own', p, ms[p].ord + 1) && FreeHead(ms', own', p + n, ms[p].ord + 1)
  {
    SplitPartition(ms, own, p);
    SplitListed(ms, own, lists, p);
    SplitCoalesced(ms, own, p);
    SplitHeads(ms, own, p, p, ms[p].ord + 1);
    SplitHeads(ms, own, p, p + BlockPages(ms[p].ord + 1), ms[p].ord + 1);
  }

  lemma SplitListed(ms: seq<Meta>, own: seq<nat>, lists: seq<seq<nat>>, p: nat)
    requires Partition(ms, own) && p < NPAGES && ms[p].ord < MAX_ORD && FreeHead(ms, own, p, ms[p].ord)
    requires p + 2 * BlockPages(ms[p].ord + 1) <= NPAGES
    requires Described(ms, own, {}) && Listed(ms, own, lists, {p})
    ensures var n := BlockPages(ms[p].ord + 1);
      Listed(SplitMeta(ms, p, p + n), Paint(own, p + n, n), lists, {p, p + n})
  {
    var n := BlockPages(ms[p].ord + 1);
    var ms', own' := SplitMeta(ms, p, p + n), Paint(own, p + n, n);
    forall o: nat, i: nat | o <= MAX_ORD
      ensures i in lists[o] <==> FreeHead(ms', own', i, o) && i !in {p, p + n}
    {
      SplitHeads(ms, own, p, i, o);
      assert i in lists[o] <==> FreeHead(ms, own, i, o) && i !in {p};
    }
  }

  lemma SplitCoalesced(ms: seq<Meta>, own: seq<nat>, p: nat)
    requires Partition(ms, own) && p < NPAGES && ms[p].ord < MAX_ORD && FreeHead(ms, own, p, ms[p].ord)
    requires p + 2 * BlockPages(ms[p].ord + 1) <= NPAGES
    requires Described(ms, own, {}) && Coalesced(ms, own, {p})
    ensures var n := BlockPages(ms[p].ord + 1);
      Coalesced(SplitMeta(ms, p, p + n), Paint(own, p + n, n), {p})
  {
    var o := ms[p].ord + 1;
    var p2 := p + BlockPages(o);
    var ms', own' := SplitMeta(ms, p, p2), Paint(own, p2, BlockPages(o));
    SplitPartition(ms, own, p);
    SplitBuddies(ms, own, p);
    forall h: nat, q: nat | 0 < q && h != p && FreeHead(ms', own', h, q) && Buddy(h, q) != p
      ensures !FreeHead(ms', own', Buddy(h, q), q)
    {
      BuddyOfBuddy(ms', own', h, q);
      var b: nat := Buddy(h, q);
      SplitHeads(ms, own, p, h, q);
      SplitHeads(ms, own, p, b, q);
    }
  }

  lemma SplitBuddies(ms: seq<Meta>, own: seq<nat>, p: nat)
    requires Partition(ms, own) && p < NPAGES && ms[p].ord < MAX_ORD && own[p] == p
    ensures var p2 := p + BlockPages(ms[p].ord + 1);
      Buddy(p, ms[p].ord + 1) == p2 && Buddy(p2, ms[p].ord + 1) == p
  {
    assert IsBlock(ms, own, p);
    SplitHalves(ms, own, p);
    HalfDivides(p, BlockPages(ms[p].ord + 1));
    BuddyPair(p, ms[p].ord + 1);
  }

  lemma BuddyOfBuddy(ms: seq<Meta>, own: seq<nat>, h: nat, o: nat)
    requires Partition(ms, own) && FreeHead(ms, own, h, o) && 0 < o
    ensures Buddy(h, o) >= 0 && Buddy(Buddy(h, o), o) == h
  {
    HeadAligned(ms, own, h, o);
    BuddyPair(h, o);
  }

  lemma HeadAligned(ms: seq<Meta>, own: seq<nat>, h: nat, o: nat)
    requires Partition(ms, own) && FreeHead(ms, own, h, o)
    ensures o <= MAX_ORD && Aligned(h, o)
  {
    assert IsBlock(ms, own, h);
  }

  /** All that one merge keeps, and that the pair is in no list. */
  lemma MergeState(ms: seq<Meta>, own: seq<nat>, lists: seq<seq<nat>>, p: nat, b: nat)
    requires Partition(ms, own) && Mergeable(ms, own, p, b)
    requires Described(ms, own, {}) && Listed(ms, own, lists, {p, b}) && Coalesced(ms, own, {p})
    ensures forall q :: 0 <= q <= MAX_ORD ==> p !in lists[q] && b !in lists[q]
    ensures var m := if p > b then b else p;
      var ms', own' := MergeMeta(ms, m), Paint(own, m, 2 * BlockPages(ms[p].ord));
      && Partition(ms', own') && LiveOf(ms', own') == LiveOf(ms, own)
      && Described(ms', own', {}) && Listed(ms', own', lists, {m}) && Coalesced(ms', own', {m})
      && FreeHead(ms', own', m, ms[p].ord - 1)
  {
    hide Partition, Described, Coalesced, LiveOf;
    MergePartition(ms, own, p, b);
    MergeKeeps(ms, own, lists, p, b);
    MergeLive(ms, own, p, b);
  }

  /** All that one split keeps, and that the halves are in no list. */
  lemma SplitState(ms: seq<Meta>, own: seq<nat>, lists: seq<seq<nat>>, p: nat)
    requires Partition(ms, own) && p < NPAGES && ms[p].ord < MAX_ORD && FreeHead(ms, own, p, ms[p].ord)
    requires Described(ms, own, {}) && Listed(ms, own, lists, {p}) && Coalesced(ms, own, {p})
    ensures var n := BlockPages(ms[p].ord + 1);
      && p + 2 * n <= NPAGES
      && (forall q :: 0 <= q <= MAX_ORD ==> p !in lists[q] && p + n !in lists[q])
      && var ms', own' := SplitMeta(ms, p, p + n), Paint(own, p + n, n);
      && Partition(ms', own') && Described(ms', own', {}) && LiveOf(ms', own') == LiveOf(ms, own)
      && Listed(ms', own', lists, {p, p + n}) && Coalesced(ms', own', {p})
      && FreeHead(ms', own', p, ms[p].ord + 1) && FreeHead(ms', own', p + n, ms[p].ord + 1)
  {
    SplitPartition(ms, own, p);
    SplitDescribed(ms, own, p);
    SplitLive(ms, own, p);
    SplitKeeps(ms, own, lists, p);
  }

  // ------------------------------------------------- listing, taking, releasing

  lemma ListedAdd(ms: seq<Meta>, own: seq<nat>, lists: seq<seq<nat>>, x: set<nat>, p: nat, o: nat)
    requires Listed(ms, own, lists, x) && o <= MAX_ORD && FreeHead(ms, own, p, o)
    ensures Listed(ms, own, lists[o := [p] + lists[o]], x - {p})
  {}

  lemma ListedRemove(ms: seq<Meta>, own: seq<nat>, lists: seq<seq<nat>>, lists': seq<seq<nat>>, x: set<nat>, p: nat, o: nat)
    requires Listed(ms, own, lists, x) && o <= MAX_ORD && FreeHead(ms, own, p, o)
    requires |lists'| == |lists| && forall q :: 0 <= q <= MAX_ORD && q != o ==> lists'[q] == lists[q]
    requires forall i :: i in lists'[o] <==> i in lists[o] && i != p
    ensures Listed(ms, own, lists', x + {p})
  {}

  /** A free head whose buddy is not a free block of its order ends a join. */
  lemma CoalescedClose(ms: seq<Meta>, own: seq<nat>, p: nat, o: nat)
    requires Partition(ms, own) && Coalesced(ms, own, {p}) && FreeHead(ms, own, p, o)
    requires o > 0 ==> !FreeHead(ms, own, Buddy(p, o), o)
    ensures Coalesced(ms, own, {})
  {
    forall h: nat, q: nat | 0 < q && FreeHead(ms, own, h, q)
      ensures !FreeHead(ms, own, Buddy(h, q), q)
    {
      BuddyOfBuddy(ms, own, h, q);
    }
  }

  lemma CoalescedOpen(ms: seq<Meta>, own: seq<nat>, p: nat)
    requires Coalesced(ms, own, {})
    ensures Coalesced(ms, own, {p})
  {}

  /** The descriptors after the interior pages of the block of n pages at p have
      been marked (mark_mids) or unmarked (unmark_mids). */
  ghost function FillMids(ms: seq<Meta>, p: nat, n: nat, mark: bool): (ms': seq<Meta>)
    ensures |ms'| == |ms|
    ensures forall i :: 0 <= i < |ms| ==> ms'[i] == if p < i < p + n then MidMeta(ms[i], i - p, mark) else ms[i]
  {
    seq(|ms|, i requires 0 <= i < |ms| => if p < i < p + n then MidMeta(ms[i], i - p, mark) else ms[i])
  }

  /** An interior page stores its distance to the head while its block is live. */
  ghost function MidMeta(m: Meta, distance: nat, mark: bool): Meta {
    if mark then Meta(m.ord, distance, Mid) else Meta(m.ord, 0, Idle)
  }

  /** Rewriting counts and flags inside the block headed by p keeps the partition. */
  lemma RewritePartition(ms: seq<Meta>, ms': seq<Meta>, own: seq<nat>)
    requires Partition(ms, own) && |ms'| == |ms|
    requires forall i :: 0 <= i < |ms| ==> ms'[i].ord == ms[i].ord
    ensures Partition(ms', own)
  {
    forall i | 0 <= i < NPAGES
      ensures InBlock(ms', own, i)
    {
      assert InBlock(ms, own, i);
    }
    forall h | 0 <= h < NPAGES && own[h] == h
      ensures IsBlock(ms', own, h)
    {
      assert IsBlock(ms, own, h);
    }
  }

  /** Pages of other blocks keep their descriptors. */
  ghost predicate OnlyBlock(ms: seq<Meta>, ms': seq<Meta>, own: seq<nat>, p: nat) {
    && |ms'| == |ms| == |own|
    && (forall i :: 0 <= i < |ms| ==> ms'[i].ord == ms[i].ord)
    && (forall i :: 0 <= i < |ms| && own[i] != p ==> ms'[i] == ms[i])
  }

  lemma FillOnlyBlock(ms: seq<Meta>, own: seq<nat>, p: nat, m: Meta, mark: bool)
    requires Partition(ms, own) && p < NPAGES && own[p] == p && m.ord == ms[p].ord
    ensures OnlyBlock(ms, FillMids(ms[p := m], p, BlockPages(m.ord), mark), own, p)
  {
    assert IsBlock(ms, own, p);
  }

  lemma FillDescribed(ms: seq<Meta>, own: seq<nat>, p: nat, m: Meta)
    requires Partition(ms, own) && p < NPAGES && own[p] == p && m.ord == ms[p].ord
    requires Described(ms, own, {p}) && (if m.refCnt == 0 then m.flags == Idle else m.flags != Mid)
    ensures Described(FillMids(ms[p := m], p, BlockPages(m.ord), m.refCnt > 0), own, {})
  {
    var ms' := FillMids(ms[p := m], p, BlockPages(m.ord), m.refCnt > 0);
    FillOnlyBlock(ms, own, p, m, m.refCnt > 0);
    forall i | 0 <= i < NPAGES && own[i] < |ms'|
      ensures PageOk(ms'[own[i]], ms'[i], i - own[i])
    {
      assert InBlock(ms, own, i);
      assert own[i] != p ==> PageOk(ms[own[i]], ms[i], i - own[i]);
    }
  }

  lemma HeadsOutside(ms: seq<Meta>, ms': seq<Meta>, own: seq<nat>, p: nat, h: nat, o: nat)
    requires OnlyBlock(ms, ms', own, p) && p < |own| && own[p] == p && h != p
    ensures FreeHead(ms', own, h, o) <==> FreeHead(ms, own, h, o)
  {}

  /** An unlisted free block becomes live. */
  lemma TakeKeeps(ms: seq<Meta>, own: seq<nat>, lists: seq<seq<nat>>, p: nat, ms': seq<Meta>)
    requires p < |own| && own[p] == p && OnlyBlock(ms, ms', own, p) && ms'[p].refCnt > 0
    requires Listed(ms, own, lists, {p}) && Coalesced(ms, own, {p})
    ensures Listed(ms', own, lists, {}) && Coalesced(ms', own, {})
    ensures LiveOf(ms', own) == LiveOf(ms, own)[p := Block(ms'[p].ord, ms'[p].refCnt, ms'[p].flags)]
  {
    forall h: nat, o: nat
      ensures FreeHead(ms', own, h, o) <==> h != p && FreeHead(ms, own, h, o)
    {
      if h != p { HeadsOutside(ms, ms', own, p, h, o); }
    }
    CoalescedFrame(ms, own, {p}, ms', own, {});
  }

  /** A live block becomes an unlisted free block. */
  lemma ReleaseKeeps(ms: seq<Meta>, own: seq<nat>, lists: seq<seq<nat>>, p: nat, ms': seq<Meta>)
    requires p < |own| && own[p] == p && OnlyBlock(ms, ms', own, p) && ms[p].refCnt > 0 && ms'[p].refCnt == 0
    requires Listed(ms, own, lists, {}) && Coalesced(ms, own, {})
    ensures Listed(ms', own, lists, {p}) && Coalesced(ms', own, {p}) && FreeHead(ms', own, p, ms[p].ord)
    ensures LiveOf(ms', own) == LiveOf(ms, own) - {p}
  {
    forall h: nat, o: nat
      ensures FreeHead(ms, own, h, o) <==> h != p && FreeHead(ms', own, h, o)
    {
      if h != p { HeadsOutside(ms, ms', own, p, h, o); }
    }
    CoalescedFrame(ms, own, {}, ms', own, {p});
  }

  /** A live head may change its count and flags while it stays live. */
  lemma Recount(ms: seq<Meta>, own: seq<nat>, lists: seq<seq<nat>>, p: nat, m: Meta)
    requires Partition(ms, own) && Described(ms, own, {}) && Listed(ms, own, lists, {}) && Coalesced(ms, own, {})
    requires p in LiveOf(ms, own) && m.ord == ms[p].ord && m.refCnt > 0 && m.flags != Mid
    ensures var ms' := ms[p := m];
      && Partition(ms', own) && Described(ms', own, {}) && Listed(ms', own, lists, {}) && Coalesced(ms', own, {})
      && LiveOf(ms', own) == LiveOf(ms, own)[p := Block(m.ord, m.refCnt, m.flags)]
  {
    var ms' := ms[p := m];
    RewritePartition(ms, ms', own);
    assert Listed(ms, own, lists, {p}) && Coalesced(ms, own, {p});
    TakeKeeps(ms, own, lists, p, ms');
    forall i | 0 <= i < NPAGES && own[i] < |ms'|
      ensures PageOk(ms'[own[i]], ms'[i], i - own[i])
    {
      assert PageOk(ms[own[i]], ms[i], i - own[i]);
    }
  }

  /** Dropping the last reference to a live block leaves it free and unlisted. */
  lemma Release(ms: seq<Meta>, own: seq<nat>, lists: seq<seq<nat>>, p: nat)
    requires Partition(ms, own) && Described(ms, own, {}) && Listed(ms, own, lists, {}) && Coalesced(ms, own, {})
    requires p in LiveOf(ms, own)
    ensures var m := Meta(ms[p].ord, 0, Idle);
      var ms' := FillMids(ms[p := m], p, BlockPages(m.ord), false);
      && Partition(ms', own) && Described(ms', own, {}) && Listed(ms', own, lists, {p}) && Coalesced(ms', own, {p})
      && LiveOf(ms', own) == LiveOf(ms, own) - {p} && FreeHead(ms', own, p, m.ord)
  {
    var m := Meta(ms[p].ord, 0, Idle);
    var ms' := FillMids(ms[p := m], p, BlockPages(m.ord), false);
    FillOnlyBlock(ms, own, p, m, false);
    FillDescribed(ms, own, p, m);
    RewritePartition(ms, ms', own);
    ReleaseKeeps(ms, own, lists, p, ms');
  }

  // ------------------------------------------------- coalescing and uniqueness

  /** A state between two calls: partitioned, described and coalesced. */
  ghost predicate Sound(ms: seq<Meta>, own: seq<nat>) {
    Partition(ms, own) && Described(ms, own, {}) && Coalesced(ms, own, {})
  }

  /** The naturally aligned run of order o at a lies in memory and is free. */
  ghost predicate FreeRun(ms: seq<Meta>, own: seq<nat>, a: nat, o: nat) {
    && Aligned(a, o) && a + BlockPages(o) <= NPAGES
    && forall j :: a <= j < a + BlockPages(o) ==> FreePage(ms, own, j)
  }

  /** The blocks of a coalesced state are maximal: a free aligned run always
      lies inside a single free block. */
  lemma {:induction false} FreeRunInOneBlock(ms: seq<Meta>, own: seq<nat>, a: nat, o: nat)
    requires Sound(ms, own) && o <= MAX_ORD && FreeRun(ms, own, a, o)
    ensures var h := own[a];
      && h < NPAGES && FreeHead(ms, own, h, ms[h].ord) && ms[h].ord <= o
      && h <= a && a + BlockPages(o) <= h + BlockPages(ms[h].ord)
    decreases MAX_ORD - o
  {
    if o < MAX_ORD {
      HalvesAreRuns(ms, own, a, o);
      FreeRunInOneBlock(ms, own, a, o + 1);
      FreeRunInOneBlock(ms, own, a + BlockPages(o + 1), o + 1);
      HalvesInOneBlock(ms, own, a, o);
    }
    assert FreePage(ms, own, a);
    BlockHoldsRun(ms, own, a, a, o);
  }

  lemma HalvesAreRuns(ms: seq<Meta>, own: seq<nat>, a: nat, o: nat)
    requires o < MAX_ORD && FreeRun(ms, own, a, o)
    ensures FreeRun(ms, own, a, o + 1) && FreeRun(ms, own, a + BlockPages(o + 1), o + 1)
    ensures Buddy(a, o + 1) == a + BlockPages(o + 1)
  {
    HalfDivides(a, BlockPages(o + 1));
    EvenOrOdd(a, BlockPages(o + 1));
  }

  /** A block of order o or larger that meets an aligned run of order o holds it. */
  lemma BlockHoldsRun(ms: seq<Meta>, own: seq<nat>, i: nat, a: nat, o: nat)
    requires Partition(ms, own) && o <= MAX_ORD && Aligned(a, o) && a <= i < a + BlockPages(o) <= NPAGES
    ensures var h := own[i];
      && h < NPAGES && own[h] == h && ms[h].ord <= MAX_ORD
      && (ms[h].ord <= o ==> h <= a && a + BlockPages(o) <= h + BlockPages(ms[h].ord) && own[a] == h)
  {
    var h := own[i];
    assert InBlock(ms, own, i) && IsBlock(ms, own, h);
    if ms[h].ord <= o {
      Laminar(h, ms[h].ord, a, o);
    }
  }

  lemma HalvesInOneBlock(ms: seq<Meta>, own: seq<nat>, a: nat, o: nat)
    requires Sound(ms, own) && o < MAX_ORD && FreeRun(ms, own, a, o)
    requires own[a] < NPAGES && ms[own[a]].ord <= o + 1
    requires var c := a + BlockPages(o + 1); own[c] < NPAGES && ms[own[c]].ord <= o + 1
    ensures ms[own[a]].ord <= o
  {
    var c := a + BlockPages(o + 1);
    HalvesAreRuns(ms, own, a, o);
    assert FreePage(ms, own, a) && FreePage(ms, own, c);
    HalvesNotBothHeads(ms, own, a, o);
    BlockHoldsRun(ms, own, c, a, o);
  }

  lemma HalvesNotBothHeads(ms: seq<Meta>, own: seq<nat>, a: nat, o: nat)
    requires Sound(ms, own) && o < MAX_ORD && Aligned(a, o + 1)
    requires var n := BlockPages(o + 1);
      && a + n < NPAGES && Aligned(a + n, o + 1) && Buddy(a, o + 1) == a + n
      && FreePage(ms, own, a) && FreePage(ms, own, a + n)
    ensures own[a] < NPAGES && own[a + BlockPages(o + 1)] < NPAGES
    ensures ms[own[a]].ord != o + 1 || ms[own[a + BlockPages(o + 1)]].ord != o + 1
  {
    SameBlock(ms, own, a, o + 1);
    SameBlock(ms, own, a + BlockPages(o + 1), o + 1);
    assert FreeHead(ms, own, a, o + 1) <==> own[a] == a && ms[a].ord == o + 1;
  }

  lemma SameBlock(ms: seq<Meta>, own: seq<nat>, a: nat, o: nat)
    requires Partition(ms, own) && a < NPAGES && o <= MAX_ORD && Aligned(a, o)
    ensures own[a] < NPAGES && (ms[own[a]].ord == o ==> own[a] == a)
  {
    assert InBlock(ms, own, a) && IsBlock(ms, own, own[a]);
    if ms[own[a]].ord == o {
      Laminar(a, o, own[a], o);
    }
  }

  lemma HeadIsFreeRun(ms: seq<Meta>, own: seq<nat>, h: nat, o: nat)
    requires Partition(ms, own) && FreeHead(ms, own, h, o)
    ensures o <= MAX_ORD && FreeRun(ms, own, h, o)
  {
    assert IsBlock(ms, own, h);
  }

  /** The lists of order o and larger blocks are all empty exactly when no
      naturally aligned run of that order is free. */
  lemma ListsEmptyIffNoRun(ms: seq<Meta>, own: seq<nat>, lists: seq<seq<nat>>, o: nat)
    requires Sound(ms, own) && Listed(ms, own, lists, {}) && o <= MAX_ORD
    ensures (forall q: nat :: q <= o ==> lists[q] == []) <==> !exists a: nat :: FreeRun(ms, own, a, o)
  {
    if a: nat :| FreeRun(ms, own, a, o) {
      FreeRunInOneBlock(ms, own, a, o);
      assert own[a] in lists[ms[own[a]].ord];
    }
    if q: nat :| q <= o && lists[q] != [] {
      var h := lists[q][0];
      assert h in lists[q];
      HeadIsFreeRun(ms, own, h, q);
      AlignedFiner(h, q, o);
      SizesNest(q, o);
      assert FreeRun(ms, own, h, o);
    }
  }

  /** The head of the block one order up that holds the block at h. */
  ghost function Parent(h: nat, o: nat): nat
    requires 0 < o <= MAX_ORD && Aligned(h, o)
    ensures Aligned(Parent(h, o), o - 1) && Parent(h, o) <= h < Parent(h, o) + BlockPages(o - 1)
  {
    BuddyPair(h, o);
    if Aligned(h, o - 1) then h else h - BlockPages(o)
  }

  /** The free blocks of a sound state are exactly its maximal free aligned runs. */
  lemma FreeHeadIffMaximal(ms: seq<Meta>, own: seq<nat>, h: nat, o: nat)
    requires Sound(ms, own) && o <= MAX_ORD
    ensures FreeHead(ms, own, h, o) <==>
      && FreeRun(ms, own, h, o)
      && (o > 0 ==> !FreeRun(ms, own, Parent(h, o), o - 1))
  {
    if FreeHead(ms, own, h, o) {
      HeadIsFreeRun(ms, own, h, o);
      if o > 0 && FreeRun(ms, own, Parent(h, o), o - 1) {
        FreeRunInOneBlock(ms, own, Parent(h, o), o - 1);
      }
    } else if FreeRun(ms, own, h, o) {
      FreeRunInOneBlock(ms, own, h, o);
      var g := own[h];
      assert IsBlock(ms, own, g);
      if ms[g].ord == o {
        Laminar(h, o, g, o);
      } else {
        Laminar(g, ms[g].ord, Parent(h, o), o - 1);
        assert FreeRun(ms, own, Parent(h, o), o - 1);
      }
    }
  }

  ghost predicate Covered(live: Live, i: nat) {
    exists h: nat :: h in live && h <= i < h + BlockPages(live[h].ord)
  }

  lemma FreeIffUncovered(ms: seq<Meta>, own: seq<nat>, i: nat)
    requires Partition(ms, own) && i < NPAGES
    ensures FreePage(ms, own, i) <==> !Covered(LiveOf(ms, own), i)
  {
    var live := LiveOf(ms, own);
    assert InBlock(ms, own, i);
    if !FreePage(ms, own, i) {
      assert own[i] in live;
    }
    if h: nat :| h in live && h <= i < h + BlockPages(live[h].ord) {
      assert IsBlock(ms, own, h);
    }
  }

  /** The naturally aligned run of order o at a touches no live block. */
  ghost predicate Room(live: Live, a: nat, o: nat) {
    && Aligned(a, o) && a + BlockPages(o) <= NPAGES
    && forall j :: a <= j < a + BlockPages(o) ==> !Covered(live, j)
  }

  ghost predicate NoRoom(live: Live, o: nat) {
    forall a: nat :: !Room(live, a, o)
  }

  /** Without room for a block there is none for a larger one. */
  lemma RoomFiner(live: Live, o: nat, o': nat)
    requires o <= o' <= MAX_ORD
    ensures NoRoom(live, o') ==> NoRoom(live, o)
  {
    forall a: nat | Room(live, a, o)
      ensures Room(live, a, o')
    {
      AlignedFiner(a, o, o');
      SizesNest(o, o');
    }
  }

  /** Room depends only on where the live blocks are. */
  lemma RoomSame(live: Live, live': Live, o: nat)
    requires live.Keys == live'.Keys && forall h :: h in live ==> live'[h].ord == live[h].ord
    ensures NoRoom(live, o) <==> NoRoom(live', o)
  {
    assert forall h :: h in live <==> h in live';
    forall j: nat
      ensures Covered(live, j) <==> Covered(live', j)
    {}
    hide Covered;
    forall a: nat
      ensures Room(live, a, o) <==> Room(live', a, o)
    {}
  }

  lemma RunIsRoom(ms: seq<Meta>, own: seq<nat>, a: nat, o: nat)
    requires Partition(ms, own)
    ensures FreeRun(ms, own, a, o) <==> Room(LiveOf(ms, own), a, o)
  {
    hide Partition, LiveOf, FreePage, Covered;
    forall j: nat | j < NPAGES
      ensures FreePage(ms, own, j) <==> !Covered(LiveOf(ms, own), j)
    {
      FreeIffUncovered(ms, own, j);
    }
  }

  /** The same free blocks, order by order. */
  lemma SameFreeHeads(ms: seq<Meta>, own: seq<nat>, ms': seq<Meta>, own': seq<nat>, h: nat, o: nat)
    requires Sound(ms, own) && Sound(ms', own') && LiveOf(ms, own) == LiveOf(ms', own')
    ensures FreeHead(ms, own, h, o) <==> FreeHead(ms', own', h, o)
  {
    forall i: nat | i < NPAGES
      ensures FreePage(ms, own, i) <==> FreePage(ms', own', i)
    {
      FreeIffUncovered(ms, own, i);
      FreeIffUncovered(ms', own', i);
    }
    if FreeHead(ms, own, h, o) { HeadIsFreeRun(ms, own, h, o); }
    if FreeHead(ms', own', h, o) { HeadIsFreeRun(ms', own', h, o); }
    if o <= MAX_ORD {
      assert forall a: nat, q: nat :: FreeRun(ms, own, a, q) <==> FreeRun(ms', own', a, q);
      FreeHeadIffMaximal(ms, own, h, o);
      FreeHeadIffMaximal(ms', own', h, o);
    }
  }

  /** The live blocks determine the whole state: two sound states with the same
      live blocks have the same partition, the same free blocks of each order,
      and the same count and flags on every page. */
  lemma LiveDeterminesState(ms: seq<Meta>, own: seq<nat>, ms': seq<Meta>, own': seq<nat>)
    requires Sound(ms, own) && Sound(ms', own') && LiveOf(ms, own) == LiveOf(ms', own')
    ensures own == own'
    ensures forall h: nat, o: nat :: FreeHead(ms, own, h, o) <==> FreeHead(ms', own', h, o)
    ensures forall i :: 0 <= i < NPAGES ==> ms[i].refCnt == ms'[i].refCnt && ms[i].flags == ms'[i].flags
  {
    forall h: nat, o: nat
      ensures FreeHead(ms, own, h, o) <==> FreeHead(ms', own', h, o)
    {
      SameFreeHeads(ms, own, ms', own', h, o);
    }
    forall i | 0 <= i < NPAGES
      ensures own[i] == own'[i]
      ensures ms[i].refCnt == ms'[i].refCnt && ms[i].flags == ms'[i].flags
    {
      SameOwner(ms, own, ms', own', i);
    }
  }

  lemma SameOwner(ms: seq<Meta>, own: seq<nat>, ms': seq<Meta>, own': seq<nat>, i: nat)
    requires Partition(ms, own) && Partition(ms', own') && LiveOf(ms, own) == LiveOf(ms', own')
    requires Described(ms, own, {}) && Described(ms', own', {})
    requires forall h: nat, o: nat :: FreeHead(ms, own, h, o) <==> FreeHead(ms', own', h, o)
    requires i < NPAGES
    ensures own[i] == own'[i]
    ensures ms[i].refCnt == ms'[i].refCnt && ms[i].flags == ms'[i].flags
  {
    var g := own[i];
    assert InBlock(ms, own, i);
    assert FreeHead(ms, own, g, ms[g].ord) || g in LiveOf(ms, own);
    assert own'[g] == g && ms'[g].ord == ms[g].ord && ms'[g].refCnt == ms[g].refCnt
      by { assert FreeHead(ms', own', g, ms[g].ord) || g in LiveOf(ms', own'); }
    assert IsBlock(ms', own', g);
    assert own'[i] == g;
    assert PageOk(ms[g], ms[i], i - g) && PageOk(ms'[g], ms'[i], i - g);
    if g in LiveOf(ms, own) && i == g {
      assert LiveOf(ms, own)[g] == LiveOf(ms', own')[g];
    }
  }
}
