/** The split virtqueue of src/virtio.rs as the 9p driver of src/p9.rs uses it
    (section 2.6 of VIRTIO 1.1): two-descriptor chains, 32 descriptors, 16-bit
    ring indices. */
module Virtqueue {
  import opened Frames
  import BitSet
  import Bits

  const N: nat := 32
  const U16: nat := 0x1_0000

  const F_NEXT: nat := 1
  const F_WRITE: nat := 2

  /** A buffer: its physical address and length. */
  datatype Buf = Buf(addr: nat, len: nat)

  /** A descriptor; its flags are only ever added to. */
  datatype Desc = Desc(addr: nat, len: nat, flags: nat, next: nat) {
    function SetNext(i: nat): Desc { this.(next := i, flags := Bits.Or(flags, F_NEXT)) }
    function SetWritable(): Desc { this.(flags := Bits.Or(flags, F_WRITE)) }
    function SetBuf(b: Buf): Desc { this.(addr := b.addr, len := b.len) }
    function GetNext(): Option<nat> { if Bits.And(flags, F_NEXT) == 0 then None else Some(next) }
  }

  /** The request at head as a device reads it by section 2.6.5 of VIRTIO 1.1, where bit
      0 of the flags continues a chain and bit 1 marks a buffer the device writes: one
      buffer to read, then one to write, and the end. */
  function ChainAt(desc: seq<Desc>, head: nat): Option<(Buf, Buf)> {
    if head < |desc| && desc[head].flags % 4 == 1 && desc[head].next < |desc| && desc[desc[head].next].flags % 4 == 2 then
      var d, e := desc[head], desc[desc[head].next];
      Some((Buf(d.addr, d.len), Buf(e.addr, e.len)))
    else None
  }

  lemma FlagBits()
    ensures Bits.Or(0, F_NEXT) == Bits.Or(1, F_NEXT) == 1 && Bits.Or(0, F_WRITE) == Bits.Or(2, F_WRITE) == 2
    ensures Bits.And(0, F_NEXT) == Bits.And(2, F_NEXT) == 0 && Bits.And(1, F_NEXT) != 0
  {}

  /** The requests on their way: in the avail ring, with the device, and in the
      used ring. Request k is the chain of descriptors 2k and 2k+1. */
  datatype Flight = Flight(avail: seq<nat>, taken: seq<nat>, used: seq<nat>) {
    ghost function All(): multiset<nat> { multiset(avail) + multiset(taken) + multiset(used) }
  }

  /** Descriptors 2k and 2k+1 form a chain: the first is for the device to read and can
      only continue to the second, the second is for it to write and never continues,
      and both bits are set exactly while the chain's one request is on its way. */
  ghost predicate PairOk(desc: seq<Desc>, bits: seq<bool>, all: multiset<nat>, k: nat)
    requires |desc| == N <= |bits| && k < N / 2
  {
    && (desc[2 * k].flags == 0 || (desc[2 * k].flags == 1 && desc[2 * k].next == 2 * k + 1))
    && (desc[2 * k + 1].flags == 0 || desc[2 * k + 1].flags == 2)
    && (bits[2 * k] <==> k in all) && (bits[2 * k + 1] <==> k in all)
    && (k in all ==> all[k] == 1 && desc[2 * k].flags == 1 && desc[2 * k + 1].flags == 2)
  }

  ghost predicate Paired(desc: seq<Desc>, bits: seq<bool>, all: multiset<nat>) {
    && |desc| == N <= |bits|
    && (forall k :: k in all ==> k < N / 2)
    && (forall k :: 0 <= k < N / 2 ==> PairOk(desc, bits, all, k))
  }

  /** Every request on its way reads, for the device, as the buffers it was made for. */
  ghost predicate Carries(desc: seq<Desc>, all: multiset<nat>, reqs: map<nat, (Buf, Buf)>) {
    forall k :: k in all ==> k in reqs && ChainAt(desc, 2 * k) == Some(reqs[k])
  }

  /** The slot of the j-th entry after a 16-bit ring index. */
  function Slot(from: nat, j: nat): (s: nat)
    ensures s < N
  {
    (from + j) % U16 % N
  }

  /** The unread slots of a ring with 16-bit indices hold exactly the heads of the
      requests q, in order. */
  ghost predicate Ring(ring: seq<nat>, from: nat, to: nat, q: seq<nat>) {
    && |ring| == N && |q| <= N && from < U16 && to == (from + |q|) % U16
    && forall j :: 0 <= j < |q| ==> ring[Slot(from, j)] == 2 * q[j]
  }

  // ------------------------------------------------------------------ the rings

  /** Fewer than 32 steps apart, two positions use different slots. */
  lemma Slots(from: nat, j: nat, k: nat)
    requires from < U16 && j < N && k < N
    ensures Slot(from, j) == Slot(from, k) <==> j == k
  {
    SlotMod(from, j);
    SlotMod(from, k);
    hide Slot;
    assert from + j == 32 * ((from + j) / 32) + (from + j) % 32;
    assert from + k == 32 * ((from + k) / 32) + (from + k) % 32;
  }

  lemma SlotMod(from: nat, j: nat)
    requires from < U16 && j < N
    ensures Slot(from, j) == (from + j) % N
  {
    if from + j >= U16 { assert (from + j) % U16 == from + j - U16; }
  }

  /** Writing one more slot of a ring that is not full keeps the unread ones. */
  lemma RingPush(ring: seq<nat>, from: nat, to: nat, q: seq<nat>, h: nat)
    requires Ring(ring, from, to, q) && |q| < N
    ensures Ring(ring[to % N := 2 * h], from, (to + 1) % U16, q + [h])
  {
    assert to % N == Slot(from, |q|);
    assert (to + 1) % U16 == (from + (|q| + 1)) % U16 by { Wrap(from + |q|); }
    hide Slot;
    forall j | 0 <= j <= |q|
      ensures ring[to % N := 2 * h][Slot(from, j)] == 2 * (q + [h])[j]
    {
      Slots(from, j, |q|);
    }
  }

  lemma Wrap(n: nat)
    ensures (n % U16 + 1) % U16 == (n + 1) % U16
  {}

  lemma RingPop(ring: seq<nat>, from: nat, to: nat, q: seq<nat>)
    requires Ring(ring, from, to, q) && q != []
    ensures ring[from % N] == 2 * q[0] && Ring(ring, (from + 1) % U16, to, q[1..])
  {
    assert Slot(from, 0) == from % N;
    Shift(from, |q| - 1);
    hide Slot;
    forall j | 0 <= j < |q| - 1
      ensures ring[Slot((from + 1) % U16, j)] == 2 * q[1..][j]
    {
      Shift(from, j);
      assert ring[Slot(from, j + 1)] == 2 * q[j + 1];
    }
  }

  lemma Shift(from: nat, j: nat)
    requires from < U16
    ensures ((from + 1) % U16 + j) % U16 == (from + (j + 1)) % U16
    ensures Slot((from + 1) % U16, j) == Slot(from, j + 1)
  {}

  /** An index comparison tells an empty ring from any other. */
  lemma RingEmpty(ring: seq<nat>, from: nat, to: nat, q: seq<nat>)
    requires Ring(ring, from, to, q)
    ensures from == to <==> q == []
  {
    if q != [] && from + |q| >= U16 { assert (from + |q|) % U16 == from + |q| - U16; }
  }

  // ---------------------------------------------------------- descriptor pairs

  /** At most sixteen requests can be on their way. */
  lemma {:induction false} AtMostPairs(all: multiset<nat>, n: nat)
    requires forall k :: k in all ==> all[k] == 1 && k < n
    ensures |all| <= n
    decreases n
  {
    if n == 0 {
      assert all == multiset{};
    } else {
      AtMostPairs(all[n - 1 := 0], n - 1);
    }
  }

  lemma PairedCount(desc: seq<Desc>, bits: seq<bool>, all: multiset<nat>)
    requires Paired(desc, bits, all)
    ensures |all| <= N / 2
  {
    forall k | k in all
      ensures all[k] == 1
    {
      assert PairOk(desc, bits, all, k);
    }
    AtMostPairs(all, N / 2);
  }

  /** The lowest clear bit is even and so is not the second of a pair; the bit
      after it is clear too. */
  lemma LowestIsPair(desc: seq<Desc>, bits: seq<bool>, all: multiset<nat>, b: nat) returns (k: nat)
    requires Paired(desc, bits, all) && b < N && !bits[b] && forall i :: 0 <= i < b ==> bits[i]
    ensures k < N / 2 && b == 2 * k && !bits[2 * k + 1] && k !in all
  {
    k := b / 2;
    assert PairOk(desc, bits, all, k);
  }

  /** The descriptors with the chain of pair k filled in. */
  function Linked(desc: seq<Desc>, d1: nat, d2: nat, req: (Buf, Buf)): seq<Desc>
    requires d1 < |desc| && d2 < |desc|
  {
    desc[d1 := desc[d1].SetNext(d2).SetBuf(req.0)][d2 := desc[d2].SetWritable().SetBuf(req.1)]
  }

  /** Submitting a chain on a free pair. */
  lemma PairAdd(desc: seq<Desc>, bits: seq<bool>, all: multiset<nat>, k: nat, req: (Buf, Buf))
    requires Paired(desc, bits, all) && k < N / 2 && k !in all
    ensures Paired(Linked(desc, 2 * k, 2 * k + 1, req), bits[2 * k := true][2 * k + 1 := true], all + multiset{k})
  {
    var desc' := Linked(desc, 2 * k, 2 * k + 1, req);
    var bits', all' := bits[2 * k := true][2 * k + 1 := true], all + multiset{k};
    FlagBits();
    hide Bits.Or, Bits.And;
    forall j | 0 <= j < N / 2
      ensures PairOk(desc', bits', all', j)
    {
      assert PairOk(desc, bits, all, j);
    }
  }

  lemma CarriesAdd(desc: seq<Desc>, bits: seq<bool>, all: multiset<nat>, reqs: map<nat, (Buf, Buf)>, k: nat, req: (Buf, Buf))
    requires Paired(desc, bits, all) && Carries(desc, all, reqs) && k < N / 2 && k !in all
    ensures Carries(Linked(desc, 2 * k, 2 * k + 1, req), all + multiset{k}, reqs[k := req])
  {
    var desc' := Linked(desc, 2 * k, 2 * k + 1, req);
    FlagBits();
    hide Bits.Or, Bits.And;
    forall j | j in all + multiset{k}
      ensures ChainAt(desc', 2 * j) == Some(reqs[k := req][j])
    {
      assert PairOk(desc, bits, all, j) && PairOk(desc, bits, all, k);
    }
  }

  /** Freeing a chain clears its pair and nothing else. */
  lemma PairRemove(desc: seq<Desc>, bits: seq<bool>, all: multiset<nat>, k: nat)
    requires Paired(desc, bits, all) && k in all
    ensures Paired(desc, bits[2 * k := false][2 * k + 1 := false], all - multiset{k})
  {
    var bits', all' := bits[2 * k := false][2 * k + 1 := false], all - multiset{k};
    forall j | 0 <= j < N / 2
      ensures PairOk(desc, bits', all', j)
    {
      assert PairOk(desc, bits, all, j);
    }
  }

  /** When every bit is set, sixteen requests are on their way. */
  lemma {:induction false} AllBusy(desc: seq<Desc>, bits: seq<bool>, all: multiset<nat>, n: nat) returns (low: multiset<nat>)
    requires Paired(desc, bits, all) && n <= N / 2 && forall i :: 0 <= i < N ==> bits[i]
    ensures |low| == n && low <= all && forall k :: k in low ==> k < n
    decreases n
  {
    if n == 0 {
      low := multiset{};
    } else {
      low := AllBusy(desc, bits, all, n - 1);
      assert PairOk(desc, bits, all, n - 1);
      low := low + multiset{n - 1};
    }
  }

  lemma FullCount(desc: seq<Desc>, bits: seq<bool>, all: multiset<nat>)
    requires Paired(desc, bits, all) && forall i :: 0 <= i < N ==> bits[i]
    ensures |all| == N / 2
  {
    var low := AllBusy(desc, bits, all, N / 2);
    assert all == low + (all - low);
    PairedCount(desc, bits, all);
  }

  /** Either some bit is clear, or sixteen requests are on their way. */
  lemma Pairs(desc: seq<Desc>, bits: seq<bool>, all: multiset<nat>)
    requires Paired(desc, bits, all)
    ensures (forall i :: 0 <= i < N ==> bits[i]) <==> |all| == N / 2
  {
    if forall i :: 0 <= i < N ==> bits[i] {
      FullCount(desc, bits, all);
    } else {
      var i :| 0 <= i < N && !bits[i];
      var k := i / 2;
      assert PairOk(desc, bits, all, k);
      var req := (Buf(0, 0), Buf(0, 0));
      PairAdd(desc, bits, all, k, req);
      PairedCount(Linked(desc, 2 * k, 2 * k + 1, req), bits[2 * k := true][2 * k + 1 := true], all + multiset{k});
    }
  }

  // ------------------------------------------------- a request's way through it

  lemma Submitted(f: Flight, k: nat)
    ensures f.(avail := f.avail + [k]).All() == f.All() + multiset{k}
  {}

  lemma Taken(f: Flight)
    requires f.avail != []
    ensures Flight(f.avail[1..], f.taken + [f.avail[0]], f.used).All() == f.All()
  {
    assert f.avail == [f.avail[0]] + f.avail[1..];
  }

  lemma Completed(f: Flight, i: nat)
    requires i < |f.taken|
    ensures Flight(f.avail, f.taken[..i] + f.taken[i + 1..], f.used + [f.taken[i]]).All() == f.All()
  {
    assert f.taken == f.taken[..i] + [f.taken[i]] + f.taken[i + 1..];
  }

  lemma Popped(f: Flight)
    requires f.used != []
    ensures f.(used := f.used[1..]).All() == f.All() - multiset{f.used[0]} && f.used[0] in f.All()
  {
    assert f.used == [f.used[0]] + f.used[1..];
  }

  // ------------------------------------------------------------------ the queue

  class Queue {
    const desc: array<Desc>
    const avail: array<nat>
    const used: array<nat>
    const data: array<nat>
    const bs: BitSet.BitSet128
    var availIdx: nat
    var usedIdx: nat
    var usedPos: nat
    var devPos: nat
    ghost var flight: Flight
    /** The buffers each request was made for: to read and to write. */
    ghost var reqs: map<nat, (Buf, Buf)>

    ghost predicate Shape()
      reads this, bs
    {
      && desc.Length == avail.Length == used.Length == data.Length == N
      && avail != used && avail != data && used != data
      && bs.Valid() && bs.len == N
    }

    ghost predicate Valid()
      reads this, desc, avail, used, data, bs
    {
      && Shape()
      && Paired(desc[..], bs.back, flight.All()) && Carries(desc[..], flight.All(), reqs)
      && Ring(avail[..], devPos, availIdx, flight.avail)
      && Ring(used[..], usedPos, usedIdx, flight.used)
    }

    lemma Sized()
      requires Valid()
      ensures data.Length == N
    {}

    constructor ()
      ensures Valid() && flight == Flight([], [], [])
      ensures fresh(desc) && fresh(avail) && fresh(used) && fresh(data) && fresh(bs)
    {
      desc := new Desc[N](_ => Desc(0, 0, 0, 0));
      avail := new nat[N](_ => 0);
      used := new nat[N](_ => 0);
      data := new nat[N](_ => 0);
      bs := new BitSet.BitSet128(N);
      availIdx, usedIdx, usedPos, devPos := 0, 0, 0, 0;
      flight, reqs := Flight([], [], []), map[];
    }

    /** Takes the lowest clear bit and forgets the descriptor's data. */
    method AllocDesc() returns (r: Option<nat>)
      requires Shape()
      modifies bs, data
      ensures Shape()
      ensures r.None? <==> forall i :: 0 <= i < N ==> old(bs.back)[i]
      ensures r.None? ==> bs.back == old(bs.back) && data[..] == old(data[..])
      ensures r.Some? ==> r.value < N && !old(bs.back)[r.value] && bs.back == old(bs.back)[r.value := true]
      ensures r.Some? ==> forall i :: 0 <= i < r.value ==> old(bs.back)[i]
      ensures r.Some? ==> data[..] == old(data[..])[r.value := 0]
    {
      r := bs.FirstClr();
      if r.Some? {
        bs.Set(r.value);
        data[r.value] := 0;
      }
    }

    method AddAvail(head: nat, ghost k: nat)
      requires Shape() && head == 2 * k
      requires Ring(avail[..], devPos, availIdx, flight.avail) && |flight.avail| < N
      modifies avail, `availIdx, `flight
      ensures flight == old(flight).(avail := old(flight.avail) + [k])
      ensures Ring(avail[..], devPos, availIdx, flight.avail)
    {
      RingPush(avail[..], devPos, availIdx, flight.avail, k);
      ghost var ring: seq<nat> := avail[..];
      avail[availIdx % N] := head;
      assert avail[..] == ring[availIdx % N := 2 * k];
      availIdx := (availIdx + 1) % U16;
      flight := flight.(avail := flight.avail + [k]);
    }

    /** The driver fills in the two descriptors of a chain. */
    method Link(d1: nat, d2: nat, req: (Buf, Buf))
      requires Shape() && d1 < N && d2 < N && d1 != d2
      modifies desc
      ensures desc[..] == Linked(old(desc[..]), d1, d2, req)
    {
      desc[d1] := desc[d1].SetNext(d2).SetBuf(req.0);
      desc[d2] := desc[d2].SetWritable().SetBuf(req.1);
    }

    /** Two allocations in a row yield a pair 2k, 2k+1, or the first one fails. */
    method AllocPair() returns (r: Option<(nat, nat)>, ghost k: nat)
      requires Shape() && Paired(desc[..], bs.back, flight.All())
      modifies bs, data
      ensures Shape()
      ensures r.None? <==> |flight.All()| == 16
      ensures r.None? ==> bs.back == old(bs.back) && data[..] == old(data[..])
      ensures r.Some? ==> k < N / 2 && k !in flight.All() && r.value == (2 * k, 2 * k + 1)
      ensures r.Some? ==> bs.back == old(bs.back)[2 * k := true][2 * k + 1 := true]
      ensures r.Some? ==> data[..] == old(data[..])[2 * k := 0][2 * k + 1 := 0]
    {
      ghost var all, bits, d := flight.All(), bs.back, desc[..];
      Pairs(d, bits, all);
      var d1 := AllocDesc();
      if d1.None? {
        return None, 0;
      }
      k := LowestIsPair(d, bits, all, d1.value);
      hide Paired;
      assert !bs.back[2 * k + 1] && forall i :: 0 <= i < 2 * k + 1 ==> bs.back[i];
      var d2 := AllocDesc();
      return Some((d1.value, d2.value)), k;
    }

    /** A 9p request: two descriptors, linked, put on the avail ring. None is the
        failed unwrap; it happens only with all sixteen pairs in flight. The
        request gets a pair of its own, which reads for the device as the message to
        read and the reply to write, and no other request's buffers or data change. */
    method Submit(chan: nat, req: (Buf, Buf)) returns (r: Option<nat>)
      requires Valid()
      modifies this, desc, avail, data, bs
      ensures Valid()
      ensures r.None? <==> |old(flight).All()| == 16
      ensures r.None? ==> flight == old(flight) && data[..] == old(data[..]) && reqs == old(reqs)
      ensures r.Some? ==> reqs == old(reqs)[r.value := req] && ChainAt(desc[..], 2 * r.value) == Some(req)
      ensures r.Some? ==> r.value < N / 2 && r.value !in old(flight).All()
      ensures r.Some? ==> flight == old(flight).(avail := old(flight.avail) + [r.value])
      ensures r.Some? ==> data[2 * r.value] == chan
      ensures forall i :: 0 <= i < N / 2 && Some(i) != r ==> data[2 * i] == old(data[2 * i])
    {
      hide Ring, Slot, ChainAt, Linked, Paired, Carries;
      ghost var all, bits, d := flight.All(), bs.back, desc[..];
      PairedCount(d, bits, all);
      var pair, k := AllocPair();
      if pair.None? {
        return None;
      }
      PairAdd(d, bits, all, k, req);
      CarriesAdd(d, bits, all, reqs, k, req);
      assert |flight.avail| <= |all| <= N / 2;
      hide Flight.All;
      Send(pair.value.0, pair.value.1, k, chan, req);
      CarriesAt(desc[..], flight.All(), reqs, k);
      return Some(pair.value.0 / 2);
    }

    /** The chain is filled in, its channel noted, and its head put on the avail ring. */
    method Send(d1: nat, d2: nat, ghost k: nat, chan: nat, req: (Buf, Buf))
      requires Shape() && d1 == 2 * k && d2 == 2 * k + 1 && k < N / 2
      requires Ring(avail[..], devPos, availIdx, flight.avail) && |flight.avail| < N
      modifies desc, data, avail, `availIdx, `flight, `reqs
      ensures desc[..] == Linked(old(desc[..]), 2 * k, 2 * k + 1, req) && data[..] == old(data[..])[2 * k := chan]
      ensures flight == old(flight).(avail := old(flight.avail) + [k]) && reqs == old(reqs)[k := req]
      ensures flight.All() == old(flight.All()) + multiset{k} && Ring(avail[..], devPos, availIdx, flight.avail)
    {
      hide Ring, Slot, Linked;
      Submitted(flight, k);
      Link(d1, d2, req);
      reqs := reqs[k := req];
      data[d1] := chan;
      AddAvail(d1, k);
    }

    /** The device reads the next avail slot, and finds there a chain with the buffers
        of the oldest request. */
    method DevTake() returns (head: nat)
      requires Valid() && flight.avail != []
      modifies `devPos, `flight
      ensures Valid() && head == 2 * old(flight.avail[0])
      ensures old(flight.avail[0]) in reqs && ChainAt(desc[..], head) == Some(reqs[old(flight.avail[0])])
      ensures flight == Flight(old(flight.avail)[1..], old(flight.taken) + [old(flight.avail[0])], old(flight.used))
    {
      hide Paired, Slot, ChainAt;
      RingPop(avail[..], devPos, availIdx, flight.avail);
      assert flight.avail[0] in flight.All();
      head := avail[devPos % N];
      devPos := (devPos + 1) % U16;
      Taken(flight);
      flight := Flight(flight.avail[1..], flight.taken + [flight.avail[0]], flight.used);
    }

    /** The device completes any request it holds. */
    method DevComplete(head: nat, ghost i: nat)
      requires Valid() && i < |flight.taken| && head == 2 * flight.taken[i]
      modifies used, `usedIdx, `flight
      ensures Valid()
      ensures flight == Flight(old(flight.avail), old(flight.taken)[..i] + old(flight.taken)[i + 1..],
                               old(flight.used) + [old(flight.taken[i])])
    {
      hide Slot;
      PairedCount(desc[..], bs.back, flight.All());
      hide Paired;
      ghost var ring: seq<nat>, k := used[..], flight.taken[i];
      RingPush(ring, usedPos, usedIdx, flight.used, k);
      used[usedIdx % N] := head;
      assert used[..] == ring[usedIdx % N := 2 * k];
      usedIdx := (usedIdx + 1) % U16;
      Completed(flight, i);
      flight := Flight(flight.avail, flight.taken[..i] + flight.taken[i + 1..], flight.used + [k]);
    }

    /** Walks the chain and clears its bits. On a chain of the driver neither
        assertion fires and exactly the pair is freed. */
    method FreeDesc(head: nat, ghost k: nat)
      requires Shape() && head == 2 * k && Paired(desc[..], bs.back, flight.All()) && k in flight.All()
      modifies bs
      ensures Shape() && bs.back == old(bs.back)[2 * k := false][2 * k + 1 := false]
    {
      assert PairOk(desc[..], bs.back, flight.All(), k);
      FlagBits();
      assert desc[2 * k].GetNext() == Some(2 * k + 1) && desc[2 * k + 1].GetNext() == None;
      hide Paired, PairOk, Bits.And, Desc.GetNext;
      bs.Clr(head);
      var d, i := desc[head], 1;
      while d.GetNext().Some?
        invariant Shape()
        invariant i == 1 ==> d == desc[head] && bs.back == old(bs.back)[2 * k := false]
        invariant i != 1 ==> i == 2 && d.GetNext().None? && bs.back == old(bs.back)[2 * k := false][2 * k + 1 := false]
        decreases 2 - i
      {
        var next := d.GetNext().value;
        assert i < N;
        assert bs.Tst(next);
        bs.Clr(next);
        d, i := desc[next], i + 1;
      }
    }

    lemma UsedHead()
      requires Valid() && flight.used != []
      ensures flight.used[0] < N / 2 && used[usedPos % N] == 2 * flight.used[0] && used[usedPos % N] % N == 2 * flight.used[0]
    {
      hide Slot;
      Popped(flight);
      RingPop(used[..], usedPos, usedIdx, flight.used);
    }

    /** The oldest unread completion: its head and the data stored with it. */
    method PeekUsed() returns (r: Option<(nat, nat)>)
      requires Valid()
      ensures r.None? <==> flight.used == []
      ensures r.Some? ==> flight.used[0] < N / 2 && r.value == (2 * flight.used[0], data[2 * flight.used[0]])
    {
      RingEmpty(used[..], usedPos, usedIdx, flight.used);
      if usedPos == usedIdx {
        return None;
      }
      UsedHead();
      hide Slot, Ring, Paired;
      var id := used[usedPos % N];
      return Some((id, data[id % N]));
    }

    /** Frees the oldest unread completion's chain and no other. */
    method PopUsed()
      requires Valid() && flight.used != []
      modifies bs, `usedPos, `flight
      ensures Valid() && flight == old(flight).(used := old(flight.used)[1..])
    {
      hide Slot;
      RingPop(used[..], usedPos, usedIdx, flight.used);
      ghost var k := flight.used[0];
      Popped(flight);
      PairRemove(desc[..], bs.back, flight.All(), k);
      CarriesLess(desc[..], flight.All(), reqs, k);
      hide Paired, Ring, Carries, Flight.All;
      FreeDesc(used[usedPos % N], k);
      usedPos := (usedPos + 1) % U16;
      flight := flight.(used := flight.used[1..]);
    }
  }

  lemma CarriesLess(desc: seq<Desc>, all: multiset<nat>, reqs: map<nat, (Buf, Buf)>, k: nat)
    requires Carries(desc, all, reqs)
    ensures Carries(desc, all - multiset{k}, reqs)
  {}

  lemma CarriesAt(desc: seq<Desc>, all: multiset<nat>, reqs: map<nat, (Buf, Buf)>, k: nat)
    requires Carries(desc, all, reqs) && k in all
    ensures k in reqs && ChainAt(desc, 2 * k) == Some(reqs[k])
  {}

  // ----------------------------------------------------------------- the driver

  const TASKS: nat := 8

  /** Requests owned by n different tasks are at most n. */
  lemma {:induction false} OnePerTask(all: multiset<nat>, owner: map<nat, nat>, n: nat)
    requires forall k :: k in all ==> all[k] == 1 && k in owner && owner[k] < n
    requires forall j, k :: j in all && k in all && j != k ==> owner[j] != owner[k]
    ensures |all| <= n
    decreases n
  {
    if n == 0 {
      assert all == multiset{};
    } else if k :| k in all && owner[k] == n - 1 {
      OnePerTask(all[k := 0], owner, n - 1);
    } else {
      OnePerTask(all, owner, n - 1);
    }
  }

  /** Requests on their way and sleeping tasks correspond one to one, and each
      task sleeps on the channel stored with its request. */
  ghost predicate Matched(all: multiset<nat>, data: seq<nat>, sleeping: map<nat, nat>, slot: map<nat, nat>, owner: map<nat, nat>) {
    && |data| == N
    && (forall k :: k in all <==> k in owner)
    && (forall k :: k in owner ==> Owned(k, slot, owner))
    && (forall t :: t in sleeping <==> t in slot)
    && (forall t :: t in slot ==> Sleeps(t, data, sleeping, slot, owner))
    && (forall t, u :: t in sleeping && u in sleeping && t != u ==> sleeping[t] != sleeping[u])
  }

  ghost predicate Owned(k: nat, slot: map<nat, nat>, owner: map<nat, nat>)
    requires k in owner
  {
    k < N / 2 && owner[k] in slot && slot[owner[k]] == k
  }

  ghost predicate Sleeps(t: nat, data: seq<nat>, sleeping: map<nat, nat>, slot: map<nat, nat>, owner: map<nat, nat>)
    requires |data| == N && t in slot
  {
    && t < TASKS && slot[t] in owner && owner[slot[t]] == t && slot[t] < N / 2
    && t in sleeping && sleeping[t] != 0 && data[2 * slot[t]] == sleeping[t]
  }

  lemma MatchedCount(desc: seq<Desc>, bits: seq<bool>, all: multiset<nat>, data: seq<nat>,
                     sleeping: map<nat, nat>, slot: map<nat, nat>, owner: map<nat, nat>)
    requires Paired(desc, bits, all) && Matched(all, data, sleeping, slot, owner)
    ensures |all| <= TASKS
  {
    forall k | k in all
      ensures all[k] == 1 && owner[k] < TASKS && slot[owner[k]] == k
    {
      assert PairOk(desc, bits, all, k) && Owned(k, slot, owner);
      assert Sleeps(owner[k], data, sleeping, slot, owner);
    }
    hide Matched, Paired;
    OnePerTask(all, owner, TASKS);
  }

  lemma MatchedAdd(all: multiset<nat>, data: seq<nat>, data': seq<nat>, sleeping: map<nat, nat>, slot: map<nat, nat>, owner: map<nat, nat>,
                   t: nat, k: nat, chan: nat)
    requires Matched(all, data, sleeping, slot, owner)
    requires t < TASKS && t !in sleeping && k < N / 2 && k !in all
    requires chan != 0 && forall u :: u in sleeping ==> sleeping[u] != chan
    requires |data'| == N && data'[2 * k] == chan && forall j :: 0 <= j < N / 2 && j != k ==> data'[2 * j] == data[2 * j]
    ensures Matched(all + multiset{k}, data', sleeping[t := chan], slot[t := k], owner[k := t]) && k !in owner
  {
    hide Owned, Sleeps;
    var all', sleeping', slot', owner' := all + multiset{k}, sleeping[t := chan], slot[t := k], owner[k := t];
    forall j | j in owner'
      ensures Owned(j, slot', owner')
    {
      OwnedAdd(slot, owner, t, k, j);
    }
    forall u | u in slot'
      ensures Sleeps(u, data', sleeping', slot', owner')
    {
      SleepsAdd(data, data', sleeping, slot, owner, t, k, chan, u);
    }
  }

  lemma OwnedAdd(slot: map<nat, nat>, owner: map<nat, nat>, t: nat, k: nat, j: nat)
    requires t !in slot && k < N / 2 && (j == k || (j in owner && Owned(j, slot, owner)))
    ensures Owned(j, slot[t := k], owner[k := t])
  {}

  lemma SleepsAdd(data: seq<nat>, data': seq<nat>, sleeping: map<nat, nat>, slot: map<nat, nat>, owner: map<nat, nat>,
                  t: nat, k: nat, chan: nat, u: nat)
    requires |data| == N && t < TASKS && k < N / 2 && k !in owner && chan != 0
    requires |data'| == N && data'[2 * k] == chan && forall j :: 0 <= j < N / 2 && j != k ==> data'[2 * j] == data[2 * j]
    requires u == t || (u in slot && Sleeps(u, data, sleeping, slot, owner))
    ensures Sleeps(u, data', sleeping[t := chan], slot[t := k], owner[k := t])
  {}

  /** Waking the channel of a completed request wakes its owner and nobody else. */
  lemma MatchedRemove(all: multiset<nat>, data: seq<nat>, sleeping: map<nat, nat>, slot: map<nat, nat>, owner: map<nat, nat>, k: nat)
    requires Matched(all, data, sleeping, slot, owner) && k in all && all[k] == 1
    ensures Matched(all - multiset{k}, data, sleeping - {owner[k]}, slot - {owner[k]}, owner - {k})
    ensures owner[k] in sleeping && sleeping[owner[k]] == data[2 * k] != 0
    ensures forall t :: t in sleeping ==> (sleeping[t] == data[2 * k] <==> t == owner[k])
  {
    var t := owner[k];
    assert Owned(k, slot, owner) && Sleeps(t, data, sleeping, slot, owner);
    hide Owned, Sleeps;
    var all', sleeping', slot', owner' := all - multiset{k}, sleeping - {t}, slot - {t}, owner - {k};
    forall j | j in owner'
      ensures Owned(j, slot', owner')
    {
      OwnedRemove(slot, owner, k, j);
    }
    forall u | u in slot'
      ensures Sleeps(u, data, sleeping', slot', owner')
    {
      SleepsRemove(data, sleeping, slot, owner, k, u);
    }
  }

  lemma OwnedRemove(slot: map<nat, nat>, owner: map<nat, nat>, k: nat, j: nat)
    requires k in owner && Owned(k, slot, owner) && j in owner && j != k && Owned(j, slot, owner)
    ensures Owned(j, slot - {owner[k]}, owner - {k})
  {}

  lemma SleepsRemove(data: seq<nat>, sleeping: map<nat, nat>, slot: map<nat, nat>, owner: map<nat, nat>, k: nat, u: nat)
    requires |data| == N && k in owner && Owned(k, slot, owner) && u in slot && u != owner[k] && Sleeps(u, data, sleeping, slot, owner)
    ensures Sleeps(u, data, sleeping - {owner[k]}, slot - {owner[k]}, owner - {k})
  {}

  /** The driver's books: the request each sleeping task waits for, whose request
      each is, how often each task submitted and how often it was woken. */
  datatype Book = Book(slot: map<nat, nat>, owner: map<nat, nat>, issued: seq<nat>, woken: seq<nat>) {
    ghost function Enter(t: nat, k: nat): Book
      requires t < |issued|
    {
      Book(slot[t := k], owner[k := t], issued[t := issued[t] + 1], woken)
    }

    ghost function Leave(k: nat): Book
      requires k in owner && owner[k] < |woken|
    {
      Book(slot - {owner[k]}, owner - {k}, issued, woken[owner[k] := woken[owner[k]] + 1])
    }
  }

  /** Every task was woken as often as it submitted, except once less while it sleeps. */
  ghost predicate Counted(sleeping: map<nat, nat>, b: Book) {
    && |b.issued| == |b.woken| == TASKS
    && forall t :: 0 <= t < TASKS ==> b.issued[t] == b.woken[t] + if t in sleeping then 1 else 0
  }

  ghost predicate Good(all: multiset<nat>, data: seq<nat>, sleeping: map<nat, nat>, b: Book) {
    Matched(all, data, sleeping, b.slot, b.owner) && Counted(sleeping, b)
  }

  lemma GoodAdd(all: multiset<nat>, data: seq<nat>, data': seq<nat>, sleeping: map<nat, nat>, b: Book, t: nat, k: nat, chan: nat)
    requires Good(all, data, sleeping, b)
    requires t < TASKS && t !in sleeping && k < N / 2 && k !in all
    requires chan != 0 && forall u :: u in sleeping ==> sleeping[u] != chan
    requires |data'| == N && data'[2 * k] == chan && forall j :: 0 <= j < N / 2 && j != k ==> data'[2 * j] == data[2 * j]
    ensures k !in b.owner && t < |b.issued| && Good(all + multiset{k}, data', sleeping[t := chan], b.Enter(t, k))
  {
    MatchedAdd(all, data, data', sleeping, b.slot, b.owner, t, k, chan);
    hide Matched;
  }

  lemma GoodRemove(all: multiset<nat>, data: seq<nat>, sleeping: map<nat, nat>, b: Book, k: nat)
    requires Good(all, data, sleeping, b) && k in all && all[k] == 1
    ensures k < N / 2 && k in b.owner && b.owner[k] < TASKS && b.owner[k] in sleeping && data[2 * k] != 0
    ensures forall t :: t in sleeping ==> (sleeping[t] == data[2 * k] <==> t == b.owner[k])
    ensures Good(all - multiset{k}, data, sleeping - {b.owner[k]}, b.Leave(k))
  {
    MatchedRemove(all, data, sleeping, b.slot, b.owner, k);
    assert Owned(k, b.slot, b.owner) && Sleeps(b.owner[k], data, sleeping, b.slot, b.owner);
    hide Matched, Owned, Sleeps;
  }

  /** The driver's state after the completions in used have been handled in order. */
  ghost function Handle(sleeping: map<nat, nat>, b: Book, used: seq<nat>): (map<nat, nat>, Book)
    decreases used
  {
    if used != [] && used[0] in b.owner && b.owner[used[0]] < |b.woken| then
      Handle(sleeping - {b.owner[used[0]]}, b.Leave(used[0]), used[1..])
    else
      (sleeping, b)
  }

  /** From (s, b) to (s', b') exactly the tasks whose requests are in used were
      woken, each exactly once. */
  ghost predicate Woke(s: map<nat, nat>, b: Book, used: seq<nat>, s': map<nat, nat>, b': Book) {
    && b'.issued == b.issued && |b'.woken| == |b.woken| == TASKS
    && (forall t :: t in s' <==> t in s && t in b.slot && b.slot[t] !in used)
    && (forall t :: t in s' ==> t in s && s'[t] == s[t])
    && forall t :: 0 <= t < TASKS ==> b'.woken[t] == b.woken[t] + if t in b.slot && b.slot[t] in used then 1 else 0
  }

  lemma WokeStep(s: map<nat, nat>, b: Book, k: nat, rest: seq<nat>, s': map<nat, nat>, b': Book)
    requires k in b.owner && b.owner[k] < |b.woken| && b.owner[k] in b.slot && b.slot[b.owner[k]] == k
    requires forall t :: t in b.slot && b.slot[t] == k ==> t == b.owner[k]
    requires Woke(s - {b.owner[k]}, b.Leave(k), rest, s', b')
    ensures Woke(s, b, [k] + rest, s', b')
  {
    var used, t0 := [k] + rest, b.owner[k];
    forall t | t in b.slot
      ensures b.slot[t] in used <==> t == t0 || b.slot[t] in rest
    {}
  }

  /** Handling completions wakes exactly the tasks whose requests are among them,
      each exactly once. */
  lemma {:induction false} HandleWakes(all: multiset<nat>, data: seq<nat>, sleeping: map<nat, nat>, b: Book, used: seq<nat>)
    requires Good(all, data, sleeping, b) && multiset(used) <= all && forall k :: k in all ==> all[k] == 1
    ensures var (s, b') := Handle(sleeping, b, used);
            Good(all - multiset(used), data, s, b') && Woke(sleeping, b, used, s, b')
    decreases used
  {
    if used == [] {
      assert all - multiset(used) == all;
      WokeNone(all, data, sleeping, b);
    } else {
      var k := used[0];
      Rest(all, used);
      GoodRemove(all, data, sleeping, b, k);
      OneOwner(all, data, sleeping, b, k);
      hide Good, Woke;
      var (s, b') := Handle(sleeping, b, used);
      HandleWakes(all - multiset{k}, data, sleeping - {b.owner[k]}, b.Leave(k), used[1..]);
      WokeStep(sleeping, b, k, used[1..], s, b');
    }
  }

  lemma WokeNone(all: multiset<nat>, data: seq<nat>, sleeping: map<nat, nat>, b: Book)
    requires Good(all, data, sleeping, b)
    ensures Woke(sleeping, b, [], sleeping, b)
  {
  }

  lemma Rest(all: multiset<nat>, used: seq<nat>)
    requires used != [] && multiset(used) <= all && forall k :: k in all ==> all[k] == 1
    ensures used == [used[0]] + used[1..] && used[0] in all && multiset(used[1..]) <= all - multiset{used[0]}
    ensures all - multiset{used[0]} - multiset(used[1..]) == all - multiset(used)
    ensures forall k :: k in all - multiset{used[0]} ==> (all - multiset{used[0]})[k] == 1
  {
    assert used == [used[0]] + used[1..];
    assert used[0] in multiset(used);
  }

  lemma OneOwner(all: multiset<nat>, data: seq<nat>, sleeping: map<nat, nat>, b: Book, k: nat)
    requires Good(all, data, sleeping, b) && k in all
    ensures k in b.owner && b.owner[k] in b.slot && b.slot[b.owner[k]] == k && |b.woken| == TASKS
    ensures forall t :: t in b.slot && b.slot[t] == k ==> t == b.owner[k]
  {
    assert Owned(k, b.slot, b.owner);
    forall t | t in b.slot && b.slot[t] == k
      ensures t == b.owner[k]
    {
      assert Sleeps(t, data, sleeping, b.slot, b.owner);
    }
  }

  /** wakeup(chan): every task sleeping on chan leaves its sleep. */
  function Awake(sleeping: map<nat, nat>, chan: nat): map<nat, nat> {
    map t | t in sleeping && sleeping[t] != chan :: sleeping[t]
  }

  lemma AwakeOne(sleeping: map<nat, nat>, chan: nat, t: nat)
    requires forall u :: u in sleeping ==> (sleeping[u] == chan <==> u == t)
    ensures Awake(sleeping, chan) == sleeping - {t}
  {
  }

  /** The 9p driver: every task sleeps on its own request's channel until the
      interrupt handler wakes it. */
  class Driver {
    const q: Queue
    /** The channel each sleeping task waits on. */
    var sleeping: map<nat, nat>
    ghost var book: Book

    ghost predicate Valid()
      reads this, q, q.desc, q.avail, q.used, q.data, q.bs
    {
      q.Valid() && Good(q.flight.All(), q.data[..], sleeping, book)
    }

    constructor ()
      ensures Valid() && sleeping == map[] && fresh(q)
      ensures fresh(q.desc) && fresh(q.avail) && fresh(q.used) && fresh(q.data) && fresh(q.bs)
    {
      q := new Queue();
      sleeping := map[];
      book := Book(map[], map[], seq(TASKS, _ => 0), seq(TASKS, _ => 0));
    }

    lemma Room()
      requires Valid()
      ensures |q.flight.All()| <= 8
    {
      MatchedCount(q.desc[..], q.bs.back, q.flight.All(), q.data[..], sleeping, book.slot, book.owner);
    }

    /** A running task submits its request and goes to sleep on its message's
        address, which no other live message has. The descriptor allocation never
        fails. */
    method Request(task: nat, chan: nat, req: (Buf, Buf)) returns (ghost k: nat)
      requires Valid() && task < TASKS && task !in sleeping
      requires chan != 0 && forall t :: t in sleeping ==> sleeping[t] != chan
      modifies this, q, q.desc, q.avail, q.data, q.bs
      ensures Valid() && sleeping == old(sleeping)[task := chan]
      ensures k !in old(book).owner && task < |old(book).issued| && book == old(book).Enter(task, k)
      ensures q.flight == old(q.flight).(avail := old(q.flight.avail) + [k])
      ensures q.reqs == old(q.reqs)[k := req] && ChainAt(q.desc[..], 2 * k) == Some(req)
    {
      hide Queue.Valid, Matched, Good, ChainAt, Book.Enter;
      Room();
      q.Sized();
      ghost var all, data: seq<nat> := q.flight.All(), q.data[..];
      var r := q.Submit(chan, req);
      k := r.value;
      Submitted(old(q.flight), k);
      GoodAdd(all, data, q.data[..], sleeping, book, task, k, chan);
      sleeping := sleeping[task := chan];
      book := book.Enter(task, k);
    }

    /** Whatever the device takes and completes, in any order, every sleeping task
        still waits for its own request. */
    method DeviceTakes() returns (head: nat)
      requires Valid() && q.flight.avail != []
      modifies q`devPos, q`flight
      ensures Valid() && q.flight.All() == old(q.flight).All()
      ensures q.flight.taken == old(q.flight.taken) + [old(q.flight.avail[0])]
    {
      Taken(q.flight);
      hide Queue.Valid, Good, Flight.All;
      head := q.DevTake();
    }

    method DeviceCompletes(head: nat, ghost i: nat)
      requires Valid() && i < |q.flight.taken| && head == 2 * q.flight.taken[i]
      modifies q.used, q`usedIdx, q`flight
      ensures Valid() && q.flight.All() == old(q.flight).All()
      ensures q.flight.used == old(q.flight.used) + [old(q.flight.taken[i])]
    {
      Completed(q.flight, i);
      assert q.used != q.data;
      hide Queue.Valid, Good, Flight.All;
      q.DevComplete(head, i);
    }

    /** The oldest completion's task is the one its stored channel wakes. */
    lemma Oldest()
      requires Valid() && q.flight.used != []
      ensures var k := q.flight.used[0];
              && k < N / 2 && q.data.Length == N && k in book.owner && book.owner[k] < TASKS == |book.woken|
              && book.owner[k] in sleeping && q.data[2 * k] != 0
              && (forall t :: t in sleeping ==> (sleeping[t] == q.data[2 * k] <==> t == book.owner[k]))
              && Good(q.flight.All() - multiset{k}, q.data[..], sleeping - {book.owner[k]}, book.Leave(k))
    {
      var k := q.flight.used[0];
      assert k in q.flight.All();
      assert PairOk(q.desc[..], q.bs.back, q.flight.All(), k);
      hide Paired, Ring, Matched;
      GoodRemove(q.flight.All(), q.data[..], sleeping, book, k);
    }

    method Finish(chan: nat, ghost k: nat)
      requires Valid() && q.flight.used != [] && k == q.flight.used[0]
      requires k < N / 2 && q.data.Length == N && chan == q.data[2 * k]
      modifies this, q, q.bs
      ensures Valid() && q.flight == old(q.flight).(used := old(q.flight.used)[1..])
      ensures k in old(book).owner && old(book).owner[k] < |old(book).woken|
      ensures sleeping == old(sleeping) - {old(book).owner[k]} && book == old(book).Leave(k)
    {
      hide Queue.Valid, Good, Book.Leave, Flight.All;
      Oldest();
      ghost var all, b := q.flight.All() - multiset{k}, book.Leave(k);
      Popped(q.flight);
      AwakeOne(sleeping, chan, book.owner[k]);
      hide Awake;
      if chan != 0 {
        sleeping := Awake(sleeping, chan);
      }
      q.PopUsed();
      assert q.flight.All() == all;
      book := b;
    }

    /** One turn of the handler's loop: with a completion to read, its task and no
        other is woken and its chain is freed. */
    method Complete() returns (more: bool)
      requires Valid()
      modifies this, q, q.bs
      ensures Valid() && (more <==> old(q.flight).used != [])
      ensures !more ==> q.flight == old(q.flight) && sleeping == old(sleeping) && book == old(book)
      ensures more ==> q.flight == old(q.flight).(used := old(q.flight).used[1..])
      ensures more ==> Handle(sleeping, book, q.flight.used) == Handle(old(sleeping), old(book), old(q.flight).used)
    {
      hide Paired, Ring, Good, Flight.All;
      var next := q.PeekUsed();
      more := next.Some?;
      if more {
        Finish(next.value.1, q.flight.used[0]);
      }
    }

    /** The interrupt handler empties the used ring and wakes exactly the tasks
        whose requests were in it, each exactly once. */
    method HandleIrq()
      requires Valid()
      modifies this, q, q.bs
      ensures Valid() && q.flight == old(q.flight).(used := [])
      ensures Woke(old(sleeping), old(book), old(q.flight).used, sleeping, book)
    {
      Singles();
      HandleWakes(q.flight.All(), q.data[..], sleeping, book, q.flight.used);
      hide Queue.Valid, Good, Woke, Flight.All;
      var more := Complete();
      while more
        invariant Valid() && q.flight == old(q.flight).(used := q.flight.used)
        invariant !more ==> q.flight.used == []
        invariant Handle(sleeping, book, q.flight.used) == Handle(old(sleeping), old(book), old(q.flight).used)
        decreases |q.flight.used|, more
      {
        more := Complete();
      }
    }

    lemma Singles()
      requires Valid()
      ensures var all := q.flight.All();
              multiset(q.flight.used) <= all && (forall k :: k in all ==> all[k] == 1)
    {
      hide Ring, Good;
      var all := q.flight.All();
      forall k | k in all
        ensures all[k] == 1
      {
        assert PairOk(q.desc[..], q.bs.back, all, k);
      }
    }
  }
}
