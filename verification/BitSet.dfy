/** BitSet128 of src/stuff.rs and the window region of src/vm.rs built on it. */
module BitSet {
  import opened Frames

  /** The n bits from a on are clear and below len. */
  ghost predicate ClearRun(bits: seq<bool>, len: nat, a: nat, n: nat) {
    a + n <= len <= |bits| && forall i :: a <= i < a + n ==> !bits[i]
  }

  ghost function SetRun(bits: seq<bool>, a: nat, n: nat): (bits': seq<bool>)
    ensures |bits'| == |bits|
    ensures forall i :: 0 <= i < |bits| ==> bits'[i] == (bits[i] || a <= i < a + n)
  {
    seq(|bits|, i requires 0 <= i < |bits| => bits[i] || a <= i < a + n)
  }

  class BitSet128 {
    var back: seq<bool>
    const len: nat

    /** The bits beyond len are always set. */
    ghost predicate Valid()
      reads this
    {
      |back| == 128 && len <= 128 && forall i :: len <= i < 128 ==> back[i]
    }

    constructor (n: nat)
      requires n <= 128
      ensures Valid() && len == n && forall i :: 0 <= i < n ==> !back[i]
    {
      len := n;
      back := seq(128, i => i >= n);
    }

    method Set(bit: nat)
      requires Valid() && bit < len
      modifies this
      ensures Valid() && back == old(back)[bit := true]
    {
      back := back[bit := true];
    }

    method Clr(bit: nat)
      requires Valid() && bit < len
      modifies this
      ensures Valid() && back == old(back)[bit := false]
    {
      back := back[bit := false];
    }

    predicate Tst(bit: nat)
      requires Valid() && bit < len
      reads this
    {
      back[bit]
    }

    predicate Full()
      requires Valid()
      reads this
    {
      forall i :: 0 <= i < 128 ==> back[i]
    }

    /** The lowest clear bit, or None when all bits below len are set. */
    method FirstClr() returns (r: Option<nat>)
      requires Valid()
      ensures r.None? <==> forall i :: 0 <= i < len ==> back[i]
      ensures r.Some? ==> r.value < len && !back[r.value] && forall i :: 0 <= i < r.value ==> back[i]
    {
      if Full() {
        return None;
      }
      for i := 0 to len
        invariant forall j :: 0 <= j < i ==> back[j]
      {
        if !Tst(i) {
          return Some(i);
        }
      }
      return None;
    }

    /** set_nclr sets exactly the lowest run of n clear bits; without one it
        changes nothing. */
    method SetNClr(n: nat) returns (r: Option<nat>)
      requires Valid() && n >= 1
      modifies this
      ensures Valid()
      ensures r.None? <==> forall a: nat :: !ClearRun(old(back), len, a, n)
      ensures r.None? ==> back == old(back)
      ensures r.Some? ==> ClearRun(old(back), len, r.value, n) && back == SetRun(old(back), r.value, n)
      ensures r.Some? ==> forall a: nat :: a < r.value ==> !ClearRun(old(back), len, a, n)
    {
      var f: nat, b := 0, back;
      for i := 0 to len
        invariant back == old(back) && f <= i && f < n
        invariant b == SetRun(back, i - f, f)
        invariant ClearRun(back, len, i - f, f)
        invariant f < i ==> back[i - f - 1]
        invariant forall a: nat :: a + n <= i ==> !ClearRun(back, len, a, n)
      {
        if !Tst(i) {
          b := b[i := true];
          f := f + 1;
          assert b == SetRun(back, i + 1 - f, f);
        } else {
          f := 0;
          b := back;
          assert b == SetRun(back, i + 1, 0);
        }
        if f == n {
          assert ClearRun(back, len, i - (n - 1), n);
          back := b;
          return Some(i - (n - 1));
        }
      }
      return None;
    }
  }

  /** The window of fixed kernel pages behind PmWrap: 128 slots of one page. */
  class Window {
    const start: nat
    const bs: BitSet128

    ghost predicate Valid()
      reads this, bs
    {
      bs.Valid() && bs.len == 128
    }

    ghost predicate InUse(addr: nat)
      requires Valid()
      reads this, bs
    {
      addr >= start && (addr - start) / 4096 < 128 && bs.back[(addr - start) / 4096]
    }

    constructor (s: nat)
      ensures Valid() && start == s && fresh(bs) && forall i :: 0 <= i < 128 ==> !bs.back[i]
    {
      start := s;
      bs := new BitSet128(128);
    }

    /** Region::alloc hands out n adjacent slots that were all unused. */
    method Alloc(n: nat) returns (r: Option<nat>)
      requires Valid() && n >= 1
      modifies bs
      ensures Valid()
      ensures r.None? <==> n > 4 || forall a: nat :: !ClearRun(old(bs.back), 128, a, n)
      ensures r.None? ==> bs.back == old(bs.back)
      ensures r.Some? ==> r.value >= start && (r.value - start) % 4096 == 0
      ensures r.Some? ==> forall k :: 0 <= k < n ==> !old(InUse(r.value + 4096 * k)) && InUse(r.value + 4096 * k)
      ensures r.Some? ==> bs.back == SetRun(old(bs.back), (r.value - start) / 4096, n)
    {
      if bs.Full() || n > 4 {
        assert bs.Full() ==> forall a: nat :: ClearRun(bs.back, 128, a, n) ==> !bs.back[a];
        return None;
      }
      var i := bs.SetNClr(n);
      if i.None? {
        return None;
      }
      assert forall k :: 0 <= k < n ==> (i.value * 4096 + 4096 * k) / 4096 == i.value + k;
      return Some(i.value * 4096 + start);
    }

    /** Region::free_1 on a slot in use; it is the inverse of a one-slot alloc. */
    method Free1(addr: nat)
      requires Valid() && InUse(addr)
      modifies bs
      ensures Valid() && bs.back == old(bs.back)[(addr - start) / 4096 := false]
    {
      bs.Clr((addr - start) / 4096);
    }

    method AllocThenFree() returns (r: Option<nat>)
      requires Valid()
      modifies bs
      ensures Valid() && bs.back == old(bs.back)
    {
      r := Alloc(1);
      if r.Some? {
        assert InUse(r.value + 4096 * 0) && !old(InUse(r.value + 4096 * 0));
        Free1(r.value);
      }
    }
  }
}
