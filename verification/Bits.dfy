/** Bitwise and, or and exclusive or of machine words, bit by bit on naturals. */
module Bits {
  function And(a: nat, b: nat): nat {
    if a == 0 || b == 0 then 0
    else (if a % 2 == 1 && b % 2 == 1 then 1 else 0) + 2 * And(a / 2, b / 2)
  }

  function Or(a: nat, b: nat): nat {
    if a == 0 then b else if b == 0 then a
    else (if a % 2 == 1 || b % 2 == 1 then 1 else 0) + 2 * Or(a / 2, b / 2)
  }

  function Xor(a: nat, b: nat): nat {
    if a == 0 then b else if b == 0 then a
    else (if a % 2 != b % 2 then 1 else 0) + 2 * Xor(a / 2, b / 2)
  }

  function Pow2(k: nat): (p: nat)
    ensures p > 0
  {
    if k == 0 then 1 else 2 * Pow2(k - 1)
  }

  /** The lowest bit and the rest of each result. */
  lemma AndBit(a: nat, b: nat)
    ensures And(a, b) % 2 == (if a % 2 == 1 && b % 2 == 1 then 1 else 0) && And(a, b) / 2 == And(a / 2, b / 2)
  {}

  lemma OrBit(a: nat, b: nat)
    ensures Or(a, b) % 2 == (if a % 2 == 1 || b % 2 == 1 then 1 else 0) && Or(a, b) / 2 == Or(a / 2, b / 2)
  {}

  lemma {:induction false} AndOr(a: nat, b: nat, m: nat)
    ensures And(Or(a, b), m) == Or(And(a, m), And(b, m))
    decreases a + b
  {
    if a != 0 && b != 0 && m != 0 {
      AndOr(a / 2, b / 2, m / 2);
      OrBit(a, b);
      AndBit(a, m);
      AndBit(b, m);
      OrBit(And(a, m), And(b, m));
      AndBit(Or(a, b), m);
    }
  }

  lemma {:induction false} AndAssoc(a: nat, b: nat, c: nat)
    ensures And(And(a, b), c) == And(a, And(b, c))
    decreases a
  {
    if a != 0 {
      AndAssoc(a / 2, b / 2, c / 2);
      AndBit(a, b);
      AndBit(b, c);
      AndBit(And(a, b), c);
      AndBit(a, And(b, c));
    }
  }

  lemma {:induction false} AndComm(a: nat, b: nat)
    ensures And(a, b) == And(b, a)
    decreases a
  {
    if a != 0 { AndComm(a / 2, b / 2); }
  }

  lemma {:induction false} OrAssoc(a: nat, b: nat, c: nat)
    ensures Or(Or(a, b), c) == Or(a, Or(b, c))
    decreases a
  {
    if a != 0 {
      OrAssoc(a / 2, b / 2, c / 2);
      OrBit(a, b);
      OrBit(b, c);
      OrBit(Or(a, b), c);
      OrBit(a, Or(b, c));
    }
  }

  /** Without a common bit, or is addition. */
  lemma {:induction false} OrSum(a: nat, b: nat)
    requires And(a, b) == 0
    ensures Or(a, b) == a + b
    decreases a
  {
    if a != 0 && b != 0 {
      AndBit(a, b);
      OrSum(a / 2, b / 2);
    }
  }

  lemma {:induction false} AndAtMost(a: nat, b: nat)
    ensures And(a, b) <= a
    decreases a
  {
    if a != 0 && b != 0 { AndAtMost(a / 2, b / 2); }
  }

  /** A mask of low ones is a remainder. */
  lemma {:induction false} AndLow(a: nat, k: nat)
    ensures And(a, Pow2(k) - 1) == a % Pow2(k)
    decreases k
  {
    if k > 0 {
      hide And;
      var n := Pow2(k - 1);
      AndLow(a / 2, k - 1);
      Halves(a, n);
      LowOnes(n);
      AndBit(a, 2 * n - 1);
    }
  }

  /** A mask and its complement in w bits share out the low w bits of a word. */
  lemma {:induction false} AndComplement(a: nat, m: nat, w: nat)
    requires m < Pow2(w)
    ensures And(a, Pow2(w) - 1 - m) + And(a, m) == And(a, Pow2(w) - 1)
    decreases w
  {
    if w > 0 {
      hide And;
      var n := Pow2(w - 1);
      AndComplement(a / 2, m / 2, w - 1);
      LowOnes(n);
      AndBit(a, m);
      AndBit(a, 2 * n - 1);
      AndBit(a, 2 * n - 1 - m);
      assert (2 * n - 1 - m) / 2 == n - 1 - m / 2 && (2 * n - 1 - m) % 2 == 1 - m % 2;
    }
  }

  lemma LowOnes(n: nat)
    requires n > 0
    ensures (2 * n - 1) / 2 == n - 1 && (2 * n - 1) % 2 == 1
  {}

  lemma Halves(a: nat, n: nat)
    requires n > 0
    ensures a % (2 * n) == a % 2 + 2 * (a / 2 % n)
    ensures a / (2 * n) == a / 2 / n
  {
    var q, r := a / 2 / n, a / 2 % n;
    assert a / 2 == n * q + r;
    assert a == 2 * n * q + (2 * r + a % 2);
    Unique(a, 2 * n, q, 2 * r + a % 2);
  }

  /** Quotient and remainder are unique. */
  lemma Unique(a: nat, n: nat, q: nat, r: nat)
    requires n > 0 && a == n * q + r && r < n
    ensures a / n == q && a % n == r
  {
    var q', r' := a / n, a % n;
    assert a == n * q' + r';
    Mono(n, q + 1, q');
    Mono(n, q' + 1, q);
    assert n * (q + 1) == n * q + n && n * (q' + 1) == n * q' + n;
  }

  lemma Mono(n: nat, x: nat, y: nat)
    ensures x <= y ==> n * x <= n * y
  {}

  function Shl(a: nat, k: nat): nat { if k == 0 then a else 2 * Shl(a, k - 1) }

  function Shr(a: nat, k: nat): nat { if k == 0 then a else Shr(a / 2, k - 1) }

  lemma {:induction false} ShlIs(a: nat, k: nat)
    ensures Shl(a, k) == Pow2(k) * a
    decreases k
  {
    if k > 0 { ShlIs(a, k - 1); }
  }

  lemma {:induction false} ShrIs(a: nat, k: nat)
    ensures Shr(a, k) == a / Pow2(k)
    decreases k
  {
    if k > 0 {
      ShrIs(a / 2, k - 1);
      Halves(a, Pow2(k - 1));
    }
  }

  /** A mask shifted up acts on the number shifted down. */
  lemma {:induction false} AndShift(a: nat, m: nat, k: nat)
    ensures And(a, Shl(m, k)) == Shl(And(Shr(a, k), m), k)
    decreases k
  {
    if k > 0 {
      AndShift(a / 2, m, k - 1);
      AndBit(a, Shl(m, k));
      assert Shl(m, k) / 2 == Shl(m, k - 1) && Shl(m, k) % 2 == 0;
    }
  }

  lemma XorDouble(a: nat, n: nat)
    requires n > 0
    ensures Xor(a, 2 * n) == a % 2 + 2 * Xor(a / 2, n)
  {}

  lemma {:induction false} XorShift(a: nat, n: nat, k: nat)
    requires n > 0
    ensures Xor(Shl(a, k), Shl(n, k)) == Shl(Xor(a, n), k) && Shl(n, k) > 0
  {
    if k > 0 {
      XorShift(a, n, k - 1);
      XorDouble(Shl(a, k), Shl(n, k - 1));
    }
  }

  /** Flipping one bit adds or takes away its value. */
  lemma {:induction false} XorPow2(a: nat, k: nat)
    ensures Xor(a, Pow2(k)) == if a / Pow2(k) % 2 == 0 then a + Pow2(k) else a - Pow2(k)
    decreases k
  {
    if k > 0 {
      var n := Pow2(k - 1);
      XorPow2(a / 2, k - 1);
      XorDouble(a, n);
      Halves(a, n);
      assert Pow2(k) == 2 * n;
      hide Xor, Pow2;
    } else if a > 0 {
      assert Xor(a, 1) == (if a % 2 == 1 then 0 else 1) + 2 * Xor(a / 2, 0);
    }
  }
}
