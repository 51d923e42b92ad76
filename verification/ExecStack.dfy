/** The initial user stack that execv_inner of src/sched.rs builds, read back by the
    process-initialization layout of chapter 3 of the System V ABI. */
module ExecStack {
  import opened Frames
  import opened ByteStrings

  const SIZE: nat := 8192
  const BASE: nat := 8 * 0x4000_0000
  const WORD: nat := 0x1_0000_0000_0000_0000

  predicate AllNulFree(xs: seq<Bytes>) {
    forall i :: 0 <= i < |xs| ==> NulFree(xs[i])
  }

  // ------------------------------------------------------------- 64-bit words

  lemma WordSize()
    ensures Pow(8) == WORD
  {
    assert Pow(4) == 0x1_0000_0000;
    assert Pow(6) == 0x1_0000_0000_0000;
  }

  // -------------------------------------------------------------- reading back

  function WordAt(mem: Bytes, off: nat): int {
    if off + 8 <= |mem| then Value(mem[off..off + 8]) else 0
  }

  /** The words from off up to the null word. */
  function Pointers(mem: Bytes, off: nat): seq<int>
    decreases |mem| - off
  {
    if off >= |mem| || WordAt(mem, off) == 0 then [] else [WordAt(mem, off)] + Pointers(mem, off + 8)
  }

  /** The string at an address. */
  function CStrAt(mem: Bytes, p: int): Bytes {
    if p < BASE then [] else CStr(mem, p - BASE)
  }

  function Strings(mem: Bytes, ptrs: seq<int>): (xs: seq<Bytes>)
    ensures |xs| == |ptrs|
    ensures forall i :: 0 <= i < |ptrs| ==> xs[i] == CStrAt(mem, ptrs[i])
  {
    if ptrs == [] then [] else Strings(mem, ptrs[..|ptrs| - 1]) + [CStrAt(mem, ptrs[|ptrs| - 1])]
  }

  /** The auxiliary vector up to and without its AT_NULL entry. */
  function Auxv(mem: Bytes, off: nat): seq<(int, int)>
    decreases |mem| - off
  {
    if off >= |mem| || WordAt(mem, off) == 0 then [] else [(WordAt(mem, off), WordAt(mem, off + 8))] + Auxv(mem, off + 16)
  }

  datatype Image = Image(argc: int, argv: seq<Bytes>, envp: seq<Bytes>, auxv: seq<(int, int)>)

  /** What a process finds at its initial stack pointer. */
  function Decode(mem: Bytes, off: nat): Image {
    var a := Pointers(mem, off + 8);
    var e := Pointers(mem, off + 8 * (|a| + 2));
    Image(WordAt(mem, off), Strings(mem, a), Strings(mem, e), Auxv(mem, off + 8 * (|a| + |e| + 3)))
  }

  // ------------------------------------------------------------------ the sizes

  /** Both string loops go from the last string to the first and stop at an empty
      one: where the loop stops when it has come down to j. */
  function Stop(xs: seq<Bytes>, j: nat): (k: nat)
    requires j <= |xs|
    ensures k <= j
  {
    if j == 0 || xs[j - 1] == [] then j else Stop(xs, j - 1)
  }

  /** The strings after the last empty one. */
  function Tail(xs: seq<Bytes>): seq<Bytes> {
    xs[Stop(xs, |xs|)..]
  }

  lemma {:induction false} StopSolid(xs: seq<Bytes>, j: nat)
    requires j <= |xs|
    ensures forall i :: Stop(xs, j) <= i < j ==> xs[i] != []
    ensures Stop(xs, j) > 0 ==> xs[Stop(xs, j) - 1] == []
    decreases j
  {
    if j > 0 && xs[j - 1] != [] {
      StopSolid(xs, j - 1);
    }
  }

  /** Nothing is dropped exactly when no string is empty. */
  lemma TailWhole(xs: seq<Bytes>)
    ensures Tail(xs) == xs <==> forall i :: 0 <= i < |xs| ==> xs[i] != []
  {
    StopSolid(xs, |xs|);
  }

  /** Bytes taken by the strings from j on and their terminators. */
  function Room(xs: seq<Bytes>, j: nat): nat
    decreases |xs| - j
  {
    if j >= |xs| then 0 else |xs[j]| + 1 + Room(xs, j + 1)
  }

  lemma {:induction false} RoomMono(xs: seq<Bytes>, j: nat, k: nat)
    requires j <= k
    ensures Room(xs, k) <= Room(xs, j)
    decreases k - j
  {
    if j < k {
      RoomMono(xs, j + 1, k);
    }
  }

  // ---------------------------------------------------------------- the strings

  /** A terminated copy of str at address p, inside [lo, hi). */
  ghost predicate Placed(mem: Bytes, p: int, str: Bytes, lo: nat, hi: nat) {
    && BASE + lo <= p && p - BASE + |str| < hi <= |mem|
    && mem[p - BASE..p - BASE + |str|] == str && mem[p - BASE + |str|] == 0
  }

  /** The pointers pushed for the strings of xs from j on, last string first. */
  ghost predicate AllPlaced(mem: Bytes, s: seq<int>, xs: seq<Bytes>, j: nat, lo: nat, hi: nat) {
    j <= |xs| && |s| == |xs| - j && forall k :: 0 <= k < |s| ==> Placed(mem, s[k], xs[|xs| - 1 - k], lo, hi)
  }

  /** Of two pushed pointers the later one is lower, its string and terminator ending
      below the other. */
  ghost predicate Descending(s: seq<int>, xs: seq<Bytes>) {
    |s| <= |xs| && forall k, l :: 0 <= k < l < |s| ==> s[l] + |xs[|xs| - 1 - l]| < s[k]
  }

  lemma PlacedSame(mem: Bytes, mem': Bytes, p: int, str: Bytes, lo: nat, hi: nat, lo': nat, hi': nat)
    requires Placed(mem, p, str, lo, hi) && |mem'| == |mem| && lo' <= lo && hi <= hi' <= |mem|
    requires forall k :: lo <= k < hi ==> mem'[k] == mem[k]
    ensures Placed(mem', p, str, lo', hi')
  {
    assert mem'[p - BASE..p - BASE + |str|] == mem[p - BASE..p - BASE + |str|];
  }

  lemma AllPlacedSame(mem: Bytes, mem': Bytes, s: seq<int>, xs: seq<Bytes>, j: nat, lo: nat, hi: nat, lo': nat)
    requires AllPlaced(mem, s, xs, j, lo, hi) && |mem'| == |mem| && lo' <= lo && hi <= |mem|
    requires forall k :: lo <= k < hi ==> mem'[k] == mem[k]
    ensures AllPlaced(mem', s, xs, j, lo', hi)
  {
    hide Placed;
    forall k | 0 <= k < |s|
      ensures Placed(mem', s[k], xs[|xs| - 1 - k], lo', hi)
    {
      PlacedSame(mem, mem', s[k], xs[|xs| - 1 - k], lo, hi, lo', hi);
    }
  }

  lemma AllPlacedAdd(mem: Bytes, mem': Bytes, s: seq<int>, xs: seq<Bytes>, j: nat, w: nat, top: nat)
    requires 0 < j <= |xs| && |mem'| == |mem| && w + |xs[j - 1]| + 1 <= top <= |mem|
    requires AllPlaced(mem, s, xs, j, w + |xs[j - 1]| + 1, top)
    requires Placed(mem', BASE + w, xs[j - 1], w, w + |xs[j - 1]| + 1)
    requires forall k :: w + |xs[j - 1]| + 1 <= k < top ==> mem'[k] == mem[k]
    requires Descending(s, xs)
    ensures AllPlaced(mem', s + [BASE + w], xs, j - 1, w, top) && Descending(s + [BASE + w], xs)
  {
    assert forall k :: 0 <= k < |s| ==> Placed(mem, s[k], xs[|xs| - 1 - k], w + |xs[j - 1]| + 1, top) && s[k] > BASE + w + |xs[j - 1]|;
    AllPlacedSame(mem, mem', s, xs, j, w + |xs[j - 1]| + 1, top, w);
    PlacedSame(mem', mem', BASE + w, xs[j - 1], w, w + |xs[j - 1]| + 1, w, top);
    hide Placed;
  }

  method PutString(mem: array<int>, str: Bytes, w: nat)
    requires w + |str| + 1 <= mem.Length == SIZE
    modifies mem
    ensures Placed(mem[..], BASE + w, str, w, w + |str| + 1)
    ensures forall k :: 0 <= k < SIZE && !(w <= k <= w + |str|) ==> mem[k] == old(mem[k])
  {
    mem[w + |str|] := 0;
    forall k | 0 <= k < |str| {
      mem[w + k] := str[k];
    }
    assert mem[..][w..w + |str|] == str;
  }

  /** The argv or envp loop. It fails exactly when the strings do not fit below top,
      and otherwise places each string after the last empty one. */
  method PutStrings(mem: array<int>, xs: seq<Bytes>, top: nat) returns (ok: bool, w: nat, s: seq<int>)
    requires top <= mem.Length == SIZE
    modifies mem
    ensures ok <==> Room(xs, Stop(xs, |xs|)) <= top
    ensures ok ==> w == top - Room(xs, Stop(xs, |xs|)) && AllPlaced(mem[..], s, xs, Stop(xs, |xs|), w, top) && Descending(s, xs)
    ensures forall k :: top <= k < SIZE ==> mem[k] == old(mem[k])
  {
    w, s := top, [];
    var j := |xs|;
    assert AllPlaced(mem[..], s, xs, j, w, top);
    assert Descending(s, xs);
    hide Placed, AllPlaced, Descending;
    while j > 0 && |xs[j - 1]| != 0
      invariant 0 <= j <= |xs| && Stop(xs, j) == Stop(xs, |xs|)
      invariant w + Room(xs, j) == top
      invariant AllPlaced(mem[..], s, xs, j, w, top) && Descending(s, xs)
      invariant forall k :: top <= k < SIZE ==> mem[k] == old(mem[k])
    {
      if |xs[j - 1]| + 1 > w {
        RoomMono(xs, Stop(xs, j), j - 1);
        return false, w, s;
      }
      w := w - 1 - |xs[j - 1]|;
      ghost var was: Bytes := mem[..];
      PutString(mem, xs[j - 1], w);
      AllPlacedAdd(was, mem[..], s, xs, j, w, top);
      s := s + [BASE + w];
      j := j - 1;
    }
    return true, w, s;
  }

  // ------------------------------------------------------------------ the words

  ghost predicate WordsAt(mem: Bytes, off: nat, ws: seq<int>) {
    off + 8 * |ws| <= |mem| && forall k :: 0 <= k < |ws| ==> WordAt(mem, off + 8 * k) == ws[k]
  }

  method PutWord(mem: array<int>, off: nat, v: nat)
    requires off + 8 <= mem.Length == SIZE && v < WORD
    modifies mem
    ensures WordAt(mem[..], off) == v
    ensures forall k :: 0 <= k < SIZE && !(off <= k < off + 8) ==> mem[k] == old(mem[k])
  {
    var b := Little(v, 8);
    forall k | 0 <= k < 8 {
      mem[off + k] := b[k];
    }
    assert mem[..][off..off + 8] == b;
    WordSize();
    WordRoundTrip(v, 8);
  }

  lemma WordsSame(mem: Bytes, mem': Bytes, off: nat, ws: seq<int>)
    requires WordsAt(mem, off, ws) && |mem'| == |mem|
    requires forall k :: off <= k < off + 8 * |ws| ==> mem'[k] == mem[k]
    ensures WordsAt(mem', off, ws)
  {
    forall k | 0 <= k < |ws|
      ensures WordAt(mem', off + 8 * k) == ws[k]
    {
      assert mem'[off + 8 * k..off + 8 * k + 8] == mem[off + 8 * k..off + 8 * k + 8];
    }
  }

  lemma WordsJoin(mem: Bytes, off: nat, a: seq<int>, b: seq<int>)
    ensures WordsAt(mem, off, a + b) <==> WordsAt(mem, off, a) && WordsAt(mem, off + 8 * |a|, b)
  {
    if WordsAt(mem, off, a + b) {
      assert forall k :: 0 <= k < |a| ==> (a + b)[k] == a[k];
      assert forall k :: 0 <= k < |b| ==> (a + b)[|a| + k] == b[k] && off + 8 * (|a| + k) == off + 8 * |a| + 8 * k;
    }
    if WordsAt(mem, off, a) && WordsAt(mem, off + 8 * |a|, b) {
      forall k | 0 <= k < |a + b|
        ensures WordAt(mem, off + 8 * k) == (a + b)[k]
      {
        if k >= |a| { assert off + 8 * k == off + 8 * |a| + 8 * (k - |a|); }
      }
    }
  }

  lemma FirstWord(mem: Bytes, off: nat, ws: seq<int>)
    requires WordsAt(mem, off, ws) && ws != []
    ensures WordAt(mem, off) == ws[0]
  {
    var k := 0;
    assert WordAt(mem, off + 8 * k) == ws[k];
  }

  /** A null-terminated pointer table reads back as itself. */
  lemma {:induction false} PointersRead(mem: Bytes, off: nat, ps: seq<int>)
    requires WordsAt(mem, off, ps + [0]) && 0 !in ps
    ensures Pointers(mem, off) == ps
    decreases ps
  {
    if ps == [] {
      FirstWord(mem, off, ps + [0]);
    } else {
      assert ps + [0] == [ps[0]] + (ps[1..] + [0]);
      WordsJoin(mem, off, [ps[0]], ps[1..] + [0]);
      FirstWord(mem, off, [ps[0]]);
      PointersRead(mem, off + 8, ps[1..]);
    }
  }

  /** Words leave the stack of pushed pointers in reverse. */
  function Popped(s: seq<int>): (r: seq<int>)
    ensures |r| == |s| && forall i :: 0 <= i < |s| ==> r[i] == s[|s| - 1 - i]
  {
    if s == [] then [] else [s[|s| - 1]] + Popped(s[..|s| - 1])
  }

  /** The argument block below top: argc, then the pushed words popped one by one. */
  method PutTable(mem: array<int>, argc: nat, s: seq<int>, off: nat)
    requires mem.Length == SIZE && off + 8 * (|s| + 1) <= SIZE && argc < WORD && forall i :: 0 <= i < |s| ==> 0 <= s[i] < WORD
    modifies mem
    ensures WordsAt(mem[..], off, [argc] + Popped(s))
    ensures forall k :: off + 8 * (|s| + 1) <= k < SIZE ==> mem[k] == old(mem[k])
  {
    PutWord(mem, off, argc);
    var ws := [argc] + Popped(s);
    assert ws[..1] == [argc];
    var i := 1;
    while i <= |s|
      invariant 1 <= i <= |s| + 1
      invariant WordsAt(mem[..], off, ws[..i])
      invariant forall k :: off + 8 * (|s| + 1) <= k < SIZE ==> mem[k] == old(mem[k])
    {
      ghost var was: Bytes := mem[..];
      PutWord(mem, off + 8 * i, s[|s| - i]);
      WordsSame(was, mem[..], off, ws[..i]);
      assert ws[i] == s[|s| - i] && ws[..i + 1] == ws[..i] + [ws[i]];
      WordsAdd(mem[..], off, ws[..i], ws[i]);
      i := i + 1;
    }
    assert ws[..i] == ws;
  }

  lemma WordsAdd(mem: Bytes, off: nat, ws: seq<int>, v: int)
    requires WordsAt(mem, off, ws) && off + 8 * (|ws| + 1) <= |mem| && WordAt(mem, off + 8 * |ws|) == v
    ensures WordsAt(mem, off, ws + [v])
  {
    forall k | 0 <= k < |ws| + 1
      ensures WordAt(mem, off + 8 * k) == (ws + [v])[k]
    {
      if k < |ws| { assert WordAt(mem, off + 8 * k) == ws[k]; }
    }
  }

  /** The two auxiliary entries, AT_RANDOM below AT_NULL. */
  method PutAux(mem: array<int>, w: nat, random: nat) returns (ok: bool)
    requires mem.Length == SIZE && w <= SIZE && random < WORD
    modifies mem
    ensures ok <==> w >= 32
    ensures ok ==> WordsAt(mem[..], w - 32, [25, random, 0, 0])
    ensures forall k :: w <= k < SIZE ==> mem[k] == old(mem[k])
  {
    if w < 16 {
      return false;
    }
    PutWord(mem, w - 16, 0);
    ghost var m0: Bytes := mem[..];
    PutWord(mem, w - 8, 0);
    WordSame(m0, mem[..], w - 16);
    if w < 32 {
      return false;
    }
    ghost var m1: Bytes := mem[..];
    PutWord(mem, w - 32, 25);
    ghost var m2: Bytes := mem[..];
    PutWord(mem, w - 24, random);
    WordSame(m1, mem[..], w - 16);
    WordSame(m1, mem[..], w - 8);
    WordSame(m2, mem[..], w - 32);
    hide WordAt;
    assert w - 32 + 8 * 0 == w - 32 && w - 32 + 8 * 1 == w - 24 && w - 32 + 8 * 2 == w - 16 && w - 32 + 8 * 3 == w - 8;
    return true;
  }

  lemma WordSame(mem: Bytes, mem': Bytes, off: nat)
    requires off + 8 <= |mem| == |mem'| && forall k :: off <= k < off + 8 ==> mem'[k] == mem[k]
    ensures WordAt(mem', off) == WordAt(mem, off)
  {
    assert mem'[off..off + 8] == mem[off..off + 8];
  }

  // ------------------------------------------------------------------- the whole

  function AlignDown(n: nat): (r: nat)
    ensures r <= n < r + 8 && r % 8 == 0
  {
    n / 8 * 8
  }

  /** Bytes of the strings that are kept. */
  function Kept(xs: seq<Bytes>): nat {
    Room(xs, Stop(xs, |xs|))
  }

  /** The room left for words below the strings. */
  function Below(argv: seq<Bytes>, envp: seq<Bytes>): nat {
    if Kept(argv) + Kept(envp) <= SIZE - 16 then AlignDown(SIZE - 16 - Kept(argv) - Kept(envp)) else 0
  }

  function Words(argv: seq<Bytes>, envp: seq<Bytes>): nat {
    |Tail(argv)| + |Tail(envp)| + 3
  }

  /** Everything fits into the two stack pages. */
  predicate Fits(argv: seq<Bytes>, envp: seq<Bytes>) {
    32 + 8 * Words(argv, envp) <= Below(argv, envp)
  }

  lemma StringRead(mem: Bytes, p: int, str: Bytes, lo: nat, hi: nat)
    requires Placed(mem, p, str, lo, hi) && NulFree(str)
    ensures BASE <= p < BASE + |mem| && CStrAt(mem, p) == str
  {
    CStrRead(mem, p - BASE, str);
  }

  lemma StringsRead(mem: Bytes, s: seq<int>, xs: seq<Bytes>, j: nat, lo: nat, hi: nat)
    requires AllPlaced(mem, s, xs, j, lo, hi) && AllNulFree(xs)
    ensures Strings(mem, Popped(s)) == xs[j..] && InStack(s, |mem|) && InStack(Popped(s), |mem|)
  {
    hide Placed, CStrAt, NulFree, Popped, Strings;
    forall k | 0 <= k < |s|
      ensures BASE <= s[k] < BASE + |mem| && CStrAt(mem, s[k]) == xs[|xs| - 1 - k]
    {
      StringRead(mem, s[k], xs[|xs| - 1 - k], lo, hi);
    }
    forall i | 0 <= i < |s|
      ensures Strings(mem, Popped(s))[i] == xs[j..][i]
    {
      assert Popped(s)[i] == s[|s| - 1 - i];
    }
  }

  ghost predicate InStack(s: seq<int>, n: nat) {
    forall i :: 0 <= i < |s| ==> BASE <= s[i] < BASE + n
  }

  lemma AuxRead(mem: Bytes, off: nat, random: nat)
    requires WordsAt(mem, off, [25, random, 0, 0])
    ensures Auxv(mem, off) == [(25, random)]
  {
    var ws := [25, random, 0, 0];
    assert WordAt(mem, off + 8 * 0) == ws[0] && WordAt(mem, off + 8 * 1) == ws[1] && WordAt(mem, off + 8 * 2) == ws[2];
    hide WordAt;
    assert Auxv(mem, off + 16) == [];
  }

  lemma PoppedTable(sa: seq<int>, se: seq<int>)
    ensures Popped([0] + se + [0] + sa) == (Popped(sa) + [0]) + (Popped(se) + [0])
  {
    hide Popped;
    PoppedJoin([0] + se + [0], sa);
    PoppedJoin([0] + se, [0]);
    PoppedJoin([0], se);
    assert Popped([0]) == [0];
    assert Popped(sa) + ([0] + (Popped(se) + [0])) == (Popped(sa) + [0]) + (Popped(se) + [0]);
  }

  lemma PoppedJoin(a: seq<int>, b: seq<int>)
    ensures Popped(a + b) == Popped(b) + Popped(a)
  {
    hide Popped;
  }

  /** argc, the two pointer tables and their null words, one after the other. */
  lemma TableParts(mem: Bytes, off: nat, argc: nat, pa: seq<int>, pe: seq<int>)
    requires WordsAt(mem, off, [argc] + ((pa + [0]) + (pe + [0])))
    ensures WordAt(mem, off) == argc && WordsAt(mem, off + 8, pa + [0]) && WordsAt(mem, off + 8 * (|pa| + 2), pe + [0])
  {
    hide WordsAt, WordAt;
    WordsJoin(mem, off, [argc], (pa + [0]) + (pe + [0]));
    WordsJoin(mem, off + 8, pa + [0], pe + [0]);
    FirstWord(mem, off, [argc]);
  }

  /** A process reads the stack back as it was meant. */
  lemma DecodeBuilt(mem: Bytes, off: nat, argc: nat, pa: seq<int>, pe: seq<int>, random: nat)
    requires WordAt(mem, off) == argc && 0 !in pa && 0 !in pe
    requires WordsAt(mem, off + 8, pa + [0]) && WordsAt(mem, off + 8 * (|pa| + 2), pe + [0])
    requires WordsAt(mem, off + 8 * (|pa| + |pe| + 3), [25, random, 0, 0])
    ensures Decode(mem, off) == Image(argc, Strings(mem, pa), Strings(mem, pe), [(25, random)])
  {
    hide WordsAt, WordAt, Strings, Auxv, Pointers;
    PointersRead(mem, off + 8, pa);
    PointersRead(mem, off + 8 * (|pa| + 2), pe);
    AuxRead(mem, off + 8 * (|pa| + |pe| + 3), random);
  }

  lemma NonNull(s: seq<int>, n: nat)
    requires InStack(s, n)
    ensures 0 !in s
  {}

  lemma TableWords(sa: seq<int>, se: seq<int>)
    requires InStack(sa, SIZE) && InStack(se, SIZE)
    ensures forall i :: 0 <= i < |[0] + se + [0] + sa| ==> 0 <= ([0] + se + [0] + sa)[i] < WORD
  {
  }

  /** Terminated copies of xs at the addresses ps, one above the other inside [lo, hi). */
  ghost predicate Area(mem: Bytes, ps: seq<int>, xs: seq<Bytes>, lo: nat, hi: nat) {
    && |ps| == |xs| && (forall i :: 0 <= i < |ps| ==> Placed(mem, ps[i], xs[i], lo, hi))
    && forall i, j :: 0 <= i < j < |ps| ==> ps[i] + |xs[i]| < ps[j]
  }

  /** The areas a process finds from off up: the argument block ends at the auxiliary
      vector, which ends at or below w2; argv's strings lie in [w2, w1) and envp's
      in [w1, SIZE - 16), each terminated, no two overlapping. */
  ghost predicate Areas(mem: Bytes, off: nat, argv: seq<Bytes>, envp: seq<Bytes>, w2: nat, w1: nat) {
    var a := Pointers(mem, off + 8);
    var e := Pointers(mem, off + 8 * (|a| + 2));
    && Area(mem, a, argv, w2, w1) && Area(mem, e, envp, w1, SIZE - 16)
    && off + 8 * (|a| + |e| + 3) + 32 <= w2
  }

  lemma AreaOf(mem: Bytes, s: seq<int>, xs: seq<Bytes>, j: nat, lo: nat, hi: nat)
    requires AllPlaced(mem, s, xs, j, lo, hi) && Descending(s, xs)
    ensures Area(mem, Popped(s), xs[j..], lo, hi)
  {
    hide Placed, Popped;
    var ps := Popped(s);
    forall i | 0 <= i < |ps|
      ensures ps[i] == s[|s| - 1 - i] && xs[j..][i] == xs[|xs| - 1 - (|s| - 1 - i)]
    {}
  }

  /** Below the placed strings and the auxiliary vector, the argument block. */
  method PutBlock(mem: array<int>, argv: seq<Bytes>, sa: seq<int>, se: seq<int>, aux: nat,
                  ghost envp: seq<Bytes>, ghost ja: nat, ghost je: nat, ghost w2: nat, ghost w1: nat, ghost random: nat)
    requires mem.Length == SIZE && |argv| < WORD && AllNulFree(argv) && AllNulFree(envp)
    requires AllPlaced(mem[..], sa, argv, ja, w2, w1) && AllPlaced(mem[..], se, envp, je, w1, SIZE - 16)
    requires w2 <= w1 <= SIZE - 16 && 8 * (|sa| + |se| + 3) <= aux <= w2
    requires WordsAt(mem[..], aux, [25, random, 0, 0]) && Descending(sa, argv) && Descending(se, envp) && aux + 32 <= w2
    modifies mem
    ensures forall k :: aux <= k < SIZE ==> mem[k] == old(mem[k])
    ensures Areas(mem[..], aux - 8 * (|sa| + |se| + 3), argv[ja..], envp[je..], w2, w1)
    ensures Decode(mem[..], aux - 8 * (|sa| + |se| + 3)) == Image(|argv|, argv[ja..], envp[je..], [(25, random)])
  {
    hide Placed, AllNulFree, Decode, Strings, Popped;
    ghost var was: Bytes := mem[..];
    StringsRead(was, sa, argv, ja, w2, w1);
    StringsRead(was, se, envp, je, w1, SIZE - 16);
    TableWords(sa, se);
    hide AllPlaced, Descending, Area, InStack, WordsAt, Pointers;
    var s := [0] + se + [0] + sa;
    var off := aux - 8 * (|s| + 1);
    PutTable(mem, |argv|, s, off);
    WordsSame(was, mem[..], aux, [25, random, 0, 0]);
    AllPlacedSame(was, mem[..], sa, argv, ja, w2, w1, w2);
    AllPlacedSame(was, mem[..], se, envp, je, w1, SIZE - 16, w1);
    StringsRead(mem[..], sa, argv, ja, w2, w1);
    StringsRead(mem[..], se, envp, je, w1, SIZE - 16);
    PoppedTable(sa, se);
    TableParts(mem[..], off, |argv|, Popped(sa), Popped(se));
    NonNull(Popped(sa), SIZE);
    NonNull(Popped(se), SIZE);
    AreaOf(mem[..], sa, argv, ja, w2, w1);
    AreaOf(mem[..], se, envp, je, w1, SIZE - 16);
    PointersRead(mem[..], off + 8, Popped(sa));
    PointersRead(mem[..], off + 8 * (|sa| + 2), Popped(se));
    DecodeBuilt(mem[..], off, |argv|, Popped(sa), Popped(se), random);
  }

  /** Builds the stack. It succeeds exactly when everything fits, and then a process
      starting at sp finds argc, the strings after the last empty one of argv and
      envp, in order, and the auxiliary vector. The areas do not overlap, and the 16
      bytes that AT_RANDOM points to keep their zeros. */
  method BuildStack(mem: array<int>, argv: seq<Bytes>, envp: seq<Bytes>) returns (sp: Option<nat>)
    requires mem.Length == 8192 && AllNulFree(argv) && AllNulFree(envp) && |argv| < 0x1_0000_0000_0000_0000
    modifies mem
    ensures sp.Some? <==> Fits(argv, envp)
    ensures sp.Some? ==> sp.value == BASE + Below(argv, envp) - 32 - 8 * Words(argv, envp)
    ensures sp.Some? ==> 0x2_0000_0000 == BASE <= sp.value < 0x2_0000_2000 - 16
    ensures sp.Some? ==> Decode(mem[..], sp.value - BASE) == Image(|argv|, Tail(argv), Tail(envp), [(25, 0x2_0000_2000 - 16)])
    ensures sp.Some? ==> Areas(mem[..], sp.value - BASE, Tail(argv), Tail(envp), SIZE - 16 - Kept(argv) - Kept(envp), SIZE - 16 - Kept(envp))
    ensures forall k :: SIZE - 16 <= k < SIZE ==> mem[k] == 0
  {
    hide Placed, AllNulFree, Room, Stop, Decode, WordsAt, AlignDown, Areas, Descending;
    forall k | 0 <= k < SIZE {
      mem[k] := 0;
    }
    var ok, w1, se := PutStrings(mem, envp, SIZE - 16);
    if !ok {
      return None;
    }
    ghost var je, ja, m1: Bytes := Stop(envp, |envp|), Stop(argv, |argv|), mem[..];
    var ok2, w2, sa := PutStrings(mem, argv, w1);
    if !ok2 {
      return None;
    }
    AllPlacedSame(m1, mem[..], se, envp, je, w1, SIZE - 16, w1);
    assert Words(argv, envp) == |sa| + |se| + 3;
    hide AllPlaced;
    var w := AlignDown(w2);
    ghost var m2: Bytes := mem[..];
    var ok3 := PutAux(mem, w, BASE + SIZE - 16);
    if !ok3 || w - 32 < 8 * (|sa| + |se| + 3) {
      return None;
    }
    AllPlacedSame(m2, mem[..], sa, argv, ja, w2, w1, w2);
    AllPlacedSame(m2, mem[..], se, envp, je, w1, SIZE - 16, w1);
    PutBlock(mem, argv, sa, se, w - 32, envp, ja, je, w2, w1, BASE + SIZE - 16);
    return Some(BASE + w - 32 - 8 * (|sa| + |se| + 3));
  }

  /** The image is the caller's argv and envp, and argc counts the argument
      pointers, exactly when no string is empty. */
  lemma FaithfulIff(argv: seq<Bytes>, envp: seq<Bytes>, auxv: seq<(int, int)>)
    ensures Image(|argv|, Tail(argv), Tail(envp), auxv) == Image(|argv|, argv, envp, auxv) <==>
            (forall i :: 0 <= i < |argv| ==> argv[i] != []) && (forall i :: 0 <= i < |envp| ==> envp[i] != [])
    ensures |Tail(argv)| == |argv| <==> forall i :: 0 <= i < |argv| ==> argv[i] != []
  {
    TailWhole(argv);
    TailWhole(envp);
  }

  /** With an empty argument in the middle, argc counts two pointers too many. */
  lemma EmptyArgumentLost(a: Bytes, b: Bytes)
    requires b != []
    ensures Tail([a, [], b]) == [b]
  {
    assert Stop([a, [], b], 3) == Stop([a, [], b], 2) == 2;
  }

  /** The lengths of the strings together. */
  function Letters(xs: seq<Bytes>): nat {
    if xs == [] then 0 else |xs[0]| + Letters(xs[1..])
  }

  lemma {:induction false} RoomIs(xs: seq<Bytes>, j: nat)
    requires j <= |xs|
    ensures Room(xs, j) == Letters(xs[j..]) + |xs| - j
    decreases |xs| - j
  {
    if j < |xs| {
      RoomIs(xs, j + 1);
      assert xs[j..][1..] == xs[j + 1..];
    }
  }

  /** The ABI asks for a stack pointer aligned to 16. The code aligns to 8; it meets
      the ABI exactly when the n strings kept and the words that they and their
      terminators would fill add up to an odd number. */
  lemma AlignedIff(argv: seq<Bytes>, envp: seq<Bytes>)
    requires Fits(argv, envp)
    ensures var sp := BASE + Below(argv, envp) - 32 - 8 * Words(argv, envp);
            var n := |Tail(argv)| + |Tail(envp)|;
            sp % 8 == 0 && (sp % 16 == 0 <==> ((Letters(Tail(argv)) + Letters(Tail(envp)) + n + 7) / 8 + n) % 2 == 1)
  {
    RoomIs(argv, Stop(argv, |argv|));
    RoomIs(envp, Stop(envp, |envp|));
    var n, k := Below(argv, envp), Words(argv, envp);
    var c, kept := |Tail(argv)| + |Tail(envp)|, Kept(argv) + Kept(envp);
    assert kept == Letters(Tail(argv)) + Letters(Tail(envp)) + c && k == c + 3;
    assert kept <= SIZE - 16 && n == (SIZE - 16 - kept) / 8 * 8;
    hide Below, Words, Kept, Tail, Letters;
    var m := n / 8;
    assert n == 8 * m && m == 1022 - (kept + 7) / 8;
    assert BASE % 16 == 0;
    AlignArith(BASE, m, k);
    assert (m + k) % 2 == 0 <==> ((kept + 7) / 8 + c) % 2 == 1;
  }

  lemma AlignArith(base: nat, m: nat, k: nat)
    requires base % 16 == 0 && 4 + k <= m
    ensures var sp := base + 8 * m - 32 - 8 * k;
            sp % 8 == 0 && (sp % 16 == 0 <==> (m + k) % 2 == 0)
  {
    var h := base / 16;
    var x := 2 * h + m - 4 - k;
    assert base == 16 * h;
    assert base + 8 * m - 32 - 8 * k == 8 * x;
    Eights(x);
    Parity(x, m + k, h - 2 - k);
  }

  lemma Eights(x: nat)
    ensures (8 * x) % 8 == 0 && ((8 * x) % 16 == 0 <==> x % 2 == 0)
  {
    var y := x / 2;
    if x % 2 == 0 {
      assert x == 2 * y && 8 * x == 16 * y;
    } else {
      assert x == 2 * y + 1 && 8 * x == 16 * y + 8;
    }
  }

  lemma Parity(x: int, y: int, d: int)
    requires x == y + 2 * d
    ensures x % 2 == y % 2
  {}

  /** One short argument and no environment already leaves it misaligned. */
  lemma MisalignedExample()
    ensures Fits([[97]], []) && (BASE + Below([[97]], []) - 32 - 8 * Words([[97]], [])) % 16 == 8
  {
    var a: seq<Bytes>, e: seq<Bytes> := [[97]], [];
    assert Stop(a, 1) == Stop(a, 0) == 0;
    assert Room(a, 0) == 2 + Room(a, 1);
    assert Kept(a) == 2 && Kept(e) == 0;
    assert Below(a, e) == 8168;
  }
}
