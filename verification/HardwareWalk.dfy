/** The translation table walk as the processor does it (Arm ARM, VMSAv8-64, 4 KB granule,
    48-bit addresses), on the words the kernel wrote: no function of the kernel's own
    page-table code takes part in it. */
module HardwareWalk {
  import opened Frames
  import Bits
  import D = Descriptors
  import P = PageTable

  /** The descriptor at index i of the table at address t; memory that holds no table
      reads as an invalid descriptor. */
  function Fetch(words: map<nat, seq<nat>>, t: nat, i: nat): nat {
    if t in words && i < |words[t]| then words[t][i] else 0
  }

  /** Bits 47:12 of a descriptor, the address of a table or of a page. */
  function Output(w: nat): nat { w / 0x1000 % 0x10_0000_0000 * 0x1000 }

  /** The page descriptor that the walk from the table at address root ends at; None is a
      translation fault. Bits 1:0 of every descriptor on the way are 3. */
  function Walk(words: map<nat, seq<nat>>, root: nat, va: nat): Option<nat> {
    var w0 := Fetch(words, root, va / 0x80_0000_0000 % 512);
    if w0 % 4 != 3 then None
    else
      var w1 := Fetch(words, Output(w0), va / 0x4000_0000 % 512);
      if w1 % 4 != 3 then None
      else
        var w2 := Fetch(words, Output(w1), va / 0x20_0000 % 512);
        if w2 % 4 != 3 then None
        else
          var w3 := Fetch(words, Output(w2), va / 0x1000 % 512);
          if w3 % 4 != 3 then None else Some(w3)
  }

  /** The bit of weight d. */
  function Bit(w: nat, d: nat): nat
    requires d > 0
  {
    w / d % 2
  }

  /** Bit 10 is the access flag: without it every access faults. */
  predicate Accessible(w: nat) { Bit(w, 0x400) == 1 }

  /** Bit 6, AP[1], opens the page to user code; bit 7, AP[2], makes it read-only; bit 54,
      UXN, keeps user code from being run on it; bit 53, PXN, the kernel, which never
      runs a page that user code may write. */
  predicate UserReads(w: nat) { Accessible(w) && Bit(w, 0x40) == 1 }
  predicate UserWrites(w: nat) { UserReads(w) && Bit(w, 0x80) == 0 }
  predicate UserRuns(w: nat) { UserReads(w) && Bit(w, 0x40_0000_0000_0000) == 0 }
  predicate KernelRuns(w: nat) { Accessible(w) && Bit(w, 0x20_0000_0000_0000) == 0 && !UserWrites(w) }

  // ------------------------------------------- what the kernel's tables mean to it

  /** A word apart from its output address has the word's other bits. */
  lemma WordBits(w: nat)
    ensures var e := P.EntryOf(w);
      && e.frame == Output(w) && w % 4 == e.attrs % 4
      && Bit(w, 0x40) == Bit(e.attrs, 0x40) && Bit(w, 0x80) == Bit(e.attrs, 0x80) && Bit(w, 0x400) == Bit(e.attrs, 0x400)
      && Bit(w, 0x20_0000_0000_0000) == Bit(e.attrs, 0x20_0000_0000_0000)
      && Bit(w, 0x40_0000_0000_0000) == Bit(e.attrs, 0x40_0000_0000_0000)
  {
    hide Bit;
    var low, mid, high := w % 0x1000, w / 0x1000 % 0x10_0000_0000, w / 0x1_0000_0000_0000;
    WordParts(w);
    LowBits(low, mid + 0x10_0000_0000 * high);
    LowBits(low, 0x10_0000_0000 * high);
    HighBits(low + 0x1000 * mid, high);
    HighBits(low, high);
  }

  lemma WordParts(w: nat)
    ensures var low, mid, high := w % 0x1000, w / 0x1000 % 0x10_0000_0000, w / 0x1_0000_0000_0000;
      && w == low + 0x1000 * mid + 0x1_0000_0000_0000 * high
      && P.EntryOf(w).frame == Output(w) && P.EntryOf(w).attrs == low + 0x1_0000_0000_0000 * high
  {
    D.MaskIs(w);
    hide Bits.And;
    assert w / 0x1000 / 0x10_0000_0000 == w / 0x1_0000_0000_0000;
  }

  lemma LowBits(low: nat, m: nat)
    ensures var w := low + 0x1000 * m;
      w % 4 == low % 4 && Bit(w, 0x40) == Bit(low, 0x40) && Bit(w, 0x80) == Bit(low, 0x80) && Bit(w, 0x400) == Bit(low, 0x400)
  {
    hide Bit;
    AddEven(low, 0x40, 0x20 * m);
    AddEven(low, 0x80, 0x10 * m);
    AddEven(low, 0x400, 2 * m);
  }

  lemma AddEven(a: nat, d: nat, x: nat)
    requires d > 0
    ensures Bit(a + d * (2 * x), d) == Bit(a, d)
  {
    var q, r := a / d, a % d;
    assert d * (q + 2 * x) == d * q + d * (2 * x);
    Bits.Unique(a + d * (2 * x), d, q + 2 * x, r);
    EvenMore(q, x);
  }

  lemma EvenMore(q: nat, x: nat)
    ensures (q + 2 * x) % 2 == q % 2
  {}

  lemma HighBits(r: nat, high: nat)
    requires r < 0x1_0000_0000_0000
    ensures var w := r + 0x1_0000_0000_0000 * high;
      Bit(w, 0x20_0000_0000_0000) == Bit(high, 0x20) && Bit(w, 0x40_0000_0000_0000) == Bit(high, 0x40)
  {
    var w := r + 0x1_0000_0000_0000 * high;
    assert w / 0x1_0000_0000_0000 == high;
  }

  /** One word of a table. */
  lemma FetchIs(words: map<nat, seq<nat>>, ts: P.Tables, t: nat, i: nat)
    requires P.Reads(words, ts) && t in ts && i < |ts[t]|
    ensures P.EntryOf(Fetch(words, t, i)) == P.Word(ts, t, i)
  {
    hide P.EntryOf;
    assert P.ReadsRow(words[t], ts[t]);
  }

  lemma SlotIs(ts: P.Tables, place: map<nat, P.Pos>, up: map<nat, nat>, t: nat, path: seq<nat>)
    requires P.Forest(ts, place, up) && t in ts && P.Remaining(place, t, path) && |path| > 1
    ensures path[0] < |ts[t]| && (P.Word(ts, t, path[0]) == P.ZERO || P.Word(ts, t, path[0]).attrs == 3)
  {
    assert P.Branches(ts, place, t, path[0]) && P.Hangs(ts, place, up, t);
  }

  /** One step of the walk above the last level. */
  lemma StepIs(words: map<nat, seq<nat>>, ts: P.Tables, place: map<nat, P.Pos>, up: map<nat, nat>, t: nat, path: seq<nat>)
    requires P.Forest(ts, place, up) && P.Reads(words, ts) && t in ts && P.Remaining(place, t, path) && |path| > 1
    ensures var w := Fetch(words, t, path[0]);
      && (w % 4 != 3 <==> P.Next(ts, t, path[0]).None?)
      && (w % 4 == 3 ==> P.Next(ts, t, path[0]) == Some(Output(w)) && Output(w) in ts && P.Remaining(place, Output(w), path[1..]))
      && P.EntryFrom(ts, t, path) == if w % 4 == 3 then P.EntryFrom(ts, Output(w), path[1..]) else P.ZERO
  {
    hide P.Forest, P.Reads, P.EntryOf, P.Remaining, Output;
    P.NextPlace(ts, place, up, t, path);
    SlotIs(ts, place, up, t, path);
    FetchIs(words, ts, t, path[0]);
    WordBits(Fetch(words, t, path[0]));
  }

  /** The last step. */
  lemma LeafIs(words: map<nat, seq<nat>>, ts: P.Tables, place: map<nat, P.Pos>, up: map<nat, nat>, t: nat, path: seq<nat>)
    requires P.Forest(ts, place, up) && P.Reads(words, ts) && t in ts && P.Remaining(place, t, path) && |path| == 1
    ensures P.EntryOf(Fetch(words, t, path[0])) == P.EntryFrom(ts, t, path)
  {
    assert P.Hangs(ts, place, up, t);
    hide P.EntryOf;
    FetchIs(words, ts, t, path[0]);
  }

  /** The processor's walk ends where the kernel's tables lead: at a page descriptor with
      the entry's frame and attributes, or in a fault. */
  lemma WalkIs(words: map<nat, seq<nat>>, ts: P.Tables, place: map<nat, P.Pos>, up: map<nat, nat>, root: nat, va: nat)
    requires P.Forest(ts, place, up) && P.Reads(words, ts) && P.IsRoot(place, root) && va < 0x1_0000_0000_0000
    ensures var e, w := P.LookupIn(ts, root, va), Walk(words, root, va);
      && (w.Some? <==> e.attrs % 4 == 3)
      && (w.Some? ==> P.EntryOf(w.value) == e)
  {
    hide P.Forest, P.Reads, P.EntryOf, P.EntryFrom, P.Next, P.Remaining;
    var path := P.PathOf(va);
    RootPath(ts, place, up, root, va);
    StepIs(words, ts, place, up, root, path);
    var w0 := Fetch(words, root, path[0]);
    if w0 % 4 == 3 {
      assert path[1..][0] == path[1];
      StepIs(words, ts, place, up, Output(w0), path[1..]);
      var w1 := Fetch(words, Output(w0), path[1]);
      if w1 % 4 == 3 {
        assert path[1..][1..] == path[2..] && path[2..][0] == path[2];
        StepIs(words, ts, place, up, Output(w1), path[2..]);
        var w2 := Fetch(words, Output(w1), path[2]);
        if w2 % 4 == 3 {
          assert path[2..][1..] == path[3..] && path[3..][0] == path[3];
          LeafIs(words, ts, place, up, Output(w2), path[3..]);
          WordBits(Fetch(words, Output(w2), path[3]));
        }
      }
    }
  }

  lemma RootPath(ts: P.Tables, place: map<nat, P.Pos>, up: map<nat, nat>, root: nat, va: nat)
    requires P.Forest(ts, place, up) && P.IsRoot(place, root)
    ensures root in ts && P.Remaining(place, root, P.PathOf(va))
  {}
}
