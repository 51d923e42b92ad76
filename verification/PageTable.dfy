/** 64-bit descriptor words (src/vm.rs): a frame address under PHY_MASK beside
    attribute bits. */
module Descriptors {
  import opened Bits

  const PHY_MASK: nat := 0x0000_ffff_ffff_f000

  /** The sixteen permission constants (Arm ARM, summary of direct permissions): UXN is
      bit 54, PXN bit 53, and AP[2:1] bits 7 and 6. */
  function Permission(uxn: bool, pxn: bool, ap: nat): nat {
    (if uxn then 0x40_0000_0000_0000 else 0) + (if pxn then 0x20_0000_0000_0000 else 0) + 0x40 * ap
  }

  /** The address of a page in the physical address space. */
  predicate FrameAddr(p: nat) { p % 0x1000 == 0 && p < 0x1_0000_0000_0000 }

  /** Attribute bits stay clear of the frame. */
  predicate OutsideMask(perms: nat) { And(perms, PHY_MASK) == 0 }

  /** A page descriptor and a table descriptor, as the code builds them. */
  function LeafWord(p: nat, perms: nat): nat { Or(Or(p, perms), 0x403) }
  function TableWord(p: nat): nat { Or(p, 3) }

  /** PHY_MASK keeps bits 12 to 47. */
  lemma MaskIs(w: nat)
    ensures And(w, PHY_MASK) == 0x1000 * (w / 0x1000 % 0x10_0000_0000)
  {
    Powers();
    hide Pow2, Shl, Shr, And;
    AndShift(w, 0xf_ffff_ffff, 12);
    ShlIs(0xf_ffff_ffff, 12);
    ShrIs(w, 12);
    AndLow(w / 0x1000, 36);
    ShlIs(w / 0x1000 % 0x10_0000_0000, 12);
  }

  lemma Powers()
    ensures Pow2(1) == 2 && Pow2(2) == 4 && Pow2(10) == 0x400 && Pow2(12) == 0x1000 && Pow2(36) == 0x10_0000_0000
  {
    assert Pow2(4) == 16 && Pow2(6) == 4 * Pow2(4) && Pow2(10) == 16 * Pow2(6);
    assert Pow2(8) == 16 * Pow2(4) && Pow2(12) == 16 * Pow2(8) && Pow2(16) == 16 * Pow2(12);
    assert Pow2(20) == 16 * Pow2(16) && Pow2(24) == 16 * Pow2(20) && Pow2(28) == 16 * Pow2(24);
    assert Pow2(32) == 16 * Pow2(28) && Pow2(36) == 16 * Pow2(32);
  }

  lemma OrZero()
    ensures forall a: nat :: Or(a, 0) == a
  {}

  lemma FrameKept(p: nat)
    requires FrameAddr(p)
    ensures And(p, PHY_MASK) == p
  {
    hide And;
    MaskIs(p);
    assert p == 0x1000 * (p / 0x1000) && p / 0x1000 < 0x10_0000_0000;
  }

  /** What the mask leaves is a frame address, and masking again changes nothing. */
  lemma MaskGivesFrame(w: nat)
    ensures FrameAddr(And(w, PHY_MASK)) && And(w, PHY_MASK) <= w
  {
    MaskIs(w);
    AndAtMost(w, PHY_MASK);
  }

  /** Every permission constant lies outside the frame bits. */
  lemma PermissionsOutsideMask(uxn: bool, pxn: bool, ap: nat)
    requires ap < 4
    ensures OutsideMask(Permission(uxn, pxn, ap))
  {
    hide And;
    var perms := Permission(uxn, pxn, ap);
    MaskIs(perms);
    assert perms / 0x1000 == (if uxn then 0x400_0000_0000 else 0) + if pxn then 0x200_0000_0000 else 0;
  }

  /** Bits outside the mask share none with a frame. */
  lemma Apart(p: nat, x: nat)
    requires And(p, PHY_MASK) == p && And(x, PHY_MASK) == 0
    ensures And(p, x) == 0
  {
    AndAssoc(p, PHY_MASK, x);
    AndComm(PHY_MASK, x);
  }

  lemma LowOutside(bits: nat)
    requires bits < 0x1000
    ensures OutsideMask(bits)
  {
    MaskIs(bits);
  }

  /** A frame and bits outside the mask can be told apart again. */
  lemma Joined(p: nat, x: nat)
    requires FrameAddr(p) && OutsideMask(x)
    ensures And(Or(p, x), PHY_MASK) == p && Or(p, x) == p + x
  {
    OrZero();
    hide And, Or;
    FrameKept(p);
    Apart(p, x);
    OrSum(p, x);
    AndOr(p, x, PHY_MASK);
  }

  lemma OutsideOr(x: nat, y: nat)
    requires OutsideMask(x) && OutsideMask(y)
    ensures OutsideMask(Or(x, y))
  {
    OrZero();
    hide And, Or;
    AndOr(x, y, PHY_MASK);
  }

  /** Masking a page descriptor gives its frame back; the rest are its attributes. */
  lemma WordSplits(p: nat, perms: nat)
    requires FrameAddr(p) && OutsideMask(perms)
    ensures And(LeafWord(p, perms), PHY_MASK) == p && LeafWord(p, perms) == p + Or(perms, 0x403)
  {
    hide And, Or, OutsideMask;
    LowOutside(0x403);
    OutsideOr(perms, 0x403);
    OrAssoc(p, perms, 0x403);
    Joined(p, Or(perms, 0x403));
  }

  lemma TableSplits(p: nat)
    requires FrameAddr(p)
    ensures And(TableWord(p), PHY_MASK) == p && TableWord(p) == p + 3
  {
    hide And, Or, OutsideMask;
    LowOutside(3);
    Joined(p, 3);
  }

  /** A frame and a page offset joined by or. */
  lemma AddressSplits(p: nat, v: nat)
    requires FrameAddr(p)
    ensures Or(p, And(v, 0xfff)) == p + v % 0x1000
  {
    Powers();
    hide And, Or, Pow2, OutsideMask;
    AndLow(v, 12);
    LowOutside(v % 0x1000);
    Joined(p, v % 0x1000);
  }

  /** A permission constant leaves the bits of 0x403 clear. */
  lemma PermissionBits(uxn: bool, pxn: bool, ap: nat)
    requires ap < 4
    ensures Or(Permission(uxn, pxn, ap), 0x403) == Permission(uxn, pxn, ap) + 0x403
  {
    var perms := Permission(uxn, pxn, ap);
    assert perms % 4 == 0 && perms / 0x400 % 2 == 0;
    hide Permission;
    Clear403(perms);
    OrSum(perms, 0x403);
  }

  /** The bits of a page descriptor's attributes, by number: the type and the access flag
      as every page has them, then AP[1], AP[2], PXN and UXN. */
  lemma AttributeBits(uxn: bool, pxn: bool, ap: nat)
    requires ap < 4
    ensures var a := Permission(uxn, pxn, ap) + 0x403;
      && a % 4 == 3 && a / 0x400 % 2 == 1 && a / 0x40 % 2 == ap % 2 && a / 0x80 % 2 == ap / 2
      && (a / 0x20_0000_0000_0000 % 2 == 1 <==> pxn) && (a / 0x40_0000_0000_0000 % 2 == 1 <==> uxn)
  {
    var a := Permission(uxn, pxn, ap) + 0x403;
    assert a == (if uxn then 0x40_0000_0000_0000 else 0) + (if pxn then 0x20_0000_0000_0000 else 0) + 0x40 * ap + 0x403;
  }

  lemma Clear403(a: nat)
    requires a % 4 == 0 && a / 0x400 % 2 == 0
    ensures And(a, 0x403) == 0
  {
    Powers();
    OrZero();
    var three, ten := 3, 0x400;
    assert Or(three, ten) == 0x403 by { Low403(); }
    AndLow(a, 2);
    AndShift(a, 1, 10);
    ShlIs(1, 10);
    ShrIs(a, 10);
    AndLow(a / 0x400, 1);
    ShlIs(0, 10);
    assert And(a, three) == 0 && And(a, ten) == 0;
    hide And, Or;
    AndComm(a, Or(three, ten));
    AndOr(three, ten, a);
    AndComm(three, a);
    AndComm(ten, a);
  }

  lemma Low403()
    ensures Or(3, 0x400) == 0x403
  {
    assert And(3, 0x400) == 0;
    OrSum(3, 0x400);
  }

  /** The low two bits, by which free_walk tells a valid leaf. */
  lemma LowBits(w: nat)
    ensures And(w, 3) == w % 4
  {
    Powers();
    AndLow(w, 2);
  }
}

/** The four-level page table of src/vm.rs (VMSAv8-64, 4 KB granule): a radix
    tree of 512-entry tables in physical memory that acts as a flat map. */
module PageTable {
  import opened Frames
  import opened Bits
  import opened Descriptors
  import opened BuddyModel
  import B = BuddyAllocator

  const RAM_BASE: nat := 0x4000_0000
  const VA_LIMIT: nat := 0x1_0000_0000_0000

  // ---------------------------------------------------------------- addresses

  function L0(v: nat): nat { v / 0x80_0000_0000 % 512 }
  function L1(v: nat): nat { v / 0x4000_0000 % 512 }
  function L2(v: nat): nat { v / 0x20_0000 % 512 }
  function L3(v: nat): nat { v / 0x1000 % 512 }

  function PathOf(v: nat): seq<nat> { [L0(v), L1(v), L2(v), L3(v)] }

  predicate SamePage(v: nat, w: nat) { v / 0x1000 == w / 0x1000 }

  /** The four indices determine a 48-bit page, and every choice of them is one. */
  lemma PathInjective(v: nat, w: nat)
    requires v < VA_LIMIT && w < VA_LIMIT
    ensures PathOf(v) == PathOf(w) <==> SamePage(v, w)
  {
    Digits(v);
    Digits(w);
    if v / 0x1000 == w / 0x1000 {
      UpperDigits(v);
      UpperDigits(w);
    }
  }

  lemma Digits(v: nat)
    requires v < VA_LIMIT
    ensures v / 0x1000 == ((L0(v) * 512 + L1(v)) * 512 + L2(v)) * 512 + L3(v)
  {
    UpperDigits(v);
    var p := v / 0x1000;
    assert p == p / 512 * 512 + p % 512;
    assert p / 512 == p / 512 / 512 * 512 + p / 512 % 512;
  }

  lemma UpperDigits(v: nat)
    ensures var p := v / 0x1000;
      && v / 0x20_0000 == p / 512 && v / 0x4000_0000 == p / 512 / 512 && v / 0x80_0000_0000 == p / 512 / 512 / 512
  {}

  // ------------------------------------------------------------------ entries

  /** A descriptor word, split into the bits under PHY_MASK and the others. */
  datatype Entry = Entry(frame: nat, attrs: nat)

  const ZERO: Entry := Entry(0, 0)

  function EntryOf(w: nat): Entry {
    MaskGivesFrame(w);
    Entry(And(w, PHY_MASK), w - And(w, PHY_MASK))
  }

  /** A table descriptor and a page descriptor. */
  function TableEntry(t: nat): Entry { Entry(t, 3) }
  function LeafEntry(p: nat, perms: nat): Entry { Entry(p, Or(perms, 0x403)) }

  lemma ZeroWord(w: nat)
    ensures EntryOf(w) == ZERO <==> w == 0
  {}

  lemma LeafWordEntry(p: nat, perms: nat)
    requires FrameAddr(p) && OutsideMask(perms)
    ensures EntryOf(LeafWord(p, perms)) == LeafEntry(p, perms)
  {
    WordSplits(p, perms);
    hide And, Or, LeafWord;
  }

  lemma TableWordEntry(p: nat)
    requires FrameAddr(p)
    ensures EntryOf(TableWord(p)) == TableEntry(p)
  {
    TableSplits(p);
    hide And, Or, TableWord;
  }

  /** What the closures of clone_region and map_chg_perms write over a word. */
  lemma RewrittenEntry(w: nat, perms: nat)
    requires OutsideMask(perms)
    ensures EntryOf(LeafWord(And(w, PHY_MASK), perms)) == LeafEntry(EntryOf(w).frame, perms)
  {
    MaskGivesFrame(w);
    LeafWordEntry(And(w, PHY_MASK), perms);
    hide And, Or, LeafWord;
  }

  // --------------------------------------------------------------- radix trees

  /** The table pages of all address spaces, by physical address. */
  type Tables = map<nat, seq<Entry>>

  function Word(ts: Tables, t: nat, i: nat): Entry {
    if t in ts && i < |ts[t]| then ts[t][i] else ZERO
  }

  lemma WordUpdate(ts: Tables, t: nat, i: nat, e: Entry, u: nat, j: nat)
    requires t in ts && i < |ts[t]|
    ensures Word(ts[t := ts[t][i := e]], u, j) == if u == t && j == i then e else Word(ts, u, j)
  {
    var row := ts[t][i := e];
    var ts' := ts[t := row];
    if u == t {
      assert ts'[u] == row;
    } else {
      assert u in ts' <==> u in ts;
    }
  }

  /** Where a table stands: the root of its tree and the indices leading to it. */
  datatype Pos = Pos(root: nat, path: seq<nat>)

  /** The table an entry points to; None for an empty or invalid one. */
  function Next(ts: Tables, t: nat, i: nat): Option<nat> {
    var e := Word(ts, t, i);
    if e == ZERO || e.frame < RAM_BASE || e.frame !in ts then None else Some(e.frame)
  }

  /** The leaf entry that the remaining indices lead to, 0 if a table is missing. */
  ghost function EntryFrom(ts: Tables, t: nat, path: seq<nat>): Entry
    decreases |path|
  {
    if |path| == 0 then ZERO
    else if |path| == 1 then Word(ts, t, path[0])
    else match Next(ts, t, path[0])
      case None => ZERO
      case Some(c) => EntryFrom(ts, c, path[1..])
  }

  /** A table below the leaves: its nonempty entries are descriptors of tables one step
      further. */
  ghost predicate Branches(ts: Tables, place: map<nat, Pos>, t: nat, i: nat)
    requires t in place
  {
    Word(ts, t, i) != ZERO ==>
      var c := Word(ts, t, i).frame;
      && c in ts && c in place && c >= RAM_BASE && Word(ts, t, i).attrs == 3
      && place[c] == Pos(place[t].root, place[t].path + [i])
  }

  /** A table is a root or hangs off the table one step before it. */
  ghost predicate Hangs(ts: Tables, place: map<nat, Pos>, up: map<nat, nat>, t: nat)
    requires t in place
  {
    var pos := place[t];
    && t in ts && |ts[t]| == 512 && FrameAddr(t) && t >= RAM_BASE
    && |pos.path| <= 3 && (forall k :: 0 <= k < |pos.path| ==> pos.path[k] < 512)
    && pos.root in ts && pos.root in place && place[pos.root] == Pos(pos.root, [])
    && (pos.path == [] ==> t == pos.root)
    && (pos.path != [] ==>
          && t in up && up[t] in ts && up[t] in place
          && place[up[t]] == Pos(pos.root, pos.path[..|pos.path| - 1])
          && Next(ts, up[t], pos.path[|pos.path| - 1]) == Some(t))
  }

  /** The tables form disjoint trees of depth at most three: place gives each its
      one position, and up the table that points to it. */
  ghost predicate Forest(ts: Tables, place: map<nat, Pos>, up: map<nat, nat>) {
    && ts.Keys == place.Keys
    && (forall t :: t in ts ==> Hangs(ts, place, up, t))
    && (forall t, i :: t in ts && 0 <= i < 512 && |place[t].path| < 3 ==> Branches(ts, place, t, i))
  }

  ghost predicate IsRoot(place: map<nat, Pos>, r: nat) { r in place && place[r] == Pos(r, []) }

  /** The remaining indices of a walk that stands at table t. */
  ghost predicate Remaining(place: map<nat, Pos>, t: nat, path: seq<nat>) {
    && t in place && |place[t].path| + |path| == 4
    && path != [] && forall k :: 0 <= k < |path| ==> path[k] < 512
  }

  lemma NextPlace(ts: Tables, place: map<nat, Pos>, up: map<nat, nat>, t: nat, path: seq<nat>)
    requires Forest(ts, place, up) && t in ts && Remaining(place, t, path) && |path| > 1
    ensures Next(ts, t, path[0]).Some? <==> Word(ts, t, path[0]) != ZERO
    ensures Next(ts, t, path[0]).Some? ==>
      var c := Next(ts, t, path[0]).value;
      c in ts && place[c] == Pos(place[t].root, place[t].path + [path[0]]) && Remaining(place, c, path[1..])
  {
    assert Branches(ts, place, t, path[0]) && Hangs(ts, place, up, t);
  }

  /** A position is held by one table only. */
  lemma {:induction false} SamePosSameTable(ts: Tables, place: map<nat, Pos>, up: map<nat, nat>, t: nat, u: nat)
    requires Forest(ts, place, up) && t in ts && u in ts && place[t] == place[u]
    ensures t == u
    decreases |place[t].path|
  {
    assert Hangs(ts, place, up, t) && Hangs(ts, place, up, u);
    if place[t].path != [] {
      SamePosSameTable(ts, place, up, up[t], up[u]);
    }
  }

  /** The table on the way to l after d steps. */
  ghost function Ancestor(ts: Tables, place: map<nat, Pos>, up: map<nat, nat>, l: nat, d: nat): (a: nat)
    requires Forest(ts, place, up) && l in ts && d <= |place[l].path|
    ensures a in ts && place[a] == Pos(place[l].root, place[l].path[..d])
    decreases |place[l].path|
  {
    assert Hangs(ts, place, up, l);
    if d == |place[l].path| then
      assert place[l].path[..d] == place[l].path;
      l
    else
      assert place[up[l]].path[..d] == place[l].path[..d];
      Ancestor(ts, place, up, up[l], d)
  }

  /** A walk towards an existing table meets no missing table. */
  lemma NoGap(ts: Tables, place: map<nat, Pos>, up: map<nat, nat>, l: nat, t: nat)
    requires Forest(ts, place, up) && l in ts && t in ts && |place[t].path| < |place[l].path|
    requires place[t] == Pos(place[l].root, place[l].path[..|place[t].path|])
    ensures place[l].path[|place[t].path|] < 512 && Next(ts, t, place[l].path[|place[t].path|]).Some?
  {
    var d := |place[t].path|;
    var a := Ancestor(ts, place, up, l, d + 1);
    assert Hangs(ts, place, up, a);
    assert place[a].path[..d] == place[l].path[..d];
    SamePosSameTable(ts, place, up, up[a], t);
  }

  /** Writing a leaf slot changes the one lookup that its position spells out. */
  lemma SlotOf(a: seq<nat>, path: seq<nat>, b: seq<nat>, i: nat)
    requires |path| == 1 && |a| == |b|
    ensures a + path == b + [i] <==> a == b && path[0] == i
  {
    assert a == (a + path)[..|a|] && b == (b + [i])[..|b|];
    assert path[0] == (a + path)[|a|] && i == (b + [i])[|b|];
  }

  lemma {:induction false} WriteLeaf(ts: Tables, place: map<nat, Pos>, up: map<nat, nat>,
                                     l: nat, i: nat, e: Entry, t: nat, path: seq<nat>)
    requires Forest(ts, place, up) && l in ts && |place[l].path| == 3 && i < |ts[l]|
    requires t in ts && Remaining(place, t, path)
    ensures EntryFrom(ts[l := ts[l][i := e]], t, path) ==
      if Pos(place[t].root, place[t].path + path) == Pos(place[l].root, place[l].path + [i]) then e
      else EntryFrom(ts, t, path)
    decreases |path|
  {
    if |path| == 1 {
      WriteLeafHere(ts, place, up, l, i, e, t, path);
    } else {
      NextPlace(ts, place, up, t, path);
      WordUpdate(ts, l, i, e, t, path[0]);
      if Next(ts, t, path[0]).Some? {
        hide Forest, Remaining;
        var c := Next(ts, t, path[0]).value;
        WriteLeaf(ts, place, up, l, i, e, c, path[1..]);
        OneStep(place[t].path, path);
      } else {
        OffThePath(ts, place, up, l, i, t, path);
      }
    }
  }

  lemma WriteLeafHere(ts: Tables, place: map<nat, Pos>, up: map<nat, nat>,
                      l: nat, i: nat, e: Entry, t: nat, path: seq<nat>)
    requires Forest(ts, place, up) && l in ts && |place[l].path| == 3 && i < |ts[l]|
    requires t in ts && Remaining(place, t, path) && |path| == 1
    ensures EntryFrom(ts[l := ts[l][i := e]], t, path) ==
      if Pos(place[t].root, place[t].path + path) == Pos(place[l].root, place[l].path + [i]) then e
      else EntryFrom(ts, t, path)
  {
    WordUpdate(ts, l, i, e, t, path[0]);
    SlotOf(place[t].path, path, place[l].path, i);
    if place[t] == place[l] { SamePosSameTable(ts, place, up, t, l); }
  }

  lemma OneStep(a: seq<nat>, path: seq<nat>)
    requires path != []
    ensures a + [path[0]] + path[1..] == a + path
  {}

  lemma OffThePath(ts: Tables, place: map<nat, Pos>, up: map<nat, nat>, l: nat, i: nat, t: nat, path: seq<nat>)
    requires Forest(ts, place, up) && l in ts && |place[l].path| == 3
    requires t in ts && Remaining(place, t, path) && |path| > 1 && Next(ts, t, path[0]).None?
    ensures Pos(place[t].root, place[t].path + path) != Pos(place[l].root, place[l].path + [i])
  {
    if Pos(place[t].root, place[t].path + path) == Pos(place[l].root, place[l].path + [i]) {
      var d := |place[t].path|;
      assert place[l].path[..d] == (place[l].path + [i])[..d] == place[t].path;
      assert path[0] == (place[l].path + [i])[d];
      NoGap(ts, place, up, l, t);
    }
  }

  // --------------------------------------------------------- adding a new table

  function ZeroTable(): (row: seq<Entry>)
    ensures |row| == 512 && forall i :: 0 <= i < 512 ==> row[i] == ZERO
  {
    seq(512, _ => ZERO)
  }

  ghost function WithTable(ts: Tables, t: nat, i: nat, p: nat): Tables
    requires t in ts && i < |ts[t]|
  {
    ts[t := ts[t][i := TableEntry(p)]][p := ZeroTable()]
  }

  lemma WithTableWord(ts: Tables, t: nat, i: nat, p: nat, u: nat, j: nat)
    requires t in ts && i < |ts[t]| && p !in ts
    ensures Word(WithTable(ts, t, i, p), u, j) ==
      if u == p then ZERO else if u == t && j == i then TableEntry(p) else Word(ts, u, j)
  {}

  lemma WithTableForest(ts: Tables, place: map<nat, Pos>, up: map<nat, nat>, t: nat, i: nat, p: nat)
    requires Forest(ts, place, up) && t in ts && i < |ts[t]| && |place[t].path| < 3 && Word(ts, t, i) == ZERO
    requires p !in ts && FrameAddr(p) && p >= RAM_BASE
    ensures Forest(WithTable(ts, t, i, p), place[p := Pos(place[t].root, place[t].path + [i])], up[p := t])
  {
    hide Hangs, Branches, WithTable;
    var ts', place', up' := WithTable(ts, t, i, p), place[p := Pos(place[t].root, place[t].path + [i])], up[p := t];
    WithTableKeys(ts, t, i, p);
    forall u | u in ts'
      ensures Hangs(ts', place', up', u)
    {
      WithTableHangs(ts, place, up, t, i, p, u);
    }
    forall u, j | u in ts' && 0 <= j < 512 && |place'[u].path| < 3
      ensures Branches(ts', place', u, j)
    {
      WithTableBranches(ts, place, up, t, i, p, u, j);
    }
  }

  lemma WithTableKeys(ts: Tables, t: nat, i: nat, p: nat)
    requires t in ts && i < |ts[t]|
    ensures WithTable(ts, t, i, p).Keys == ts.Keys + {p}
  {}

  lemma WithTableBranches(ts: Tables, place: map<nat, Pos>, up: map<nat, nat>, t: nat, i: nat, p: nat, u: nat, j: nat)
    requires Forest(ts, place, up) && t in ts && i < |ts[t]| && |place[t].path| < 3 && Word(ts, t, i) == ZERO
    requires p !in ts && p >= RAM_BASE && (u in ts || u == p) && j < 512
    requires u == p || |place[u].path| < 3
    ensures Branches(WithTable(ts, t, i, p), place[p := Pos(place[t].root, place[t].path + [i])], u, j)
  {
    WithTableWord(ts, t, i, p, u, j);
    WithTableKeys(ts, t, i, p);
    if u != p {
      assert Branches(ts, place, u, j);
      hide Forest;
    }
  }

  lemma WithTableHangs(ts: Tables, place: map<nat, Pos>, up: map<nat, nat>, t: nat, i: nat, p: nat, u: nat)
    requires Forest(ts, place, up) && t in ts && i < |ts[t]| && |place[t].path| < 3 && Word(ts, t, i) == ZERO
    requires p !in ts && FrameAddr(p) && p >= RAM_BASE && (u in ts || u == p)
    ensures Hangs(WithTable(ts, t, i, p), place[p := Pos(place[t].root, place[t].path + [i])], up[p := t], u)
  {
    hide FrameAddr;
    assert Hangs(ts, place, up, t);
    if u != p {
      assert Hangs(ts, place, up, u);
      hide Forest;
      OldHangs(ts, place, up, t, i, p, u);
    } else {
      hide Forest;
      NewHangs(ts, place, up, t, i, p);
    }
  }

  lemma NewHangs(ts: Tables, place: map<nat, Pos>, up: map<nat, nat>, t: nat, i: nat, p: nat)
    requires t in ts && t in place && i < |ts[t]| && |place[t].path| < 3 && p !in ts && p !in place
    requires Hangs(ts, place, up, t) && FrameAddr(p) && p >= RAM_BASE
    ensures Hangs(WithTable(ts, t, i, p), place[p := Pos(place[t].root, place[t].path + [i])], up[p := t], p)
  {
    hide FrameAddr;
    WithTableKeys(ts, t, i, p);
    WithTableWord(ts, t, i, p, t, i);
    var path := place[t].path + [i];
    assert path[..|path| - 1] == place[t].path && path[|path| - 1] == i;
    assert Next(WithTable(ts, t, i, p), t, i) == Some(p);
  }

  lemma OldHangs(ts: Tables, place: map<nat, Pos>, up: map<nat, nat>, t: nat, i: nat, p: nat, u: nat)
    requires t in ts && t in place && i < |ts[t]| && Word(ts, t, i) == ZERO
    requires p !in ts && p !in place && u in place && Hangs(ts, place, up, u)
    ensures Hangs(WithTable(ts, t, i, p), place[p := Pos(place[t].root, place[t].path + [i])], up[p := t], u)
  {
    if place[u].path != [] {
      WithTableWord(ts, t, i, p, up[u], place[u].path[|place[u].path| - 1]);
    }
  }

  /** A new, zeroed table changes no lookup. */
  lemma {:induction false} WithTableKeeps(ts: Tables, place: map<nat, Pos>, up: map<nat, nat>,
                                          t: nat, i: nat, p: nat, u: nat, path: seq<nat>)
    requires Forest(ts, place, up) && t in ts && i < |ts[t]| && |place[t].path| < 3 && Word(ts, t, i) == ZERO
    requires p !in ts && u in ts && Remaining(place, u, path)
    ensures EntryFrom(WithTable(ts, t, i, p), u, path) == EntryFrom(ts, u, path)
    decreases |path|
  {
    var ts' := WithTable(ts, t, i, p);
    WithTableWord(ts, t, i, p, u, path[0]);
    if |path| > 1 {
      NextPlace(ts, place, up, u, path);
      if u == t && path[0] == i {
        WithTableWord(ts, t, i, p, p, path[1]);
      } else if Next(ts, u, path[0]).Some? {
        WithTableKeeps(ts, place, up, t, i, p, Next(ts, u, path[0]).value, path[1..]);
      }
    }
  }

  // ------------------------------------------------------------ the page tables

  /** The flat map a root stands for: the leaf entry of each page, ZERO if none. */
  ghost function LookupIn(ts: Tables, root: nat, v: nat): Entry { EntryFrom(ts, root, PathOf(v)) }

  /** Everything that was there is where it was and reads as it did. */
  ghost predicate Extends(ts: Tables, place: map<nat, Pos>, ts': Tables, place': map<nat, Pos>) {
    && (forall t :: t in place ==> t in place' && place'[t] == place[t])
    && forall t, path :: t in ts && Remaining(place, t, path) ==> EntryFrom(ts', t, path) == EntryFrom(ts, t, path)
  }

  /** The roots of all tables. */
  ghost function Roots(place: map<nat, Pos>): set<nat> { set x | x in place :: place[x].root }

  lemma RootsAdd(place: map<nat, Pos>, p: nat, pos: Pos)
    requires p !in place
    ensures Roots(place[p := pos]) == Roots(place) + {pos.root}
  {
    var place' := place[p := pos];
    forall r
      ensures r in Roots(place') <==> r in Roots(place) || r == pos.root
    {
      if r in Roots(place) {
        var x :| x in place && place[x].root == r;
        assert x in place' && place'[x].root == r;
      }
      if r == pos.root { assert p in place' && place'[p].root == r; }
    }
  }

  lemma RootsLess(place: map<nat, Pos>, gone: set<nat>, root: nat)
    requires forall x :: x in gone <==> x in place && place[x].root == root
    ensures Roots(place - gone) == Roots(place) - {root}
  {
    var place' := place - gone;
    forall r | r in Roots(place) && r != root
      ensures r in Roots(place')
    {
      var x :| x in place && place[x].root == r;
      assert x in place' && place'[x].root == r;
    }
  }

  lemma RootOfTable(place: map<nat, Pos>, t: nat)
    requires t in place
    ensures place[t].root in Roots(place)
  {}

  /** The last-level table for v exists. */
  ghost predicate LeafTable(place: map<nat, Pos>, root: nat, v: nat) {
    exists l :: l in place && place[l] == Pos(root, [L0(v), L1(v), L2(v)])
  }

  datatype MapResult = Ok | Exists | NoMemory

  // ---------------------------------------------------- words and table pages

  /** The words in memory read as these entries. */
  ghost predicate Reads(words: map<nat, seq<nat>>, ts: Tables) {
    ts.Keys <= words.Keys && forall t :: t in ts ==> ReadsRow(words[t], ts[t])
  }

  ghost predicate ReadsRow(row: seq<nat>, es: seq<Entry>) {
    |row| == |es| && forall i :: 0 <= i < |row| ==> EntryOf(row[i]) == es[i]
  }

  lemma ReadsAt(words: map<nat, seq<nat>>, ts: Tables, t: nat, i: nat)
    requires Reads(words, ts) && t in ts && i < |ts[t]|
    ensures t in words && |words[t]| == |ts[t]| && EntryOf(words[t][i]) == ts[t][i] && (words[t][i] == 0 <==> ts[t][i] == ZERO)
    ensures And(words[t][i], PHY_MASK) == ts[t][i].frame && words[t][i] % 4 == ts[t][i].attrs % 4
  {
    hide EntryOf;
    assert ReadsRow(words[t], ts[t]);
    WordParts(words[t][i]);
  }

  lemma WordParts(w: nat)
    ensures And(w, PHY_MASK) == EntryOf(w).frame && w % 4 == EntryOf(w).attrs % 4 && (w == 0 <==> EntryOf(w) == ZERO)
  {
    hide And;
    ZeroWord(w);
    MaskGivesFrame(w);
    MaskIs(w);
    var q := 0x400 * (w / 0x1000 % 0x10_0000_0000);
    assert EntryOf(w).attrs == w - 4 * q;
    hide EntryOf;
    Multiple4(w, q);
  }

  lemma Multiple4(w: nat, q: nat)
    requires 4 * q <= w
    ensures w % 4 == (w - 4 * q) % 4
  {}

  lemma HeldMore(live: Live, ts: set<nat>, p: nat)
    requires Held(live, ts) && TablePage(live, p)
    ensures Held(live, ts + {p})
  {}

  lemma ReadsSet(words: map<nat, seq<nat>>, ts: Tables, t: nat, i: nat, w: nat, e: Entry)
    requires Reads(words, ts) && t in ts && i < |ts[t]| && EntryOf(w) == e
    ensures t in words && i < |words[t]| && Reads(words[t := SetWord(words[t], i, w)], ts[t := ts[t][i := e]])
  {
    hide EntryOf;
    assert ReadsRow(words[t], ts[t]);
    var words', ts' := words[t := SetWord(words[t], i, w)], ts[t := ts[t][i := e]];
    forall u | u in ts'
      ensures ReadsRow(words'[u], ts'[u])
    {
      assert u in ts ==> ReadsRow(words[u], ts[u]);
    }
  }

  function SetWord(row: seq<nat>, i: nat, w: nat): (row': seq<nat>)
    requires i < |row|
    ensures row' == row[i := w]
  {
    row[..i] + [w] + row[i + 1..]
  }

  function ZeroWords(): (row: seq<nat>)
    ensures |row| == 512 && forall i :: 0 <= i < 512 ==> row[i] == 0
  {
    seq(512, _ => 0)
  }

  lemma ReadsNew(words: map<nat, seq<nat>>, ts: Tables, p: nat)
    requires Reads(words, ts)
    ensures Reads(words[p := ZeroWords()], ts[p := ZeroTable()])
  {
    ZeroWord(0);
    hide EntryOf;
    var words', ts' := words[p := ZeroWords()], ts[p := ZeroTable()];
    forall u | u in ts'
      ensures ReadsRow(words'[u], ts'[u])
    {
      assert u in ts ==> ReadsRow(words[u], ts[u]);
    }
  }

  /** The allocator's page index of a physical address. */
  function Index(t: nat): nat { if t >= B.OFFT then (t - B.OFFT) / 0x1000 else 0 }

  /** A table lives in a page of its own, taken from the allocator. */
  ghost predicate TablePage(live: Live, t: nat) {
    && t >= B.OFFT && t == B.OFFT + 0x1000 * Index(t)
    && Index(t) in live && live[Index(t)] == Block(MAX_ORD, 1, Used)
  }

  ghost predicate Held(live: Live, ts: set<nat>) { forall t :: t in ts ==> TablePage(live, t) }

  ghost function Indices(ts: set<nat>): set<nat> { set t | t in ts :: Index(t) }

  /** The live blocks with these table pages. */
  ghost function WithPages(live: Live, ts: set<nat>): Live {
    live + map f | f in Indices(ts) :: Block(MAX_ORD, 1, Used)
  }

  /** From ts to ts' tables were added, each in a page that was free. */
  ghost predicate TablesAdded(live: Live, ts: set<nat>, live': Live, ts': set<nat>) {
    ts <= ts' && live' == WithPages(live, ts' - ts) && Indices(ts' - ts) !! live.Keys
  }

  lemma AddedNoTables(live: Live, ts: set<nat>)
    ensures TablesAdded(live, ts, live, ts)
  {
    assert ts - ts == {} && Indices({}) == {};
  }

  lemma AddedOneTable(live: Live, ts: set<nat>, p: nat)
    requires p !in ts && Index(p) !in live
    ensures TablesAdded(live, ts, live[Index(p) := Block(MAX_ORD, 1, Used)], ts + {p})
  {
    assert ts + {p} - ts == {p} && Indices({p}) == {Index(p)};
  }

  lemma IndicesJoin(a: set<nat>, b: set<nat>)
    ensures Indices(a + b) == Indices(a) + Indices(b)
  {}

  lemma WithPagesJoin(live: Live, a: set<nat>, b: set<nat>)
    ensures WithPages(WithPages(live, a), b) == WithPages(live, a + b)
  {
    IndicesJoin(a, b);
    hide Indices;
  }

  lemma LaterApart(live: Live, a: set<nat>, b: set<nat>)
    requires Indices(b) !! WithPages(live, a).Keys
    ensures Indices(b) !! live.Keys
  {
    hide Indices;
    assert live.Keys <= WithPages(live, a).Keys;
  }

  lemma AddedMoreTables(l0: Live, t0: set<nat>, l1: Live, t1: set<nat>, l2: Live, t2: set<nat>)
    requires TablesAdded(l0, t0, l1, t1) && TablesAdded(l1, t1, l2, t2)
    ensures TablesAdded(l0, t0, l2, t2)
  {
    assert t2 - t0 == (t1 - t0) + (t2 - t1);
    WithPagesJoin(l0, t1 - t0, t2 - t1);
    IndicesJoin(t1 - t0, t2 - t1);
    hide Indices, WithPages;
    assert forall f :: f in Indices(t1 - t0) ==> f !in l0;
    LaterApart(l0, t1 - t0, t2 - t1);
  }

  /** Two pages with the same index are one. */
  lemma IndexInjective(live: Live, ts: set<nat>, t: nat, u: nat)
    requires Held(live, ts) && t in ts && u in ts
    ensures Index(t) == Index(u) <==> t == u
  {
    assert TablePage(live, t) && TablePage(live, u);
  }

  class PageTables {
    const al: B.Allocator
    var words: map<nat, seq<nat>>
    ghost var tables: Tables
    ghost var place: map<nat, Pos>
    ghost var up: map<nat, nat>

    /** The words form the trees that the ghost state describes. */
    ghost predicate Shape()
      reads this
    {
      Forest(tables, place, up) && tables.Keys == place.Keys && Reads(words, tables)
    }

    ghost predicate Valid()
      reads this, al, al.pages, al.heads
    {
      Shape() && al.Valid() && Held(al.Live(), tables.Keys)
    }

    constructor (a: B.Allocator)
      requires a.Valid()
      ensures Valid() && al == a && tables == map[]
    {
      al := a;
      words, tables, place, up := map[], map[], map[], map[];
    }

    /** A zeroed page for a table. */
    method NewPage() returns (r: Option<nat>)
      requires al.Valid() && Held(al.Live(), tables.Keys)
      modifies al, al.pages, al.heads
      ensures al.Valid() && Held(al.Live(), tables.Keys)
      ensures r.None? <==> NoRoom(old(al.Live()), MAX_ORD)
      ensures r.None? ==> al.Live() == old(al.Live())
      ensures r.Some? ==> r.value !in tables && FrameAddr(r.value) && r.value >= RAM_BASE && TablePage(al.Live(), r.value)
      ensures r.Some? ==> TablesAdded(old(al.Live()), tables.Keys, al.Live(), tables.Keys + {r.value})
    {
      hide B.Allocator.Valid, B.Allocator.Live, NoRoom;
      B.OrdOfSmall();
      al.Sized();
      r := al.Alloc(B.PAGE);
      if r.Some? {
        var f := (r.value - B.OFFT) / B.PAGE;
        al.LiveHead(f);
        assert r.value == B.OFFT + 0x1000 * f && Index(r.value) == f;
        AddedOneTable(old(al.Live()), tables.Keys, r.value);
      }
    }

    /** pt_alloc_if_0_2; without a free page the source cannot go on. */
    method NextTable(t: nat, i: nat) returns (r: Option<nat>)
      requires Valid() && t in tables && i < 512 && |place[t].path| < 3
      modifies this, al, al.pages, al.heads
      ensures Valid() && Extends(old(tables), old(place), tables, place)
      ensures TablesAdded(old(al.Live()), old(tables).Keys, al.Live(), tables.Keys)
      ensures t in place && place[t] == old(place[t])
      ensures r.None? ==> NoRoom(al.Live(), MAX_ORD)
      ensures Next(tables, t, i) == r && Roots(place) == old(Roots(place))
      ensures Next(old(tables), t, i).Some? ==> tables == old(tables) && place == old(place) && up == old(up)
      ensures r.Some? ==> r.value in place && place[r.value] == Pos(place[t].root, place[t].path + [i])
    {
      hide Roots, Forest, Extends, Reads, Held, EntryOf, And, Or, B.Allocator.Valid, B.Allocator.Live, NoRoom, TablesAdded;
      SlotAt(tables, place, up, t, i);
      ReadsAt(words, tables, t, i);
      ExtendsSelf(tables, place);
      AddedNoTables(al.Live(), tables.Keys);
      if words[t][i] != 0 {
        return Some(And(words[t][i], PHY_MASK));
      }
      r := NewPage();
      if r.Some? {
        HeldMore(al.Live(), tables.Keys, r.value);
        Attach(t, i, r.value);
      }
    }

    /** A zeroed page hung into an empty slot. */
    method Attach(t: nat, i: nat, p: nat)
      requires Shape() && t in tables && i < 512 && |place[t].path| < 3 && Word(tables, t, i) == ZERO
      requires p !in tables && FrameAddr(p) && p >= RAM_BASE
      modifies `words, `tables, `place, `up
      ensures Shape() && Extends(old(tables), old(place), tables, place) && tables.Keys == old(tables.Keys) + {p}
      ensures Next(tables, t, i) == Some(p) && Roots(place) == old(Roots(place))
      ensures t in place && place[t] == old(place[t]) && p in place && place[p] == Pos(place[t].root, place[t].path + [i])
    {
      hide Roots, Forest, Extends, Reads, EntryOf, And, Or, TableWord;
      SlotAt(tables, place, up, t, i);
      WithTableForest(tables, place, up, t, i, p);
      WithTableExtends(tables, place, up, t, i, p);
      WithTableWord(tables, t, i, p, t, i);
      TableWordEntry(p);
      ReadsSet(words, tables, t, i, TableWord(p), TableEntry(p));
      words := words[t := SetWord(words[t], i, TableWord(p))];
      tables := tables[t := tables[t][i := TableEntry(p)]];
      ReadsNew(words, tables, p);
      words, tables := words[p := ZeroWords()], tables[p := ZeroTable()];
      RootsAdd(place, p, Pos(place[t].root, place[t].path + [i]));
      RootOfTable(place, t);
      place, up := place[p := Pos(place[t].root, place[t].path + [i])], up[p := t];
      assert tables.Keys == old(tables).Keys + {p};
    }

    /** init_user: a zeroed root, at which every lookup is empty. */
    method NewRoot() returns (r: Option<nat>)
      requires Valid()
      modifies this, al, al.pages, al.heads
      ensures Valid() && Extends(old(tables), old(place), tables, place)
      ensures TablesAdded(old(al.Live()), old(tables).Keys, al.Live(), tables.Keys)
      ensures r.None? <==> NoRoom(old(al.Live()), MAX_ORD)
      ensures r.None? ==> al.Live() == old(al.Live()) && place == old(place)
      ensures r.Some? ==> Roots(place) == old(Roots(place)) + {r.value}
      ensures r.Some? ==> r.value !in old(tables) && IsRoot(place, r.value)
      ensures r.Some? ==> forall v :: LookupIn(tables, r.value, v) == ZERO
    {
      hide Roots, Forest, Extends, Reads, LookupIn, B.Allocator.Valid, B.Allocator.Live, NoRoom, TablesAdded;
      ExtendsSelf(tables, place);
      AddedNoTables(al.Live(), tables.Keys);
      r := NewPage();
      if r.Some? {
        var p := r.value;
        RootForest(tables, place, up, p);
        ReadsNew(words, tables, p);
        words, tables := words[p := ZeroWords()], tables[p := ZeroTable()];
        RootsAdd(place, p, Pos(p, []));
        place := place[p := Pos(p, [])];
        assert tables.Keys == old(tables).Keys + {p};
      }
    }

    /** The three pt_alloc_if_0_2 steps of map_v2p_4k_inner. */
    method ReachLeaf(root: nat, v: nat) returns (r: Option<nat>)
      requires Valid() && IsRoot(place, root) && v < VA_LIMIT
      modifies this, al, al.pages, al.heads
      ensures Valid() && Extends(old(tables), old(place), tables, place)
      ensures TablesAdded(old(al.Live()), old(tables).Keys, al.Live(), tables.Keys)
      ensures r.None? ==> NoRoom(al.Live(), MAX_ORD)
      ensures LeafTable(old(place), root, v) ==> r.Some? && tables == old(tables)
      ensures Roots(place) == old(Roots(place))
      ensures r.Some? ==> r.value in place && place[r.value] == Pos(root, [L0(v), L1(v), L2(v)])
    {
      hide Roots, Forest, Reads, Held, Extends, B.Allocator.Valid, B.Allocator.Live, NoRoom, TablesAdded;
      PathInRange(v);
      ghost var ts, pl, l0 := tables, place, al.Live();
      WalkStep(tables, place, up, root, root, v);
      var t1 := NextTable(root, L0(v));
      if t1.None? {
        return None;
      }
      ghost var ts1, pl1, l1 := tables, place, al.Live();
      WalkStep(tables, place, up, t1.value, root, v);
      var t2 := NextTable(t1.value, L1(v));
      ExtendsTrans(ts, pl, ts1, pl1, tables, place);
      AddedMoreTables(l0, ts.Keys, l1, ts1.Keys, al.Live(), tables.Keys);
      if t2.None? {
        return None;
      }
      ghost var ts2, pl2, l2 := tables, place, al.Live();
      WalkStep(tables, place, up, t2.value, root, v);
      r := NextTable(t2.value, L2(v));
      ExtendsTrans(ts, pl, ts2, pl2, tables, place);
      AddedMoreTables(l0, ts.Keys, l2, ts2.Keys, al.Live(), tables.Keys);
    }

    /** map_v2p_4k_inner: the lookup of exactly this page in exactly this address
        space becomes the new entry. A page already mapped is reported, and kept
        unless the caller asked to overwrite it. */
    method MapPage(root: nat, v: nat, p: nat, perms: nat, overwrite: bool) returns (r: MapResult)
      requires Valid() && IsRoot(place, root) && v < VA_LIMIT && FrameAddr(p) && OutsideMask(perms)
      modifies this, al, al.pages, al.heads
      ensures Valid() && forall q :: IsRoot(old(place), q) ==> IsRoot(place, q)
      ensures TablesAdded(old(al.Live()), old(tables).Keys, al.Live(), tables.Keys)
      ensures r.NoMemory? ==> NoRoom(al.Live(), MAX_ORD)
      ensures LeafTable(old(place), root, v) ==> !r.NoMemory? && tables.Keys == old(tables.Keys)
      ensures Roots(place) == old(Roots(place))
      ensures !r.NoMemory? ==> (r.Exists? <==> LookupIn(old(tables), root, v) != ZERO)
      ensures forall q, w: nat :: IsRoot(old(place), q) && w < VA_LIMIT ==>
        (LookupIn(tables, q, w) ==
          if q == root && SamePage(v, w) && (r.Ok? || (r.Exists? && overwrite)) then LeafEntry(p, perms)
          else LookupIn(old(tables), q, w))
    {
      hide Roots, Forest, Reads, Extends, LookupIn, SamePage, EntryOf, And, Or, LeafWord, FrameAddr, OutsideMask;
      hide B.Allocator.Valid, B.Allocator.Live, NoRoom, TablesAdded, Held;
      ghost var ts, pl := tables, place;
      PathInRange(v);
      var t3 := ReachLeaf(root, v);
      SameLookups(ts, pl, tables, place);
      if t3.None? {
        return NoMemory;
      }
      var l := t3.value;
      SlotAt(tables, place, up, l, L3(v));
      ReadsAt(words, tables, l, L3(v));
      LeafLookup(tables, place, up, l, v);
      var found := words[l][L3(v)] != 0;
      if found && !overwrite {
        return Exists;
      }
      LeafWordEntry(p, perms);
      PutLeaf(l, v, LeafWord(p, perms), LeafEntry(p, perms));
      r := if found then Exists else Ok;
    }

    /** One word of a leaf table is written. */
    method PutLeaf(l: nat, v: nat, w: nat, ghost e: Entry)
      requires Shape() && l in place && v < VA_LIMIT && place[l].path == [L0(v), L1(v), L2(v)] && EntryOf(w) == e
      modifies `words, `tables
      ensures Shape() && tables.Keys == old(tables).Keys
      ensures forall q, u: nat :: IsRoot(place, q) && u < VA_LIMIT ==>
        (LookupIn(tables, q, u) == if q == place[l].root && SamePage(v, u) then e else LookupIn(old(tables), q, u))
    {
      hide Forest, Reads, LookupIn, SamePage, EntryOf;
      PathInRange(v);
      SlotAt(tables, place, up, l, L3(v));
      LeafWritten(tables, place, up, l, v, e);
      ReadsSet(words, tables, l, L3(v), w, e);
      words := words[l := SetWord(words[l], L3(v), w)];
      tables := tables[l := tables[l][L3(v) := e]];
      assert tables.Keys == old(tables).Keys;
    }

    /** One step of a walk: the table behind a nonzero word. */
    method Follow(t: nat, i: nat) returns (r: Option<nat>)
      requires Shape() && t in tables && i < 512 && |place[t].path| < 3
      ensures r == Next(tables, t, i)
      ensures r.Some? ==> r.value in tables && place[r.value] == Pos(place[t].root, place[t].path + [i])
    {
      hide Forest, Reads, EntryOf, And;
      SlotAt(tables, place, up, t, i);
      ReadsAt(words, tables, t, i);
      if words[t][i] == 0 {
        return None;
      }
      return Some(And(words[t][i], PHY_MASK));
    }

    /** walk_to_l3 */
    method WalkToLeaf(root: nat, v: nat) returns (r: Option<nat>)
      requires Shape() && IsRoot(place, root)
      ensures r.None? ==> LookupIn(tables, root, v) == ZERO
      ensures r.Some? ==> r.value in place && place[r.value] == Pos(root, [L0(v), L1(v), L2(v)])
      ensures r.Some? <==> LeafTable(place, root, v)
    {
      hide Forest, Reads, LookupIn, Next;
      LookupUnfolds(tables, root, v);
      WalkStep(tables, place, up, root, root, v);
      var t1 := Follow(root, L0(v));
      if t1.None? {
        return None;
      }
      WalkStep(tables, place, up, t1.value, root, v);
      var t2 := Follow(t1.value, L1(v));
      if t2.None? {
        return None;
      }
      WalkStep(tables, place, up, t2.value, root, v);
      r := Follow(t2.value, L2(v));
    }

    /** v2p_pt: an error where a table is missing, otherwise the frame of the page's
        entry, which is 0 for a page that is not mapped, and the page offset. With
        permissions to set, as clone_region and map_chg_perms use it, the entry keeps
        its frame, takes the new permissions, and no other page changes. */
    method Translate(root: nat, v: nat, perms: Option<nat>) returns (r: Option<nat>)
      requires Shape() && IsRoot(place, root) && v < VA_LIMIT && (perms.Some? ==> OutsideMask(perms.value))
      modifies `words, `tables
      ensures Shape() && tables.Keys == old(tables).Keys
      ensures r.Some? <==> LeafTable(place, root, v)
      ensures r.None? ==> LookupIn(tables, root, v) == ZERO
      ensures r.Some? ==> r.value == LookupIn(old(tables), root, v).frame + v % 0x1000
      ensures forall q, w: nat :: IsRoot(place, q) && w < VA_LIMIT ==>
        (LookupIn(tables, q, w) ==
          if q == root && SamePage(v, w) && r.Some? && perms.Some? then LeafEntry(LookupIn(old(tables), root, v).frame, perms.value)
          else LookupIn(old(tables), q, w))
    {
      hide Forest, Reads, LookupIn, SamePage, EntryOf, And, Or, LeafWord, LeafEntry, OutsideMask;
      var leaf := WalkToLeaf(root, v);
      if leaf.None? {
        return None;
      }
      var l := leaf.value;
      PathInRange(v);
      SlotAt(tables, place, up, l, L3(v));
      ReadsAt(words, tables, l, L3(v));
      LeafLookup(tables, place, up, l, v);
      var w := words[l][L3(v)];
      MaskGivesFrame(w);
      AddressSplits(And(w, PHY_MASK), v);
      if perms.Some? {
        RewrittenEntry(w, perms.value);
        PutLeaf(l, v, LeafWord(And(w, PHY_MASK), perms.value), LeafEntry(EntryOf(w).frame, perms.value));
      }
      r := Some(Or(And(w, PHY_MASK), And(v, 0xfff)));
    }

    /** unmap_4k_inner: the lookup of exactly this page becomes empty; an error, and
        no change, where a table is missing. */
    method Unmap(root: nat, v: nat) returns (ok: bool)
      requires Shape() && IsRoot(place, root) && v < VA_LIMIT
      modifies `words, `tables
      ensures Shape() && tables.Keys == old(tables).Keys
      ensures ok <==> LeafTable(place, root, v)
      ensures forall q, w: nat :: IsRoot(place, q) && w < VA_LIMIT ==>
        (LookupIn(tables, q, w) == if q == root && SamePage(v, w) then ZERO else LookupIn(old(tables), q, w))
    {
      hide Forest, Reads, LookupIn;
      var l := WalkToLeaf(root, v);
      if l.None? {
        SamePageSameLookup(tables, root, v);
        return false;
      }
      ZeroWord(0);
      PutLeaf(l.value, v, 0, ZERO);
      return true;
    }

    /** pm::free on a page. */
    method FreePage(t: nat)
      requires al.Valid() && Freeable(al.Live(), t)
      modifies al, al.pages, al.heads
      ensures al.Valid() && al.Live() == FreeLive(old(al.Live()), Index(t))
    {
      hide B.Allocator.Valid, B.Allocator.Live;
      assert BlockPages(MAX_ORD) == 1;
      al.Free(t, 0x1000);
    }

    /** free_walk: every table below t, each after everything below it, and every
        frame mapped there loses a reference. */
    method FreeWalk(t: nat, level: nat) returns (ghost freed: seq<nat>)
      requires Shape() && al.Valid() && t in tables && level <= 3 && |place[t].path| == level
      requires CanFreeAll(al.Live(), FreedBelow(tables, t, level, 512))
      modifies al, al.pages, al.heads
      ensures al.Valid() && freed == FreedBelow(tables, t, level, 512)
      ensures al.Live() == FreeAll(old(al.Live()), freed)
      decreases 3 - level
    {
      hide Forest, Reads, EntryOf, And, FreedBelow, Freeable, CanFreeAll, FreeAll, B.Allocator.Valid, B.Allocator.Live;
      ghost var live := al.Live();
      freed := [];
      NothingFreed(live, tables, t, level);
      for i := 0 to 512
        invariant al.Valid() && freed == FreedBelow(tables, t, level, i)
        invariant CanFreeAll(live, freed) && al.Live() == FreeAll(live, freed)
      {
        SlotAt(tables, place, up, t, i);
        ReadsAt(words, tables, t, i);
        LowBits(words[t][i]);
        FreedNext(live, tables, t, level, i);
        var paddr := And(words[t][i], PHY_MASK);
        if level < 3 {
          if paddr >= RAM_BASE {
            CanFreeParts(live, freed, FreedBelow(tables, paddr, level + 1, 512), paddr);
            ghost var below := FreeWalk(paddr, level + 1);
            FreePage(paddr);
            freed := freed + (below + [paddr]);
          }
        } else if paddr >= RAM_BASE && And(words[t][i], 3) > 0 {
          assert [] + [paddr] == [paddr];
          CanFreeParts(live, freed, [], paddr);
          NothingFreed(FreeAll(live, freed), tables, t, level);
          FreePage(paddr);
          freed := freed + [paddr];
        }
      }
    }

    /** free_pt: the address space's tables, and one reference to each frame still
        mapped in it, go back to the allocator; every other address space reads as
        before. A frame that is itself a table must not be mapped. */
    method FreeTables(root: nat) returns (ghost freed: seq<nat>)
      requires Valid() && IsRoot(place, root) && LeavesApart(tables, place, root)
      requires CanFreeAll(al.Live(), FreedBelow(tables, root, 0, 512) + [root])
      modifies this, al, al.pages, al.heads
      ensures Valid() && freed == FreedBelow(old(tables), root, 0, 512) + [root]
      ensures al.Live() == FreeAll(old(al.Live()), freed)
      ensures forall t :: t in tables <==> t in old(tables) && t in old(place) && old(place)[t].root != root
      ensures forall q :: IsRoot(old(place), q) && q != root ==> IsRoot(place, q)
      ensures Roots(place) == old(Roots(place)) - {root}
      ensures forall q, v: nat :: IsRoot(old(place), q) && q != root ==>
        LookupIn(tables, q, v) == LookupIn(old(tables), q, v)
    {
      hide Roots, Forest, Reads, FreedBelow, LookupIn, Freeable, CanFreeAll, FreeAll, LeavesApart, Held, B.Allocator.Valid, B.Allocator.Live;
      ghost var live := al.Live();
      assert [] + (FreedBelow(tables, root, 0, 512) + [root]) == FreedBelow(tables, root, 0, 512) + [root];
      NothingFreed(live, tables, root, 0);
      CanFreeParts(live, [], FreedBelow(tables, root, 0, 512), root);
      ghost var below := FreeWalk(root, 0);
      FreePage(root);
      freed := below + [root];
      ghost var gone := set t | t in tables && place[t].root == root;
      RemoveKeeps(tables, place, up, root, gone);
      ReadsLess(words, tables, gone);
      StillHeld(live, tables, place, up, root, gone);
      RootsLess(place, gone, root);
      tables, place := tables - gone, place - gone;
    }
  }

  // ------------------------------------------------------------------ teardown

  /** What pm::free asserts of a page. */
  ghost predicate Freeable(live: Live, t: nat) {
    t >= B.OFFT && Index(t) in live && live[Index(t)].ord == MAX_ORD && live[Index(t)].refCnt > 0
  }

  /** These pages can be freed in this order. */
  ghost predicate CanFreeAll(live: Live, s: seq<nat>)
    decreases s
  {
    s != [] ==> Freeable(live, s[0]) && CanFreeAll(FreeLive(live, Index(s[0])), s[1..])
  }

  ghost function FreeAll(live: Live, s: seq<nat>): Live
    requires CanFreeAll(live, s)
    decreases s
  {
    if s == [] then live else FreeAll(FreeLive(live, Index(s[0])), s[1..])
  }

  lemma {:induction false} FreeJoin(live: Live, a: seq<nat>, b: seq<nat>)
    ensures CanFreeAll(live, a + b) <==> CanFreeAll(live, a) && CanFreeAll(FreeAll(live, a), b)
    ensures CanFreeAll(live, a + b) ==> FreeAll(live, a + b) == FreeAll(FreeAll(live, a), b)
    decreases a
  {
    if a == [] {
      assert a + b == b;
    } else {
      assert (a + b)[1..] == a[1..] + b;
      if Freeable(live, a[0]) { FreeJoin(FreeLive(live, Index(a[0])), a[1..], b); }
    }
  }

  lemma FreeOne(live: Live, t: nat)
    ensures CanFreeAll(live, [t]) <==> Freeable(live, t)
    ensures Freeable(live, t) ==> FreeAll(live, [t]) == FreeLive(live, Index(t))
  {}

  lemma CanFreeParts(live: Live, a: seq<nat>, b: seq<nat>, t: nat)
    requires CanFreeAll(live, a + (b + [t]))
    ensures CanFreeAll(live, a) && CanFreeAll(FreeAll(live, a), b) && Freeable(FreeAll(FreeAll(live, a), b), t)
    ensures FreeAll(live, a + (b + [t])) == FreeLive(FreeAll(FreeAll(live, a), b), Index(t))
  {
    hide CanFreeAll, FreeAll, Freeable;
    FreeJoin(live, a, b + [t]);
    FreeJoin(FreeAll(live, a), b, [t]);
    FreeOne(FreeAll(FreeAll(live, a), b), t);
  }

  lemma NothingFreed(live: Live, ts: Tables, t: nat, d: nat)
    requires d <= 3
    ensures FreedBelow(ts, t, d, 0) == [] && CanFreeAll(live, []) && FreeAll(live, []) == live
  {}

  /** One more entry of a table: what it adds, and that it too can be freed. */
  lemma FreedNext(live: Live, ts: Tables, t: nat, d: nat, i: nat)
    requires d <= 3 && i < 512 && CanFreeAll(live, FreedBelow(ts, t, d, 512))
    ensures CanFreeAll(live, FreedBelow(ts, t, d, i + 1))
    ensures FreedBelow(ts, t, d, i + 1) == FreedBelow(ts, t, d, i) + Piece(ts, t, d, i)
    ensures Piece(ts, t, d, i) == [] ==> FreedBelow(ts, t, d, i + 1) == FreedBelow(ts, t, d, i)
  {
    var rest := FreedPrefix(ts, t, d, i + 1, 512);
    FreeJoin(live, FreedBelow(ts, t, d, i + 1), rest);
  }

  lemma {:induction false} FreedPrefix(ts: Tables, t: nat, d: nat, i: nat, n: nat) returns (rest: seq<nat>)
    requires d <= 3 && i <= n
    ensures FreedBelow(ts, t, d, n) == FreedBelow(ts, t, d, i) + rest
    decreases n
  {
    hide Piece;
    if i == n {
      rest := [];
    } else {
      rest := FreedPrefix(ts, t, d, i, n - 1);
      assert FreedBelow(ts, t, d, n) == FreedBelow(ts, t, d, n - 1) + Piece(ts, t, d, n - 1);
      rest := rest + Piece(ts, t, d, n - 1);
    }
  }

  /** Distinct table pages can be freed in any order, and then are gone. */
  lemma {:induction false} FreeDistinct(live: Live, s: seq<nat>)
    requires Distinct(s) && Held(live, Elements(s))
    ensures CanFreeAll(live, s) && FreeAll(live, s) == Without(live, s)
    decreases s
  {
    if s == [] {
      assert Indices(Elements(s)) == {};
    } else {
      assert s[0] in Elements(s) && TablePage(live, s[0]);
      var live', rest := FreeLive(live, Index(s[0])), s[1..];
      forall x | x in Elements(rest)
        ensures TablePage(live', x)
      {
        assert x in Elements(s);
        IndexInjective(live, Elements(s), x, s[0]);
      }
      FreeDistinct(live', rest);
      assert s == [s[0]] + rest;
      assert Elements(s) == {s[0]} + Elements(rest);
      assert Indices(Elements(s)) == {Index(s[0])} + Indices(Elements(rest));
    }
  }

  /** Once nothing is mapped any more, free_pt gives back exactly the tables of the
      address space, each once. */
  lemma EmptyTeardown(live: Live, ts: Tables, place: map<nat, Pos>, up: map<nat, nat>, root: nat)
    requires Forest(ts, place, up) && IsRoot(place, root) && EmptyLeaves(ts, place, root) && Held(live, ts.Keys)
    ensures var freed := FreedBelow(ts, root, 0, 512) + [root];
      && LeavesApart(ts, place, root) && Distinct(freed) && (forall t :: t in freed <==> t in place && place[t].root == root)
      && CanFreeAll(live, freed) && FreeAll(live, freed) == Without(live, freed)
  {
    FreedAll(ts, place, up, root);
    var freed := FreedBelow(ts, root, 0, 512) + [root];
    assert LeavesApart(ts, place, root);
    assert Held(live, Elements(freed)) by {
      forall t | t in Elements(freed)
        ensures TablePage(live, t)
      {
        assert t in ts.Keys;
      }
    }
    hide Forest, EmptyLeaves, FreedBelow, Held;
    FreeDistinct(live, freed);
  }

  lemma ReadsLess(words: map<nat, seq<nat>>, ts: Tables, gone: set<nat>)
    requires Reads(words, ts)
    ensures Reads(words, ts - gone)
  {}

  lemma {:induction false} FreeAllKeeps(live: Live, s: seq<nat>, f: nat)
    requires CanFreeAll(live, s) && f !in Indices(Elements(s))
    ensures f in FreeAll(live, s) <==> f in live
    ensures f in live ==> FreeAll(live, s)[f] == live[f]
    decreases s
  {
    if s != [] {
      assert s[0] in Elements(s) && Index(s[0]) in Indices(Elements(s));
      assert forall x :: x in Elements(s[1..]) ==> x in Elements(s);
      FreeAllKeeps(FreeLive(live, Index(s[0])), s[1..], f);
    }
  }

  /** The tables of the other address spaces stay. */
  lemma StillHeld(live: Live, ts: Tables, place: map<nat, Pos>, up: map<nat, nat>, root: nat, gone: set<nat>)
    requires Forest(ts, place, up) && IsRoot(place, root) && LeavesApart(ts, place, root) && Held(live, ts.Keys)
    requires forall t :: t in gone <==> t in ts && place[t].root == root
    requires CanFreeAll(live, FreedBelow(ts, root, 0, 512) + [root])
    ensures Held(FreeAll(live, FreedBelow(ts, root, 0, 512) + [root]), (ts - gone).Keys)
  {
    var s := FreedBelow(ts, root, 0, 512) + [root];
    forall u | u in (ts - gone).Keys
      ensures TablePage(FreeAll(live, s), u)
    {
      assert TablePage(live, u) && u !in gone;
      NotFreed(live, ts, place, up, root, u);
      FreeAllKeeps(live, s, Index(u));
    }
  }

  lemma NotFreed(live: Live, ts: Tables, place: map<nat, Pos>, up: map<nat, nat>, root: nat, u: nat)
    requires Forest(ts, place, up) && IsRoot(place, root) && LeavesApart(ts, place, root) && Held(live, ts.Keys)
    requires u in ts && place[u].root != root
    ensures Index(u) !in Indices(Elements(FreedBelow(ts, root, 0, 512) + [root]))
  {
    hide FreedBelow, Forest, Held, LeavesApart;
    forall x | x in FreedBelow(ts, root, 0, 512) + [root]
      ensures Index(x) != Index(u)
    {
      NotThatPage(live, ts, place, up, root, u, x);
    }
  }

  lemma InForest(ts: Tables, place: map<nat, Pos>, up: map<nat, nat>, root: nat)
    requires Forest(ts, place, up) && IsRoot(place, root)
    ensures root in ts && place[root].path == [] && ts.Keys == place.Keys
  {}

  lemma NotThatPage(live: Live, ts: Tables, place: map<nat, Pos>, up: map<nat, nat>, root: nat, u: nat, x: nat)
    requires Forest(ts, place, up) && IsRoot(place, root) && LeavesApart(ts, place, root) && Held(live, ts.Keys)
    requires u in ts && place[u].root != root && (x in FreedBelow(ts, root, 0, 512) || x == root)
    ensures Index(x) != Index(u)
  {
    hide FreedBelow, Forest, Mapped, Word, Held, TablePage;
    assert Index(u) in Indices(ts.Keys);
    InForest(ts, place, up, root);
    if x != root { FreedIffBelow(ts, place, up, root, 512, x); }
    if x == root || Below(place, root, x, 512) {
      IndexInjective(live, ts.Keys, x, u);
    } else {
      var l: nat, i: nat :| LeafUnder(place, root, l, i, 512) && Mapped(Word(ts, l, i)) && Word(ts, l, i).frame == x;
      assert place[l].root == root;
    }
  }

  ghost function Elements(s: seq<nat>): set<nat> { set x | x in s }

  /** The live blocks without these table pages. */
  ghost function Without(live: Live, s: seq<nat>): Live { live - Indices(Elements(s)) }

  /** The pages free_walk frees for the first n entries of table t at level d: each
      table after everything below it and, at the leaves, the mapped frames. */
  ghost function FreedBelow(ts: Tables, t: nat, d: nat, n: nat): seq<nat>
    requires d <= 3
    decreases 3 - d, n
  {
    if n == 0 then [] else FreedBelow(ts, t, d, n - 1) + Piece(ts, t, d, n - 1)
  }

  /** What it frees for entry i alone. */
  ghost function Piece(ts: Tables, t: nat, d: nat, i: nat): seq<nat>
    requires d <= 3
    decreases 3 - d, i
  {
    var e := Word(ts, t, i);
    if d < 3 then (if e.frame >= RAM_BASE then FreedBelow(ts, e.frame, d + 1, 512) + [e.frame] else [])
    else (if Mapped(e) then [e.frame] else [])
  }

  /** What free_walk takes for a mapped frame. */
  predicate Mapped(e: Entry) { e.frame >= RAM_BASE && e.attrs % 4 > 0 }

  /** No frame mapped in this address space is a table. */
  ghost predicate LeavesApart(ts: Tables, place: map<nat, Pos>, root: nat) {
    forall l, i :: l in place && place[l].root == root && |place[l].path| == 3 && 0 <= i < 512 && Mapped(Word(ts, l, i)) ==>
      Index(Word(ts, l, i).frame) !in Indices(ts.Keys)
  }

  /** x hangs below t, through one of its first n entries. */
  ghost predicate Below(place: map<nat, Pos>, t: nat, x: nat, n: nat)
    requires t in place
  {
    var d := |place[t].path|;
    && x in place && place[x].root == place[t].root && |place[x].path| > d
    && place[x].path[..d] == place[t].path && place[x].path[d] < n
  }

  ghost predicate EmptyLeaves(ts: Tables, place: map<nat, Pos>, root: nat) {
    forall l, i :: l in place && place[l].root == root && |place[l].path| == 3 && 0 <= i < 512 ==> Word(ts, l, i) == ZERO
  }

  /** Entry i of leaf table l is reached from t through one of its first n entries. */
  ghost predicate LeafUnder(place: map<nat, Pos>, t: nat, l: nat, i: nat, n: nat)
    requires t in place
  {
    l in place && |place[l].path| == 3 && i < 512 && (Below(place, t, l, n) || (l == t && i < n))
  }

  /** Frame x is mapped below t. */
  ghost predicate MappedBelow(ts: Tables, place: map<nat, Pos>, t: nat, x: nat, n: nat)
    requires t in place
  {
    exists l, i :: LeafUnder(place, t, l, i, n) && Mapped(Word(ts, l, i)) && Word(ts, l, i).frame == x
  }

  /** free_walk frees exactly the tables below the one it is given and the frames
      mapped there. */
  lemma {:induction false} FreedIffBelow(ts: Tables, place: map<nat, Pos>, up: map<nat, nat>, t: nat, n: nat, x: nat)
    requires Forest(ts, place, up) && t in ts && n <= 512 && |place[t].path| <= 3
    ensures x in FreedBelow(ts, t, |place[t].path|, n) <==> Below(place, t, x, n) || MappedBelow(ts, place, t, x, n)
    decreases 3 - |place[t].path|, n
  {
    assert t in place;
    hide Forest, Below, MappedBelow, Mapped, Word;
    if n == 0 {
      NoneUnder(ts, place, up, t, x);
      assert FreedBelow(ts, t, |place[t].path|, 0) == [];
    } else {
      FreedIffBelow(ts, place, up, t, n - 1, x);
      var d, e := |place[t].path|, Word(ts, t, n - 1);
      SlotAt(ts, place, up, t, n - 1);
      assert FreedBelow(ts, t, d, n) == FreedBelow(ts, t, d, n - 1) + Piece(ts, t, d, n - 1);
      if d == 3 {
        LeafAdds(ts, place, up, t, n - 1, x);
      } else if e == ZERO {
        NothingThere(ts, place, up, t, n - 1, x);
        NoneThere(ts, place, up, t, n - 1, x);
      } else {
        EntryIsRam(ts, place, up, t, n - 1);
        FreedUnfolds(ts, t, d, n, x);
        hide FreedBelow, Piece;
        Child(ts, place, up, t, n - 1);
        FreedIffBelow(ts, place, up, e.frame, 512, x);
        BelowThrough(ts, place, up, t, n - 1, e.frame, x);
        MappedThrough(ts, place, up, t, n - 1, e.frame, x);
      }
    }
  }

  /** A nonzero entry above the leaves leads to a table one step further. */
  lemma Child(ts: Tables, place: map<nat, Pos>, up: map<nat, nat>, t: nat, i: nat)
    requires Forest(ts, place, up) && t in ts && i < 512 && |place[t].path| < 3 && Word(ts, t, i) != ZERO
    ensures var c := Word(ts, t, i).frame; c in ts && c in place && place[c] == Pos(place[t].root, place[t].path + [i])
  {
    assert Branches(ts, place, t, i);
  }

  lemma NoneUnder(ts: Tables, place: map<nat, Pos>, up: map<nat, nat>, t: nat, x: nat)
    requires Forest(ts, place, up) && t in ts
    ensures !Below(place, t, x, 0) && !MappedBelow(ts, place, t, x, 0)
  {
    assert t in place;
    hide Forest;
    assert forall l: nat, i: nat :: !LeafUnder(place, t, l, i, 0);
  }

  /** At a leaf table, entry i adds the frame it maps. */
  lemma LeafAdds(ts: Tables, place: map<nat, Pos>, up: map<nat, nat>, t: nat, i: nat, x: nat)
    requires Forest(ts, place, up) && t in ts && |place[t].path| == 3 && i < 512
    ensures !Below(place, t, x, i + 1) && !Below(place, t, x, i)
    ensures MappedBelow(ts, place, t, x, i + 1) <==>
            MappedBelow(ts, place, t, x, i) || (Mapped(Word(ts, t, i)) && Word(ts, t, i).frame == x)
  {
    forall y | y in place
      ensures !Below(place, t, y, i + 1) && !Below(place, t, y, i)
    {
      assert Hangs(ts, place, up, y);
    }
    hide Forest, Mapped, Below;
    if MappedBelow(ts, place, t, x, i) {
      var l: nat, j: nat :| LeafUnder(place, t, l, j, i) && Mapped(Word(ts, l, j)) && Word(ts, l, j).frame == x;
      assert LeafUnder(place, t, l, j, i + 1);
    }
    if MappedBelow(ts, place, t, x, i + 1) {
      var l: nat, j: nat :| LeafUnder(place, t, l, j, i + 1) && Mapped(Word(ts, l, j)) && Word(ts, l, j).frame == x;
      assert l == t && (j < i ==> LeafUnder(place, t, l, j, i));
    }
    assert LeafUnder(place, t, t, i, i + 1);
  }

  lemma NoneThere(ts: Tables, place: map<nat, Pos>, up: map<nat, nat>, t: nat, i: nat, x: nat)
    requires Forest(ts, place, up) && t in ts && i < 512 && |place[t].path| < 3 && Word(ts, t, i) == ZERO
    ensures MappedBelow(ts, place, t, x, i + 1) <==> MappedBelow(ts, place, t, x, i)
  {
    forall l
      ensures Below(place, t, l, i + 1) <==> Below(place, t, l, i)
    {
      NothingThere(ts, place, up, t, i, l);
    }
    hide Forest, Mapped, Below;
    forall l, j
      ensures LeafUnder(place, t, l, j, i + 1) <==> LeafUnder(place, t, l, j, i)
    {}
  }

  lemma MappedThrough(ts: Tables, place: map<nat, Pos>, up: map<nat, nat>, t: nat, i: nat, c: nat, x: nat)
    requires Forest(ts, place, up) && t in ts && i < 512 && c in ts && |place[t].path| < 3
    requires place[c] == Pos(place[t].root, place[t].path + [i])
    ensures MappedBelow(ts, place, t, x, i + 1) <==> MappedBelow(ts, place, t, x, i) || MappedBelow(ts, place, c, x, 512)
  {
    forall l
      ensures Below(place, t, l, i + 1) <==> Below(place, t, l, i) || l == c || Below(place, c, l, 512)
    {
      BelowThrough(ts, place, up, t, i, c, l);
    }
    hide Forest, Mapped, Below;
    forall l, j
      ensures LeafUnder(place, t, l, j, i + 1) <==> LeafUnder(place, t, l, j, i) || LeafUnder(place, c, l, j, 512)
    {}
    hide LeafUnder;
    if MappedBelow(ts, place, t, x, i + 1) {
      var l: nat, j: nat :| LeafUnder(place, t, l, j, i + 1) && Mapped(Word(ts, l, j)) && Word(ts, l, j).frame == x;
      assert LeafUnder(place, t, l, j, i) || LeafUnder(place, c, l, j, 512);
    }
  }

  /** With nothing mapped, free_walk frees exactly the tables below. */
  lemma TablesIffBelow(ts: Tables, place: map<nat, Pos>, up: map<nat, nat>, t: nat, n: nat, x: nat)
    requires Forest(ts, place, up) && t in ts && n <= 512 && |place[t].path| <= 3 && EmptyLeaves(ts, place, place[t].root)
    ensures x in FreedBelow(ts, t, |place[t].path|, n) <==> Below(place, t, x, n)
  {
    FreedIffBelow(ts, place, up, t, n, x);
    hide Forest, FreedBelow;
    forall l: nat, i: nat | LeafUnder(place, t, l, i, n)
      ensures !Mapped(Word(ts, l, i))
    {
      assert Word(ts, l, i) == ZERO;
    }
  }

  lemma FreedUnfolds(ts: Tables, t: nat, d: nat, n: nat, x: nat)
    requires d < 3 && n > 0 && Word(ts, t, n - 1).frame >= RAM_BASE
    ensures var c := Word(ts, t, n - 1).frame;
      x in FreedBelow(ts, t, d, n) <==> x in FreedBelow(ts, t, d, n - 1) || x in FreedBelow(ts, c, d + 1, 512) || x == c
  {
    var c := Word(ts, t, n - 1).frame;
    assert FreedBelow(ts, t, d, n) == FreedBelow(ts, t, d, n - 1) + (FreedBelow(ts, c, d + 1, 512) + [c]);
  }

  lemma EntryIsRam(ts: Tables, place: map<nat, Pos>, up: map<nat, nat>, t: nat, i: nat)
    requires Forest(ts, place, up) && t in ts && |place[t].path| < 3 && i < 512 && Word(ts, t, i) != ZERO
    ensures Word(ts, t, i).frame >= RAM_BASE
  {
    assert Branches(ts, place, t, i);
  }

  lemma LeafIsEmpty(ts: Tables, place: map<nat, Pos>, up: map<nat, nat>, t: nat, i: nat, x: nat)
    requires Forest(ts, place, up) && t in ts && |place[t].path| == 3 && i < 512 && EmptyLeaves(ts, place, place[t].root)
    ensures Word(ts, t, i) == ZERO && !Below(place, t, x, i + 1)
  {
    if x in place { assert Hangs(ts, place, up, x); }
  }

  lemma NothingThere(ts: Tables, place: map<nat, Pos>, up: map<nat, nat>, t: nat, i: nat, x: nat)
    requires Forest(ts, place, up) && t in ts && |place[t].path| < 3 && i < 512 && Word(ts, t, i) == ZERO
    ensures Below(place, t, x, i + 1) <==> Below(place, t, x, i)
  {
    if Below(place, t, x, i + 1) {
      NoGap(ts, place, up, x, t);
    }
  }

  lemma BelowThrough(ts: Tables, place: map<nat, Pos>, up: map<nat, nat>, t: nat, i: nat, c: nat, x: nat)
    requires Forest(ts, place, up) && t in ts && i < 512 && c in ts
    requires place[c] == Pos(place[t].root, place[t].path + [i])
    ensures Below(place, t, x, i + 1) <==> Below(place, t, x, i) || x == c || Below(place, c, x, 512)
  {
    if x in place {
      assert Hangs(ts, place, up, x);
      if place[x] == place[c] { SamePosSameTable(ts, place, up, x, c); }
      hide Forest, Hangs;
      PrefixStep(place[t].path, i, place[x].path);
    }
  }

  /** A path through a's i-th entry is that entry's own or goes on from it. */
  lemma PrefixStep(a: seq<nat>, i: nat, x: seq<nat>)
    requires forall k :: 0 <= k < |x| ==> x[k] < 512
    ensures (|x| > |a| && x[..|a|] == a && x[|a|] == i) <==>
      x == a + [i] || (|x| > |a| + 1 && x[..|a| + 1] == a + [i] && x[|a| + 1] < 512)
  {
    var d := |a|;
    if |x| > d {
      assert x[..d + 1] == x[..d] + [x[d]];
      assert (a + [i])[..d] == a && (a + [i])[d] == i;
      if |x| == d + 1 { assert x[..d + 1] == x; }
    }
  }

  /** free_walk frees no page twice. */
  lemma {:induction false} FreedOnce(ts: Tables, place: map<nat, Pos>, up: map<nat, nat>, t: nat, n: nat)
    requires Forest(ts, place, up) && t in ts && n <= 512 && EmptyLeaves(ts, place, place[t].root) && |place[t].path| <= 3
    ensures Distinct(FreedBelow(ts, t, |place[t].path|, n))
    decreases 3 - |place[t].path|, n
  {
    var d := |place[t].path|;
    if n > 0 {
      hide Forest, EmptyLeaves, Distinct, Word, Mapped, FreedBelow, Piece;
      FreedLast(ts, t, d, n - 1);
      FreedOnce(ts, place, up, t, n - 1);
      var e := Word(ts, t, n - 1);
      SlotAt(ts, place, up, t, n - 1);
      if d == 3 {
        LeafIsEmpty(ts, place, up, t, n - 1, 0);
      } else if e != ZERO {
        EntryIsRam(ts, place, up, t, n - 1);
        FreedOnce(ts, place, up, e.frame, 512);
        OnceMore(ts, place, up, t, n - 1, e.frame);
      }
    }
  }

  lemma FreedLast(ts: Tables, t: nat, d: nat, i: nat)
    requires d <= 3
    ensures var e := Word(ts, t, i);
      && (e == ZERO ==> FreedBelow(ts, t, d, i + 1) == FreedBelow(ts, t, d, i))
      && (d < 3 && e.frame >= RAM_BASE ==>
            FreedBelow(ts, t, d, i + 1) == FreedBelow(ts, t, d, i) + (FreedBelow(ts, e.frame, d + 1, 512) + [e.frame]))
  {
    assert FreedBelow(ts, t, d, i + 1) == FreedBelow(ts, t, d, i) + Piece(ts, t, d, i);
  }

  lemma OnceMore(ts: Tables, place: map<nat, Pos>, up: map<nat, nat>, t: nat, i: nat, c: nat)
    requires Forest(ts, place, up) && t in ts && i < 512 && EmptyLeaves(ts, place, place[t].root) && |place[t].path| < 3
    requires c in ts && place[c] == Pos(place[t].root, place[t].path + [i])
    requires Distinct(FreedBelow(ts, t, |place[t].path|, i)) && Distinct(FreedBelow(ts, c, |place[t].path| + 1, 512))
    ensures Distinct(FreedBelow(ts, t, |place[t].path|, i) + (FreedBelow(ts, c, |place[t].path| + 1, 512) + [c]))
  {
    assert t in place && c in place;
    hide Forest, EmptyLeaves, FreedBelow, Distinct;
    var d := |place[t].path|;
    var a, b := FreedBelow(ts, t, d, i), FreedBelow(ts, c, d + 1, 512);
    assert (place[t].path + [i])[d] == i;
    assert c !in a by { TablesIffBelow(ts, place, up, t, i, c); }
    forall x
      ensures x in b ==> x != c && x !in a
    {
      TablesIffBelow(ts, place, up, c, 512, x);
      TablesIffBelow(ts, place, up, t, i, x);
      if Below(place, c, x, 512) { assert place[x].path[..d + 1][d] == place[x].path[d]; }
    }
    JoinDistinct(b, [c]);
    JoinDistinct(a, b + [c]);
  }

  /** From the root free_walk visits the whole tree. */
  lemma FreedAll(ts: Tables, place: map<nat, Pos>, up: map<nat, nat>, root: nat)
    requires Forest(ts, place, up) && IsRoot(place, root) && EmptyLeaves(ts, place, root)
    ensures var freed := FreedBelow(ts, root, 0, 512) + [root];
      && Distinct(freed) && forall t :: t in freed <==> t in place && place[t].root == root
  {
    hide EmptyLeaves, FreedBelow, Distinct;
    var below := FreedBelow(ts, root, 0, 512);
    FreedOnce(ts, place, up, root, 512);
    forall x
      ensures x in below <==> x in place && place[x].root == root && x != root
    {
      TablesIffBelow(ts, place, up, root, 512, x);
      if x in place { assert Hangs(ts, place, up, x); }
    }
    JoinDistinct(below, [root]);
  }

  /** The address the four indices spell out. */
  lemma AddressOf(a: nat, b: nat, c: nat, i: nat) returns (v: nat)
    requires a < 512 && b < 512 && c < 512 && i < 512
    ensures v < VA_LIMIT && PathOf(v) == [a, b, c, i]
  {
    v := (((a * 512 + b) * 512 + c) * 512 + i) * 0x1000;
    UpperDigits(v);
    var p := ((a * 512 + b) * 512 + c) * 512 + i;
    assert v / 0x1000 == p && p / 512 == (a * 512 + b) * 512 + c && p % 512 == i;
    assert p / 512 / 512 == a * 512 + b && p / 512 % 512 == c;
    assert p / 512 / 512 / 512 == a && p / 512 / 512 % 512 == b;
  }

  /** When every lookup is empty, so is every leaf entry. */
  lemma UnmappedLeaves(ts: Tables, place: map<nat, Pos>, up: map<nat, nat>, root: nat)
    requires Forest(ts, place, up) && forall v: nat :: v < VA_LIMIT ==> LookupIn(ts, root, v) == ZERO
    ensures EmptyLeaves(ts, place, root)
  {
    hide LookupIn, Forest, Word;
    forall l, i | l in place && place[l].root == root && |place[l].path| == 3 && 0 <= i < 512
      ensures Word(ts, l, i) == ZERO
    {
      var v := LeafAddress(ts, place, up, l, i);
    }
  }

  /** The address whose leaf entry is slot i of table l. */
  lemma TableAt(ts: Tables, place: map<nat, Pos>, up: map<nat, nat>, t: nat)
    requires Forest(ts, place, up) && (t in ts || t in place)
    ensures t in ts && t in place && |ts[t]| == 512 && forall k :: 0 <= k < |place[t].path| ==> place[t].path[k] < 512
    ensures place[t].root in ts && place[t].root in place && place[place[t].root] == Pos(place[t].root, [])
  {
    assert Hangs(ts, place, up, t);
  }

  lemma LeafAddress(ts: Tables, place: map<nat, Pos>, up: map<nat, nat>, l: nat, i: nat) returns (v: nat)
    requires Forest(ts, place, up) && l in place && |place[l].path| == 3 && i < 512
    ensures v < VA_LIMIT && LookupIn(ts, place[l].root, v) == Word(ts, l, i)
  {
    hide Forest, LookupIn, L0, L1, L2, L3, Word;
    TableAt(ts, place, up, l);
    var path := place[l].path;
    v := AddressOf(path[0], path[1], path[2], i);
    assert PathOf(v)[0] == path[0] && PathOf(v)[1] == path[1] && PathOf(v)[2] == path[2] && PathOf(v)[3] == i;
    assert path == [L0(v), L1(v), L2(v)];
    LeafLookup(ts, place, up, l, v);
  }

  /** gone are the tables of one address space. */
  ghost predicate TreeOf(place: map<nat, Pos>, root: nat, gone: set<nat>) {
    forall t :: t in gone <==> t in place && place[t].root == root
  }

  lemma RemoveKeeps(ts: Tables, place: map<nat, Pos>, up: map<nat, nat>, root: nat, gone: set<nat>)
    requires Forest(ts, place, up) && TreeOf(place, root, gone)
    ensures Forest(ts - gone, place - gone, up)
    ensures forall q, v: nat :: IsRoot(place, q) && q != root ==> LookupIn(ts - gone, q, v) == LookupIn(ts, q, v)
  {
    RemoveForest(ts, place, up, root, gone);
    hide Forest, TreeOf, LookupIn;
    forall q, v: nat | IsRoot(place, q) && q != root
      ensures LookupIn(ts - gone, q, v) == LookupIn(ts, q, v)
    {
      RemoveRoot(ts, place, up, root, gone, q, v);
    }
  }

  lemma RemoveForest(ts: Tables, place: map<nat, Pos>, up: map<nat, nat>, root: nat, gone: set<nat>)
    requires Forest(ts, place, up) && TreeOf(place, root, gone)
    ensures Forest(ts - gone, place - gone, up)
  {
    var ts', place' := ts - gone, place - gone;
    hide Hangs, Branches;
    forall u | u in ts'
      ensures Hangs(ts', place', up, u)
    {
      RemoveHangs(ts, place, up, root, gone, u);
    }
    forall u, j | u in ts' && 0 <= j < 512 && |place'[u].path| < 3
      ensures Branches(ts', place', u, j)
    {
      RemoveBranches(ts, place, up, root, gone, u, j);
    }
  }

  lemma RemoveHangs(ts: Tables, place: map<nat, Pos>, up: map<nat, nat>, root: nat, gone: set<nat>, u: nat)
    requires Forest(ts, place, up) && TreeOf(place, root, gone) && u in ts && u !in gone
    ensures Hangs(ts - gone, place - gone, up, u)
  {
    hide FrameAddr;
    assert Hangs(ts, place, up, u);
    hide Forest;
  }

  lemma RemoveBranches(ts: Tables, place: map<nat, Pos>, up: map<nat, nat>, root: nat, gone: set<nat>, u: nat, j: nat)
    requires Forest(ts, place, up) && TreeOf(place, root, gone) && u in ts && u !in gone && j < 512 && |place[u].path| < 3
    ensures Branches(ts - gone, place - gone, u, j)
  {
    assert Branches(ts, place, u, j);
    hide Forest;
  }

  lemma RemoveRoot(ts: Tables, place: map<nat, Pos>, up: map<nat, nat>, root: nat, gone: set<nat>, q: nat, v: nat)
    requires Forest(ts, place, up) && TreeOf(place, root, gone) && IsRoot(place, q) && q != root
    ensures LookupIn(ts - gone, q, v) == LookupIn(ts, q, v)
  {
    PathInRange(v);
    RemoveLookup(ts, place, up, root, gone, q, PathOf(v));
  }

  lemma {:induction false} RemoveLookup(ts: Tables, place: map<nat, Pos>, up: map<nat, nat>, root: nat, gone: set<nat>,
                                        t: nat, path: seq<nat>)
    requires Forest(ts, place, up) && TreeOf(place, root, gone)
    requires t in ts && place[t].root != root && Remaining(place, t, path)
    ensures EntryFrom(ts - gone, t, path) == EntryFrom(ts, t, path)
    decreases |path|
  {
    if |path| > 1 {
      NextPlace(ts, place, up, t, path);
      if Next(ts, t, path[0]).Some? {
        RemoveLookup(ts, place, up, root, gone, Next(ts, t, path[0]).value, path[1..]);
      }
    }
  }

  lemma LookupUnfolds(ts: Tables, root: nat, v: nat)
    ensures LookupIn(ts, root, v) ==
      var t1 := Next(ts, root, L0(v));
      if t1.None? then ZERO else
      var t2 := Next(ts, t1.value, L1(v));
      if t2.None? then ZERO else
      var t3 := Next(ts, t2.value, L2(v));
      if t3.None? then ZERO else Word(ts, t3.value, L3(v))
  {
    var path := PathOf(v);
    assert path[1..] == [L1(v), L2(v), L3(v)] && path[1..][1..] == [L2(v), L3(v)] && path[1..][1..][1..] == [L3(v)];
    var t1 := Next(ts, root, L0(v));
    if t1.Some? {
      assert EntryFrom(ts, root, path) == EntryFrom(ts, t1.value, path[1..]);
      var t2 := Next(ts, t1.value, L1(v));
      if t2.Some? {
        assert EntryFrom(ts, t1.value, path[1..]) == EntryFrom(ts, t2.value, path[1..][1..]);
      }
    }
  }

  /** Two addresses in one page are looked up alike. */
  lemma SamePageSameLookup(ts: Tables, root: nat, v: nat)
    requires v < VA_LIMIT
    ensures forall w: nat :: w < VA_LIMIT && SamePage(v, w) ==> LookupIn(ts, root, w) == LookupIn(ts, root, v)
  {
    forall w: nat | w < VA_LIMIT && SamePage(v, w)
      ensures LookupIn(ts, root, w) == LookupIn(ts, root, v)
    {
      PathInjective(v, w);
    }
  }

  lemma SlotAt(ts: Tables, place: map<nat, Pos>, up: map<nat, nat>, t: nat, i: nat)
    requires Forest(ts, place, up) && t in ts && i < 512
    ensures |ts[t]| == 512 && Word(ts, t, i) == ts[t][i]
    ensures |place[t].path| < 3 && ts[t][i] != ZERO ==>
      var c := ts[t][i].frame; Next(ts, t, i) == Some(c) && c in place && place[c] == Pos(place[t].root, place[t].path + [i])
  {
    assert Hangs(ts, place, up, t);
    if |place[t].path| < 3 { assert Branches(ts, place, t, i); }
  }

  lemma ExtendsSelf(ts: Tables, place: map<nat, Pos>)
    ensures Extends(ts, place, ts, place)
  {}

  lemma ExtendsTrans(ts: Tables, place: map<nat, Pos>, ts1: Tables, place1: map<nat, Pos>, ts2: Tables, place2: map<nat, Pos>)
    requires ts.Keys == place.Keys && ts1.Keys == place1.Keys
    requires Extends(ts, place, ts1, place1) && Extends(ts1, place1, ts2, place2)
    ensures Extends(ts, place, ts2, place2)
  {
    forall t, path | t in ts && Remaining(place, t, path)
      ensures EntryFrom(ts2, t, path) == EntryFrom(ts, t, path)
    {
      assert Remaining(place1, t, path);
    }
  }

  lemma WithTableExtends(ts: Tables, place: map<nat, Pos>, up: map<nat, nat>, t: nat, i: nat, p: nat)
    requires Forest(ts, place, up) && t in ts && i < |ts[t]| && |place[t].path| < 3 && Word(ts, t, i) == ZERO && p !in ts
    ensures Extends(ts, place, WithTable(ts, t, i, p), place[p := Pos(place[t].root, place[t].path + [i])])
  {
    forall u, path | u in ts && Remaining(place, u, path)
      ensures EntryFrom(WithTable(ts, t, i, p), u, path) == EntryFrom(ts, u, path)
    {
      WithTableKeeps(ts, place, up, t, i, p, u, path);
    }
  }

  /** The leaf table of an address holds its entry. */
  lemma LeafLookup(ts: Tables, place: map<nat, Pos>, up: map<nat, nat>, l: nat, v: nat)
    requires Forest(ts, place, up) && l in ts && place[l].path == [L0(v), L1(v), L2(v)]
    ensures LookupIn(ts, place[l].root, v) == Word(ts, l, L3(v))
  {
    hide Forest, L0, L1, L2, L3, EntryFrom;
    PathInRange(v);
    TableAt(ts, place, up, l);
    var e := Word(ts, l, L3(v));
    assert ts[l][L3(v) := e] == ts[l];
    assert ts[l := ts[l][L3(v) := e]] == ts;
    assert place[l].path + [L3(v)] == PathOf(v) == [] + PathOf(v);
    WriteLeaf(ts, place, up, l, L3(v), e, place[l].root, PathOf(v));
  }

  /** Writing an address's leaf entry changes the lookups of its page in its
      address space and no others. */
  lemma LeafWritten(ts: Tables, place: map<nat, Pos>, up: map<nat, nat>, l: nat, v: nat, e: Entry)
    requires Forest(ts, place, up) && l in ts && place[l].path == [L0(v), L1(v), L2(v)] && v < VA_LIMIT
    requires |ts[l]| == 512 && L3(v) < 512
    ensures var ts' := ts[l := ts[l][L3(v) := e]];
      && Forest(ts', place, up)
      && forall q, w: nat :: IsRoot(place, q) && w < VA_LIMIT ==>
           (LookupIn(ts', q, w) == if q == place[l].root && SamePage(v, w) then e else LookupIn(ts, q, w))
  {
    LeafForest(ts, place, up, l, L3(v), e);
    hide LookupIn, Forest, SamePage, L0, L1, L2, L3;
    forall q, w: nat | IsRoot(place, q) && w < VA_LIMIT
      ensures LookupIn(ts[l := ts[l][L3(v) := e]], q, w) ==
        if q == place[l].root && SamePage(v, w) then e else LookupIn(ts, q, w)
    {
      LeafWrittenAt(ts, place, up, l, v, e, q, w);
    }
  }

  lemma LeafWrittenAt(ts: Tables, place: map<nat, Pos>, up: map<nat, nat>, l: nat, v: nat, e: Entry, q: nat, w: nat)
    requires Forest(ts, place, up) && l in ts && place[l].path == [L0(v), L1(v), L2(v)] && v < VA_LIMIT
    requires |ts[l]| == 512 && L3(v) < 512 && IsRoot(place, q) && w < VA_LIMIT
    ensures LookupIn(ts[l := ts[l][L3(v) := e]], q, w) ==
      if q == place[l].root && SamePage(v, w) then e else LookupIn(ts, q, w)
  {
    PathInRange(w);
    PathInjective(v, w);
    hide SamePage, L0, L1, L2, L3, Forest;
    assert place[l].path + [L3(v)] == PathOf(v);
    assert [] + PathOf(w) == PathOf(w);
    WriteLeaf(ts, place, up, l, L3(v), e, q, PathOf(w));
  }

  lemma LeafForest(ts: Tables, place: map<nat, Pos>, up: map<nat, nat>, l: nat, i: nat, e: Entry)
    requires Forest(ts, place, up) && l in ts && |place[l].path| == 3 && i < |ts[l]|
    ensures Forest(ts[l := ts[l][i := e]], place, up)
  {
    var ts' := ts[l := ts[l][i := e]];
    hide Hangs, Branches;
    forall u | u in ts'
      ensures Hangs(ts', place, up, u)
    {
      LeafHangs(ts, place, up, l, i, e, u);
    }
    forall u, j | u in ts' && 0 <= j < 512 && |place[u].path| < 3
      ensures Branches(ts', place, u, j)
    {
      LeafBranches(ts, place, up, l, i, e, u, j);
    }
  }

  lemma LeafHangs(ts: Tables, place: map<nat, Pos>, up: map<nat, nat>, l: nat, i: nat, e: Entry, u: nat)
    requires Forest(ts, place, up) && l in ts && |place[l].path| == 3 && i < |ts[l]| && u in ts
    ensures Hangs(ts[l := ts[l][i := e]], place, up, u)
  {
    hide FrameAddr;
    assert Hangs(ts, place, up, u);
    hide Forest;
    if place[u].path != [] {
      WordUpdate(ts, l, i, e, up[u], place[u].path[|place[u].path| - 1]);
    }
  }

  lemma LeafBranches(ts: Tables, place: map<nat, Pos>, up: map<nat, nat>, l: nat, i: nat, e: Entry, u: nat, j: nat)
    requires Forest(ts, place, up) && l in ts && |place[l].path| == 3 && i < |ts[l]|
    requires u in ts && j < 512 && |place[u].path| < 3
    ensures Branches(ts[l := ts[l][i := e]], place, u, j)
  {
    assert Branches(ts, place, u, j);
    hide Forest;
    WordUpdate(ts, l, i, e, u, j);
  }

  /** One step of a walk: on to the next table, or no leaf table for v at all. */
  lemma WalkStep(ts: Tables, place: map<nat, Pos>, up: map<nat, nat>, t: nat, root: nat, v: nat)
    requires Forest(ts, place, up) && t in place && |place[t].path| < 3
    requires place[t] == Pos(root, [L0(v), L1(v), L2(v)][..|place[t].path|])
    ensures var d := |place[t].path|;
      var c := Next(ts, t, [L0(v), L1(v), L2(v)][d]);
      && (c.Some? ==> c.value in place && place[c.value] == Pos(root, [L0(v), L1(v), L2(v)][..d + 1]))
      && (c.None? ==> forall l :: l in place ==> place[l] != Pos(root, [L0(v), L1(v), L2(v)]))
  {
    PathInRange(v);
    var d := |place[t].path|;
    var i := [L0(v), L1(v), L2(v)][d];
    SlotAt(ts, place, up, t, i);
    assert [L0(v), L1(v), L2(v)][..d + 1] == [L0(v), L1(v), L2(v)][..d] + [i];
    if Next(ts, t, i).None? {
      NoLeaf(ts, place, up, root, v, t);
    }
  }

  /** A mapped page has all its tables. */
  lemma MappedLeaf(ts: Tables, place: map<nat, Pos>, up: map<nat, nat>, root: nat, v: nat)
    requires Forest(ts, place, up) && IsRoot(place, root) && LookupIn(ts, root, v) != ZERO
    ensures LeafTable(place, root, v)
  {
    LookupUnfolds(ts, root, v);
    hide Forest, LookupIn, Next;
    WalkStep(ts, place, up, root, root, v);
    var t1 := Next(ts, root, L0(v));
    if t1.Some? {
      WalkStep(ts, place, up, t1.value, root, v);
      var t2 := Next(ts, t1.value, L1(v));
      if t2.Some? {
        WalkStep(ts, place, up, t2.value, root, v);
      }
    }
  }

  /** Where the walk stops at a missing table, the address has no leaf table. */
  lemma NoLeaf(ts: Tables, place: map<nat, Pos>, up: map<nat, nat>, root: nat, v: nat, t: nat)
    requires Forest(ts, place, up) && t in ts && |place[t].path| < 3
    requires place[t] == Pos(root, [L0(v), L1(v), L2(v)][..|place[t].path|])
    requires Next(ts, t, [L0(v), L1(v), L2(v)][|place[t].path|]).None?
    ensures forall l :: l in place ==> place[l] != Pos(root, [L0(v), L1(v), L2(v)])
  {
    forall l | l in place && place[l] == Pos(root, [L0(v), L1(v), L2(v)])
      ensures false
    {
      NoGap(ts, place, up, l, t);
    }
  }

  lemma PathInRange(v: nat)
    ensures L0(v) < 512 && L1(v) < 512 && L2(v) < 512 && L3(v) < 512
  {}

  lemma SameLookups(ts: Tables, place: map<nat, Pos>, ts': Tables, place': map<nat, Pos>)
    requires ts.Keys == place.Keys && Extends(ts, place, ts', place')
    ensures forall q :: IsRoot(place, q) ==> IsRoot(place', q)
    ensures forall q, w: nat :: IsRoot(place, q) ==> LookupIn(ts', q, w) == LookupIn(ts, q, w)
  {
    forall q, w: nat | IsRoot(place, q)
      ensures LookupIn(ts', q, w) == LookupIn(ts, q, w)
    {
      PathInRange(w);
      assert Remaining(place, q, PathOf(w));
    }
  }

  lemma RootForest(ts: Tables, place: map<nat, Pos>, up: map<nat, nat>, p: nat)
    requires Forest(ts, place, up) && p !in ts && FrameAddr(p) && p >= RAM_BASE
    ensures var ts', place' := ts[p := ZeroTable()], place[p := Pos(p, [])];
      && Forest(ts', place', up) && Extends(ts, place, ts', place')
      && forall v :: LookupIn(ts', p, v) == ZERO
  {
    var ts', place' := ts[p := ZeroTable()], place[p := Pos(p, [])];
    hide Hangs, Branches;
    forall u | u in ts'
      ensures Hangs(ts', place', up, u)
    {
      RootHangs(ts, place, up, p, u);
    }
    forall u, j | u in ts' && 0 <= j < 512 && |place'[u].path| < 3
      ensures Branches(ts', place', u, j)
    {
      RootBranches(ts, place, up, p, u, j);
    }
    forall u, path | u in ts && Remaining(place, u, path)
      ensures EntryFrom(ts', u, path) == EntryFrom(ts, u, path)
    {
      NewRootKeeps(ts, place, up, p, u, path);
    }
  }

  lemma RootHangs(ts: Tables, place: map<nat, Pos>, up: map<nat, nat>, p: nat, u: nat)
    requires Forest(ts, place, up) && p !in ts && FrameAddr(p) && p >= RAM_BASE && (u in ts || u == p)
    ensures Hangs(ts[p := ZeroTable()], place[p := Pos(p, [])], up, u)
  {
    hide FrameAddr;
    if u != p { assert Hangs(ts, place, up, u); }
    hide Forest;
  }

  lemma RootBranches(ts: Tables, place: map<nat, Pos>, up: map<nat, nat>, p: nat, u: nat, j: nat)
    requires Forest(ts, place, up) && p !in ts && (u == p || (u in ts && |place[u].path| < 3)) && j < 512
    ensures Branches(ts[p := ZeroTable()], place[p := Pos(p, [])], u, j)
  {
    if u != p { assert Branches(ts, place, u, j); }
    hide Forest;
  }

  lemma {:induction false} NewRootKeeps(ts: Tables, place: map<nat, Pos>, up: map<nat, nat>, p: nat, u: nat, path: seq<nat>)
    requires Forest(ts, place, up) && p !in ts && u in ts && Remaining(place, u, path)
    ensures EntryFrom(ts[p := ZeroTable()], u, path) == EntryFrom(ts, u, path)
    decreases |path|
  {
    if |path| > 1 {
      hide Forest, Remaining;
      NextPlace(ts, place, up, u, path);
      if Next(ts, u, path[0]).Some? {
        NewRootKeeps(ts, place, up, p, Next(ts, u, path[0]).value, path[1..]);
      }
    }
  }
}
