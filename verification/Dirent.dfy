/** getdents64 of src/p9.rs: a 9P2000.L Rreaddir payload rewritten as Linux dirents. */
module Dirent {
  import opened Frames
  import opened ByteStrings

  const U16_MAX: nat := 0xffff

  /** A directory entry as 9p sends it: qid (kind, version, path), offset, type, name. */
  datatype Entry = Entry(kind: int, version: Bytes, ino: Bytes, offset: Bytes, dt: int, name: Bytes)

  /** A record as user space reads it. */
  datatype Brief = Brief(ino: Bytes, off: Bytes, dt: int, name: Bytes)

  predicate EntryOk(e: Entry) {
    |e.version| == 4 && |e.ino| == 8 && |e.offset| == 8 && NulFree(e.name) && |e.name| <= U16_MAX
  }

  predicate AllOk(es: seq<Entry>) {
    forall i :: 0 <= i < |es| ==> EntryOk(es[i])
  }

  function Wire(e: Entry): Bytes {
    [e.kind] + e.version + e.ino + e.offset + [e.dt] + Little(|e.name|, 2) + e.name
  }

  /** The payload: the entries one after the other. */
  function Payload(es: seq<Entry>): Bytes {
    if es == [] then [] else Wire(es[0]) + Payload(es[1..])
  }

  /** struct linux_dirent64: d_ino, d_off, d_reclen, d_type, d_name and its NUL. */
  function Dent(e: Entry, off: Bytes): Bytes {
    e.ino + off + Little(20 + |e.name|, 2) + [e.dt] + e.name + [0]
  }

  function Dents(es: seq<Entry>, off: Bytes): Bytes {
    if es == [] then [] else Dent(es[0], off) + Dents(es[1..], off)
  }

  /** The entries, each with the offset the directory was read from. */
  function Briefs(es: seq<Entry>, off: Bytes): seq<Brief> {
    if es == [] then [] else [Brief(es[0].ino, off, es[0].dt, es[0].name)] + Briefs(es[1..], off)
  }

  /** Sum of the records' lengths. */
  function RecLens(es: seq<Entry>): nat {
    if es == [] then 0 else 20 + |es[0].name| + RecLens(es[1..])
  }

  /** What user space reads: records chained by d_reclen, names up to the NUL. */
  function Parse(buf: Bytes): seq<Brief> {
    if |buf| < 20 then []
    else
      var reclen := Value(buf[16..18]);
      if reclen < 20 || reclen > |buf| then []
      else [Brief(buf[..8], buf[8..16], buf[18], CStr(buf, 19))] + Parse(buf[reclen..])
  }

  lemma {:induction false} Sizes(es: seq<Entry>, off: Bytes)
    requires AllOk(es) && |off| == 8
    ensures |Dents(es, off)| == RecLens(es) && RecLens(es) + 4 * |es| == |Payload(es)|
    decreases es
  {
    if es != [] {
      assert EntryOk(es[0]);
      Sizes(es[1..], off);
    }
  }

  /** One record at the front of a buffer is read back. */
  lemma ParseDent(e: Entry, off: Bytes, rest: Bytes)
    requires EntryOk(e) && |off| == 8 && 20 + |e.name| <= U16_MAX
    ensures Parse(Dent(e, off) + rest) == [Brief(e.ino, off, e.dt, e.name)] + Parse(rest)
  {
    var d, n := Dent(e, off), |e.name|;
    var buf := d + rest;
    assert |d| == 20 + n && buf[18] == e.dt;
    assert buf[..8] == e.ino;
    assert buf[16..18] == Little(20 + n, 2);
    assert Pow(2) == 0x1_0000;
    WordRoundTrip(20 + n, 2);
    assert buf[20 + n..] == rest;
    assert buf[19..19 + n] == e.name && buf[19 + n] == 0;
    assert buf[8..16] == off;
    CStrRead(buf, 19, e.name);
  }

  /** User space recovers the listing. */
  lemma {:induction false} ParseDents(es: seq<Entry>, off: Bytes)
    requires AllOk(es) && |off| == 8 && |Payload(es)| <= U16_MAX
    ensures Parse(Dents(es, off)) == Briefs(es, off)
    decreases es
  {
    if es != [] {
      Sizes(es[1..], off);
      Sizes(es, off);
      assert EntryOk(es[0]);
      ParseDents(es[1..], off);
      ParseDent(es[0], off, Dents(es[1..], off));
    }
  }

  /** The pieces of the first entry of a payload. */
  lemma WireParts(e: Entry, rest: Bytes)
    requires EntryOk(e)
    ensures var r := Wire(e) + rest;
            && |r| == 24 + |e.name| + |rest| && r[5..13] == e.ino && r[13..21] == e.offset && r[21] == e.dt
            && Value(r[22..24]) == |e.name| && r[24..24 + |e.name|] == e.name && r[24 + |e.name|..] == rest
  {
    var r := Wire(e) + rest;
    assert Pow(2) == 0x1_0000;
    WordRoundTrip(|e.name|, 2);
    assert r[22..24] == Little(|e.name|, 2);
  }

  /** The six writes of one record. */
  method PutDent(out: array<int>, w: nat, ino: Bytes, off: Bytes, reclen: nat, dt: int, name: Bytes)
    requires |ino| == |off| == 8 && w + 20 + |name| <= out.Length
    modifies out
    ensures out[..w + 20 + |name|] == old(out[..w]) + (ino + off + Little(reclen, 2) + [dt] + name + [0])
    ensures forall k :: w + 20 + |name| <= k < out.Length ==> out[k] == old(out[k])
  {
    var n := |name|;
    Copy(out, w, ino);
    Copy(out, w + 8, off);
    Copy(out, w + 16, Little(reclen, 2));
    Copy(out, w + 18, [dt]);
    Copy(out, w + 19, name);
    Copy(out, w + 19 + n, [0]);
  }

  /** One turn of the loop: an entry is consumed, its dirent produced. The 16-bit
      record length does not overflow. */
  method Transcode(out: array<int>, w: nat, rbuf: Bytes, offt: Bytes, ghost e: Entry, ghost rest: Bytes)
    returns (rbuf': Bytes, w': nat, dentOff: int)
    requires EntryOk(e) && rbuf == Wire(e) + rest && |offt| == 8
    requires |rbuf| <= U16_MAX && w + |rbuf| <= out.Length
    modifies out
    ensures rbuf' == rest && w' == w + 20 + |e.name| && dentOff == Value(e.offset)
    ensures w' <= out.Length && out[..w'] == old(out[..w]) + Dent(e, offt)
    ensures forall k :: w' <= k < out.Length ==> out[k] == old(out[k])
  {
    WireParts(e, rest);
    hide Wire, Little, Value;
    var ino := rbuf[5..13];
    dentOff := Value(rbuf[13..21]);
    var dt, nameLen := rbuf[21], Value(rbuf[22..24]);
    var reclen := (8 + 8 + 3 + nameLen + 1) % 0x1_0000;
    PutDent(out, w, ino, offt, reclen, dt, rbuf[24..24 + nameLen]);
    rbuf' := rbuf[24 + nameLen..];
    w' := w + reclen;
  }

  /** The offset of the last entry, or d when there is none. */
  function LastOffset(es: seq<Entry>, d: int): int {
    if es == [] then d else LastOffset(es[1..], Value(es[0].offset))
  }

  lemma {:induction false} LastOffsetIs(es: seq<Entry>, d: int)
    requires es != []
    ensures LastOffset(es, d) == Value(es[|es| - 1].offset)
    decreases es
  {
    if |es| > 1 {
      LastOffsetIs(es[1..], Value(es[0].offset));
    }
  }

  /** What is done, plus the dirents still to come, is all of them. */
  ghost predicate Halfway(done: Bytes, rbuf: Bytes, left: seq<Entry>, dentOff: int, off: Bytes, es: seq<Entry>) {
    && AllOk(left) && rbuf == Payload(left)
    && done + Dents(left, off) == Dents(es, off)
    && LastOffset(left, dentOff) == LastOffset(es, 0)
  }

  lemma Onward(done: Bytes, rbuf: Bytes, left: seq<Entry>, d: int, off: Bytes, es: seq<Entry>)
    requires Halfway(done, rbuf, left, d, off, es) && left != [] && |off| == 8
    ensures EntryOk(left[0]) && rbuf == Wire(left[0]) + Payload(left[1..])
    ensures Halfway(done + Dent(left[0], off), Payload(left[1..]), left[1..], Value(left[0].offset), off, es)
    ensures |rbuf| == 24 + |left[0].name| + |Payload(left[1..])|
  {
    assert EntryOk(left[0]);
    assert done + (Dent(left[0], off) + Dents(left[1..], off)) == (done + Dent(left[0], off)) + Dents(left[1..], off);
  }

  /** reply is the device's answer to Treaddir, None when it is not an Rreaddir. On
      success the buffer holds one dirent per entry, the count is the sum of their
      lengths and never exceeds the payload's, and the new offset is the last
      entry's. */
  method Getdents(out: array<int>, offt: Bytes, reply: Option<Bytes>, ghost es: seq<Entry>) returns (r: Option<(nat, int)>)
    requires |offt| == 8 && AllOk(es)
    requires reply.Some? ==> reply.value == Payload(es) && |reply.value| <= out.Length
    modifies out
    ensures r.None? <==> out.Length > 0xffff || reply.None?
    ensures r.None? ==> out[..] == old(out[..])
    ensures r.Some? ==> r.value.0 == RecLens(es) <= |reply.value| && r.value.1 == LastOffset(es, 0)
    ensures r.Some? ==> out[..r.value.0] == Dents(es, offt) && Parse(out[..r.value.0]) == Briefs(es, offt)
    ensures r.Some? ==> forall k :: r.value.0 <= k < out.Length ==> out[k] == old(out[k])
  {
    if out.Length > U16_MAX || reply.None? {
      return None;
    }
    var rbuf, w, dentOff := reply.value, 0, 0;
    Sizes(es, offt);
    ParseDents(es, offt);
    ghost var left := es;
    assert out[..0] + Dents(es, offt) == Dents(es, offt);
    assert Halfway(out[..w], rbuf, left, dentOff, offt, es);
    hide Halfway, Payload, Dents, RecLens, Wire, Dent, Parse, Briefs, EntryOk, Value, AllOk, LastOffset;
    while |rbuf| > 0
      invariant 0 <= w && w + |rbuf| <= out.Length && |rbuf| <= U16_MAX
      invariant Halfway(out[..w], rbuf, left, dentOff, offt, es)
      invariant forall k :: w <= k < out.Length ==> out[k] == old(out[k])
      decreases |rbuf|
    {
      LeftOver(out[..w], rbuf, left, dentOff, offt, es);
      Onward(out[..w], rbuf, left, dentOff, offt, es);
      rbuf, w, dentOff := Transcode(out, w, rbuf, offt, left[0], Payload(left[1..]));
      left := left[1..];
    }
    LeftOver(out[..w], rbuf, left, dentOff, offt, es);
    assert |out[..w]| == RecLens(es);
    return Some((w, dentOff));
  }

  /** The loop ends exactly when every entry is transcoded. */
  lemma LeftOver(done: Bytes, rbuf: Bytes, left: seq<Entry>, d: int, off: Bytes, es: seq<Entry>)
    requires Halfway(done, rbuf, left, d, off, es)
    ensures rbuf == [] <==> left == []
    ensures left == [] ==> done == Dents(es, off) && d == LastOffset(es, 0)
  {
  }
}
