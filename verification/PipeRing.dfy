/** The ring buffer of src/pipe.rs: write_inner, read_inner and a whole write against
    an unbounded first-in first-out queue of bytes. */
module PipeRing {
  import opened ByteStrings

  const N: nat := 4096
  const WRAP: nat := 0x1_0000_0000_0000_0000

  function Min(a: nat, b: nat): nat { if a <= b then a else b }

  /** The slot n places after slot r. */
  function At(r: nat, n: nat): (s: nat)
    requires r < N && n <= N
    ensures s < N
  {
    if r + n < N then r + n else r + n - N
  }

  /** wrapping_add on 64-bit counters. */
  function Advance(pos: nat, n: nat): (p: nat)
    ensures p < WRAP
  {
    (pos + n) % WRAP
  }

  /** Unreduced 64-bit counters step through the slots, and meet only when equal. */
  lemma Counter(pos: nat, n: nat)
    requires pos < WRAP && n <= 2 * N
    ensures Advance(pos, n) == if pos + n < WRAP then pos + n else pos + n - WRAP
    ensures n <= N ==> Advance(pos, n) % N == At(pos % N, n)
  {
    if pos + n >= WRAP {
      assert (pos + n) % WRAP == pos + n - WRAP;
      assert WRAP % N == 0;
    }
  }

  lemma CounterAdd(pos: nat, m: nat, n: nat)
    ensures Advance(Advance(pos, m), n) == Advance(pos, m + n)
  {}

  lemma AtInjective(r: nat, i: nat, j: nat)
    requires r < N && i < N && j < N
    ensures At(r, i) == At(r, j) <==> i == j
  {}

  lemma AtAdd(r: nat, u: nat, i: nat)
    requires r < N && u + i <= N
    ensures At(At(r, u), i) == At(r, u + i)
  {}

  /** The n slots from r on hold q. */
  ghost predicate Holds(buf: Bytes, r: nat, q: Bytes) {
    && |buf| == N && r < N && |q| <= N
    && forall j :: 0 <= j < |q| ==> buf[At(r, j)] == q[j]
  }

  /** buf' is buf with b stored from slot w on. */
  ghost predicate Stored(buf: Bytes, buf': Bytes, w: nat, b: Bytes) {
    && |buf| == |buf'| == N && w < N && |b| <= N
    && (forall i :: 0 <= i < |b| ==> buf'[At(w, i)] == b[i])
    && (forall s :: 0 <= s < N && buf'[s] != buf[s] ==> exists i :: 0 <= i < |b| && s == At(w, i))
  }

  lemma Appended(buf: Bytes, buf': Bytes, r: nat, q: Bytes, b: Bytes)
    requires Holds(buf, r, q) && |q| + |b| <= N && Stored(buf, buf', At(r, |q|), b)
    ensures Holds(buf', r, q + b)
  {
    forall j | 0 <= j < |q| + |b|
      ensures buf'[At(r, j)] == (q + b)[j]
    {
      if j >= |q| {
        AtAdd(r, |q|, j - |q|);
      } else {
        forall i | 0 <= i < |b|
          ensures At(At(r, |q|), i) != At(r, j)
        {
          AtAdd(r, |q|, i);
          AtInjective(r, |q| + i, j);
        }
      }
    }
  }

  lemma Dropped(buf: Bytes, r: nat, q: Bytes, n: nat)
    requires Holds(buf, r, q) && n <= |q|
    ensures Holds(buf, At(r, n), q[n..])
  {
    forall j | 0 <= j < |q| - n
      ensures buf[At(At(r, n), j)] == q[n..][j]
    {
      AtAdd(r, n, j);
    }
  }

  /** The free space that write_inner computes with the write position u bytes ahead:
      never none. */
  lemma Space(pos: nat, u: nat)
    requires pos < WRAP && u < WRAP
    ensures var r, w := pos % N, Advance(pos, u) % N;
            (if w >= r then N - w + r else r - w) == N - u % N
  {
    if pos + u >= WRAP {
      assert Advance(pos, u) == pos + u - WRAP && WRAP % N == 0;
    }
  }

  /** Two counters less than 2^64 ahead of a third are equal only when equally far
      ahead. */
  lemma CountersApart(pos: nat, m: nat, n: nat)
    requires pos < WRAP && m < WRAP && n < WRAP
    ensures Advance(pos, m) == Advance(pos, n) <==> m == n
    ensures Advance(pos, m) == pos <==> m == 0
  {
    assert Advance(pos, m) == if pos + m < WRAP then pos + m else pos + m - WRAP;
    assert Advance(pos, n) == if pos + n < WRAP then pos + n else pos + n - WRAP;
  }

  /** The length of the last of the chunks of N bytes that m bytes make. */
  function LastChunk(m: nat): nat
    requires m > 0
  {
    (m - 1) % N + 1
  }

  /** From the first transfer on, the write position is a multiple of N ahead. */
  lemma ChunkStep(m: nat, u: nat, first: nat)
    requires first <= N
    ensures 0 < m <= N ==> LastChunk(m) == m
    ensures m > N ==> LastChunk(m - N) == LastChunk(m)
    ensures (u + (N - u % N)) % N == 0 && (u % N == 0 ==> N - u % N == N) && 0 < N - u % N <= N
    ensures N - first % N == if first < N then N - first else N
  {
    assert (u - u % N) % N == 0;
  }

  class Pipe {
    const buf: array<int>
    var rpos: nat
    var wpos: nat
    var empty: bool
    var full: bool

    /** The pipe holds the bytes q, oldest first. */
    ghost predicate Fifo(q: Bytes)
      reads this, buf
    {
      && buf.Length == N && rpos < WRAP && wpos == Advance(rpos, |q|)
      && Holds(buf[..], rpos % N, q) && (empty <==> q == []) && !full
    }

    constructor ()
      ensures Fifo([]) && fresh(buf)
    {
      buf := new int[N](_ => 0);
      rpos, wpos, empty, full := 0, 0, true, false;
    }

    /** The copying of write_inner: what fits, first up to the end of the buffer or
        the read position, then from the start. */
    method Store(b: Bytes) returns (n: nat)
      requires buf.Length == N
      modifies buf
      ensures var r, w := rpos % N, wpos % N;
              && n == Min(|b|, if w >= r then N - w + r else r - w)
              && Stored(old(buf[..]), buf[..], w, b[..n])
    {
      var r, w := rpos % N, wpos % N;
      var m := Min(|b|, if w >= r then N - w else r - w);
      Copy(buf, w, b[..m]);
      n := m;
      var m2 := 0;
      if w >= r && |b| > m {
        m2 := Min(|b| - m, r);
        Copy(buf, 0, b[m..m + m2]);
        n := m + m2;
      }
      StoredParts(old(buf[..]), buf[..], w, b, m, m2);
    }

    /** The write position is u bytes ahead of the read position. */
    ghost predicate Ahead(u: nat)
      reads this
    {
      buf.Length == N && rpos < WRAP && u < WRAP && wpos == Advance(rpos, u)
    }

    /** Marked both full and empty: neither side can make progress. */
    ghost predicate Jammed()
      reads this
    {
      Ahead(0) && full && empty
    }

    /** write_inner, whatever the pipe holds: unless it is marked full it takes bytes up
        to the next multiple of the buffer's size, and it marks the pipe full only
        if both positions are equal. */
    method Push(b: Bytes, ghost u: nat) returns (n: nat)
      requires Ahead(u) && u + Min(|b|, N) < WRAP
      modifies this, buf
      ensures n == (if old(full) then 0 else Min(|b|, N - u % N)) && Ahead(u + n) && rpos == old(rpos)
      ensures Stored(old(buf[..]), buf[..], old(wpos) % N, b[..n])
      ensures (full <==> old(full) || u + n == 0) && (empty <==> old(empty) && n == 0)
    {
      Space(rpos, u);
      assert Stored(buf[..], buf[..], wpos % N, b[..0]);
      hide Stored, At;
      n := 0;
      if !full {
        n := Store(b);
      }
      CounterAdd(rpos, u, n);
      hide Advance;
      wpos := Advance(wpos, n);
      CountersApart(rpos, u + n, 0);
      if wpos == rpos {
        full := true;
      }
      if n > 0 {
        empty := false;
      }
    }

    /** write_inner appends what fits. It keeps the pipe a queue exactly when the
        pipe is neither empty with nothing to write, which marks it full, nor full
        with something to write, which overwrites unread bytes. */
    method WriteInner(b: Bytes, ghost q: Bytes) returns (n: nat)
      requires Fifo(q)
      modifies this, buf
      ensures n == Min(|b|, if |q| < 4096 then 4096 - |q| else 4096)
      ensures q + b != [] && (|q| < 4096 || b == []) ==> Fifo(q + b[..n])
      ensures !(q + b != [] && (|q| < 4096 || b == [])) ==> forall q' :: !Fifo(q')
    {
      Counter(rpos, |q|);
      hide Stored, At, Advance, Holds;
      n := Push(b, |q|);
      if |q| < N || b == [] {
        Appended(old(buf[..]), buf[..], rpos % N, q, b[..n]);
      }
      NoOtherQueue(|q| + n);
    }

    /** A queue of the pipe is as long as the write position is ahead. */
    lemma NoOtherQueue(u: nat)
      requires Ahead(u)
      ensures forall q :: Fifo(q) ==> |q| == u
    {
      forall q | Fifo(q)
        ensures |q| == u
      {
        CountersApart(rpos, u, |q|);
      }
    }

    /** Pipe::write, which never has to wait on a pipe that is a queue: with a reader
        it leaves the queue q + b exactly when that is neither empty nor longer than
        the buffer, and otherwise no queue at all. The result is the length of the
        last transfer, which is all of b exactly when one transfer was enough. No
        slice is longer than isize::MAX. */
    method Write(b: Bytes, readers: nat, ghost q: Bytes) returns (cnt: nat)
      requires Fifo(q) && |b| <= 0x7fff_ffff_ffff_ffff
      modifies this, buf
      ensures readers == 0 ==> Fifo(q) && cnt == |b|
      ensures readers > 0 && q + b != [] && |q| + |b| <= 4096 ==> Fifo(q + b)
      ensures readers > 0 && !(q + b != [] && |q| + |b| <= 4096) ==> forall q' :: !Fifo(q')
      ensures readers > 0 && q + b == [] ==> Jammed()
      ensures readers > 0 ==> var m := 4096 - |q| % 4096; cnt == if |b| <= m then |b| else LastChunk(|b| - m)
    {
      if readers == 0 {
        return |b|;
      }
      var rest := b;
      ghost var u: nat := |q|;
      hide Stored, At, Advance, Holds, LastChunk;
      while true
        invariant Ahead(u) && !full && u + |rest| == |q| + |b|
        invariant if u == |q| then rest == b && Fifo(q)
                  else u % N == 0 && u > |q| && 0 < |rest| < |b| && LastChunk(|rest|) == LastChunk(|b| - (N - |q| % N))
        decreases |rest|
      {
        ghost var first := u == |q|;
        if first {
          Counter(rpos, |q|);
        }
        ghost var was := buf[..];
        ChunkStep(|rest|, u, |q|);
        var n := Push(rest, u);
        if first && (|q| < N || b == []) {
          Appended(was, buf[..], rpos % N, q, b[..n]);
        }
        u := u + n;
        if n == |rest| {
          break;
        }
        rest := rest[n..];
      }
      NoOtherQueue(u);
      return |rest|;
    }

    /** read_inner takes the oldest bytes, as many as there are or as fit; from a jammed
        pipe nothing. */
    method ReadInner(out: array<int>, ghost q: Bytes) returns (n: nat)
      requires (Fifo(q) || (Jammed() && q == [])) && out != buf
      modifies this, out
      ensures n == Min(out.Length, |q|) && if old(full) then Jammed() else Fifo(q[n..])
      ensures out[..n] == q[..n] && forall k :: n <= k < out.Length ==> out[k] == old(out[k])
    {
      Counter(rpos, |q|);
      hide At, Advance, Holds;
      n := Fetch(out, q);
      Counter(rpos, n);
      CounterAdd(rpos, n, |q| - n);
      if Holds(buf[..], rpos % N, q) {
        Dropped(buf[..], rpos % N, q, n);
      }
      rpos := Advance(rpos, n);
      CountersApart(rpos, |q| - n, 0);
      if wpos == rpos {
        empty := true;
      }
      if n > 0 {
        full := false;
      }
    }

    /** The copying of read_inner. */
    method Fetch(out: array<int>, ghost q: Bytes) returns (n: nat)
      requires (Fifo(q) || (Jammed() && q == [])) && out != buf && wpos % N == At(rpos % N, |q|)
      modifies out
      ensures n == Min(out.Length, |q|)
      ensures out[..n] == q[..n] && forall k :: n <= k < out.Length ==> out[k] == old(out[k])
    {
      n := 0;
      if empty {
        return;
      }
      var r, w := rpos % N, wpos % N;
      var m := Min(out.Length, if r >= w then N - r else w - r);
      ghost var data: Bytes := buf[..];
      Copy(out, 0, buf[r..r + m]);
      n := m;
      if r >= w && out.Length > m {
        var m2 := Min(out.Length - m, w);
        Copy(out, m, buf[..m2]);
        n := m + m2;
      }
      assert buf[..] == data;
      forall k | 0 <= k < n
        ensures out[k] == q[k]
      {
        assert data[At(r, k)] == q[k];
      }
    }
  }

  lemma StoredParts(buf: Bytes, buf': Bytes, w: nat, b: Bytes, m: nat, m2: nat)
    requires |buf| == |buf'| == N && w < N && m + m2 <= |b| && w + m <= N && m2 <= w && (m2 > 0 ==> w + m == N)
    requires forall k :: 0 <= k < N ==>
      buf'[k] == if k < m2 then b[m + k] else if w <= k < w + m then b[k - w] else buf[k]
    ensures Stored(buf, buf', w, b[..m + m2])
  {
    var c := b[..m + m2];
    forall s | 0 <= s < N && buf'[s] != buf[s]
      ensures exists i :: 0 <= i < |c| && s == At(w, i)
    {
      var i := if s < m2 then m + s else s - w;
      assert s == At(w, i);
    }
  }

  /** One byte more than the buffer holds, written to an empty pipe, leaves no queue. */
  method WriteTooMuch(b: Bytes) returns (p: Pipe, cnt: nat)
    requires |b| == 4097
    ensures forall q :: !p.Fifo(q)
    ensures cnt == 1
  {
    p := new Pipe();
    cnt := p.Write(b, 1, []);
  }

  /** So does a write of nothing, after which no byte passes in either direction. */
  method WriteNothing(b: Bytes, out: array<int>) returns (p: Pipe, n: nat, m: nat)
    modifies out
    ensures n == 0 && m == 0 && p.Jammed()
    ensures forall q :: !p.Fifo(q)
  {
    p := new Pipe();
    var cnt := p.Write([], 1, []);
    n := p.Push(b, 0);
    m := p.ReadInner(out, []);
  }
}
