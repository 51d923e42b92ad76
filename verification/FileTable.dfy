/** Open files, pipes and the tasks' descriptors: the reference counting of src/fs.rs,
    src/pipe.rs and src/sched.rs. */
module FileTable {
  import opened Frames

  const NFILES: nat := 128
  const NTASKS: nat := 8
  const NFDS: nat := 8

  datatype Kind = Nothing | P9 | Console | Pipe
  /** readers and writers are the pipe's counts, zero for other kinds. */
  datatype File = File(kind: Kind, rc: nat, readers: nat, writers: nat)
  datatype FD = FD(file: nat, read: bool, write: bool)
  /** A descriptor is a task and a position in its table. */
  type Key = (nat, nat)
  type Fds = map<Key, FD>

  // --------------------------------------------------------------- the counting

  ghost function Names(fds: Fds, f: nat): set<Key> { set k | k in fds && fds[k].file == f }
  ghost function Readers(fds: Fds, f: nat): set<Key> { set k | k in fds && fds[k].file == f && fds[k].read }
  ghost function Writers(fds: Fds, f: nat): set<Key> { set k | k in fds && fds[k].file == f && fds[k].write }

  /** A file's counts are the live descriptors naming it. */
  ghost predicate FileOk(file: File, fds: Fds, f: nat) {
    && file.rc == |Names(fds, f)|
    && (file.kind == Nothing ==> Names(fds, f) == {})
    && (file.kind == Pipe ==> file.readers == |Readers(fds, f)| && file.writers == |Writers(fds, f)| && OneSided(fds, f))
  }

  /** A pipe's descriptors either read or write. */
  ghost predicate OneSided(fds: Fds, f: nat) {
    forall k :: k in fds && fds[k].file == f ==> fds[k].read != fds[k].write
  }

  ghost predicate KeyOk(k: Key) { k.0 < NTASKS && k.1 < NFDS }

  ghost predicate Inv(files: seq<File>, fds: Fds) {
    && |files| == NFILES
    && (forall k :: k in fds ==> fds[k].file < NFILES)
    && forall f :: 0 <= f < NFILES ==> FileOk(files[f], fds, f)
  }

  /** One more descriptor. */
  lemma AddName(fds: Fds, k: Key, fd: FD, f: nat)
    requires k !in fds
    ensures Names(fds[k := fd], f) == Names(fds, f) + (if fd.file == f then {k} else {})
    ensures Readers(fds[k := fd], f) == Readers(fds, f) + (if fd.file == f && fd.read then {k} else {})
    ensures Writers(fds[k := fd], f) == Writers(fds, f) + (if fd.file == f && fd.write then {k} else {})
    ensures k !in Names(fds, f) && k !in Readers(fds, f) && k !in Writers(fds, f)
  {
  }

  /** One descriptor less. */
  lemma DropName(fds: Fds, k: Key, f: nat)
    requires k in fds
    ensures Names(fds, f) == Names(fds - {k}, f) + (if fds[k].file == f then {k} else {})
    ensures Readers(fds, f) == Readers(fds - {k}, f) + (if fds[k].file == f && fds[k].read then {k} else {})
    ensures Writers(fds, f) == Writers(fds - {k}, f) + (if fds[k].file == f && fds[k].write then {k} else {})
    ensures k !in Names(fds - {k}, f) && k !in Readers(fds - {k}, f) && k !in Writers(fds - {k}, f)
  {
    AddName(fds - {k}, k, fds[k], f);
    assert (fds - {k})[k := fds[k]] == fds;
  }

  lemma AddCount(fds: Fds, k: Key, fd: FD, f: nat)
    requires k !in fds
    ensures |Names(fds[k := fd], f)| == |Names(fds, f)| + (if fd.file == f then 1 else 0)
    ensures |Readers(fds[k := fd], f)| == |Readers(fds, f)| + (if fd.file == f && fd.read then 1 else 0)
    ensures |Writers(fds[k := fd], f)| == |Writers(fds, f)| + (if fd.file == f && fd.write then 1 else 0)
  {
    AddName(fds, k, fd, f);
    hide Names, Readers, Writers;
  }

  lemma DropCount(fds: Fds, k: Key, f: nat)
    requires k in fds
    ensures |Names(fds, f)| == |Names(fds - {k}, f)| + (if fds[k].file == f then 1 else 0)
    ensures |Readers(fds, f)| == |Readers(fds - {k}, f)| + (if fds[k].file == f && fds[k].read then 1 else 0)
    ensures |Writers(fds, f)| == |Writers(fds - {k}, f)| + (if fds[k].file == f && fds[k].write then 1 else 0)
  {
    DropName(fds, k, f);
    hide Names, Readers, Writers;
  }

  /** A pipe's readers and writers add up to its reference count. */
  lemma PipeSum(files: seq<File>, fds: Fds, f: nat)
    requires Inv(files, fds) && f < NFILES && files[f].kind == Pipe
    ensures files[f].rc == files[f].readers + files[f].writers
  {
    assert FileOk(files[f], fds, f);
    assert Names(fds, f) == Readers(fds, f) + Writers(fds, f) && Readers(fds, f) !! Writers(fds, f);
  }

  // ----------------------------------------------------------------- dup, close

  function DupFile(file: File, fd: FD): File {
    var file' := file.(rc := file.rc + 1);
    if file.kind == Pipe then
      file'.(readers := file.readers + (if fd.read then 1 else 0), writers := file.writers + (if fd.write then 1 else 0))
    else file'
  }

  lemma DupOk(file: File, fds: Fds, k: Key, fd: FD)
    requires k !in fds && FileOk(file, fds, fd.file) && file.kind != Nothing
    requires file.kind == Pipe ==> fd.read != fd.write
    ensures FileOk(DupFile(file, fd), fds[k := fd], fd.file)
  {
    AddCount(fds, k, fd, fd.file);
    assert OneSided(fds, fd.file) && fd.read != fd.write ==> OneSided(fds[k := fd], fd.file);
    hide Names, Readers, Writers, OneSided;
  }

  lemma DupElsewhere(file: File, fds: Fds, k: Key, fd: FD, f: nat)
    requires k !in fds && FileOk(file, fds, f) && fd.file != f
    ensures FileOk(file, fds[k := fd], f)
  {
    AddName(fds, k, fd, f);
    hide Names, Readers, Writers;
  }

  /** The pipe's own close must not underflow, nor may a closed slot be closed. */
  predicate CanClose(file: File, fd: FD) {
    && (file.kind == Nothing ==> file.rc == 0)
    && (file.kind == Pipe && file.rc > 0 ==> fd.read != fd.write && (if fd.read then file.readers > 0 else file.writers > 0))
  }

  /** File::close; clunk is the 9p server's answer to the clunk that the last close
      of a 9p file sends. A refusal fails an unwrap: None is that panic. */
  function CloseFile(file: File, fd: FD, clunk: bool): Option<File>
    requires CanClose(file, fd)
  {
    if file.rc == 0 then Some(file)
    else
      var file' :=
        if file.kind != Pipe then file
        else if fd.read then file.(readers := file.readers - 1) else file.(writers := file.writers - 1);
      if file.rc == 1 && file.kind == P9 then (if clunk then Some(file'.(kind := Nothing, rc := 0)) else None)
      else Some(file'.(rc := file.rc - 1))
  }

  /** k is the last descriptor of a 9p file. */
  ghost predicate LastOf9p(files: seq<File>, fds: Fds, k: Key)
    requires |files| == NFILES && k in fds && fds[k].file < NFILES
  {
    files[fds[k].file].kind == P9 && |Names(fds, fds[k].file)| == 1
  }

  /** Closing a live descriptor never underflows a count; it panics exactly on the
      last descriptor of a 9p file that the server will not clunk. */
  lemma CloseOk(file: File, fds: Fds, k: Key, clunk: bool)
    requires k in fds && FileOk(file, fds, fds[k].file)
    ensures CanClose(file, fds[k])
    ensures var r := CloseFile(file, fds[k], clunk);
            && (r.None? <==> !clunk && file.kind == P9 && |Names(fds, fds[k].file)| == 1)
            && (r.Some? ==> r.value.kind == if file.kind == P9 && |Names(fds, fds[k].file)| == 1 then Nothing else file.kind)
            && (r.Some? ==> FileOk(r.value, fds - {k}, fds[k].file))
  {
    DropCount(fds, k, fds[k].file);
    assert Names(fds - {k}, fds[k].file) == {} <==> |Names(fds - {k}, fds[k].file)| == 0;
    assert OneSided(fds, fds[k].file) ==> fds[k].read != fds[k].write && OneSided(fds - {k}, fds[k].file);
    hide Names, Readers, Writers, OneSided;
  }

  lemma CloseElsewhere(file: File, fds: Fds, k: Key, f: nat)
    requires k in fds && FileOk(file, fds, f) && fds[k].file != f
    ensures FileOk(file, fds - {k}, f)
  {
    DropName(fds, k, f);
    hide Names, Readers, Writers;
  }

  /** Moving a descriptor to another key changes no count. */
  lemma MoveOk(file: File, fds: Fds, k: Key, to: Key, f: nat)
    requires k in fds && to !in fds && FileOk(file, fds, f)
    ensures FileOk(file, (fds - {k})[to := fds[k]], f)
  {
    DropCount(fds, k, f);
    AddCount(fds - {k}, to, fds[k], f);
    var fds' := (fds - {k})[to := fds[k]];
    assert Names(fds', f) == {} <==> |Names(fds', f)| == 0;
    assert OneSided(fds, f) ==> OneSided(fds', f);
    hide Names, Readers, Writers, OneSided;
  }

  lemma DupKeeps(files: seq<File>, fds: Fds, from: Key, fd: FD, k: Key)
    requires Inv(files, fds) && from in fds && fds[from].file == fd.file && k !in fds
    requires files[fd.file].kind == Pipe ==> fd.read != fd.write
    ensures Inv(files[fd.file := DupFile(files[fd.file], fd)], fds[k := fd])
  {
    var files', fds' := files[fd.file := DupFile(files[fd.file], fd)], fds[k := fd];
    assert FileOk(files[fd.file], fds, fd.file) && from in Names(fds, fd.file);
    DupOk(files[fd.file], fds, k, fd);
    hide FileOk;
    forall f | 0 <= f < NFILES
      ensures FileOk(files'[f], fds', f)
    {
      if f != fd.file { DupElsewhere(files[f], fds, k, fd, f); }
    }
  }

  /** Any live descriptor of a pipe can be duplicated. */
  lemma Sided(files: seq<File>, fds: Fds, k: Key)
    requires Inv(files, fds) && k in fds
    ensures files[fds[k].file].kind == Pipe ==> fds[k].read != fds[k].write
  {
    assert FileOk(files[fds[k].file], fds, fds[k].file);
  }

  /** Closing k vacates its file's slot exactly when it was the last descriptor of a
      9p file; every other slot keeps its file. */
  ghost predicate Unlinked(files: seq<File>, fds: Fds, k: Key, files': seq<File>) {
    && k in fds && |files'| == |files| == NFILES && fds[k].file < NFILES
    && forall f :: 0 <= f < NFILES ==>
         files'[f].kind == if f == fds[k].file && LastOf9p(files, fds, k) then Nothing else files[f].kind
  }

  lemma CloseKeeps(files: seq<File>, fds: Fds, k: Key, clunk: bool)
    requires Inv(files, fds) && k in fds
    ensures CanClose(files[fds[k].file], fds[k])
    ensures var r := CloseFile(files[fds[k].file], fds[k], clunk);
            && (r.None? <==> !clunk && LastOf9p(files, fds, k))
            && (r.Some? ==> var files' := files[fds[k].file := r.value];
                            Inv(files', fds - {k}) && Unlinked(files, fds, k, files'))
  {
    var fd := fds[k];
    assert FileOk(files[fd.file], fds, fd.file);
    CloseOk(files[fd.file], fds, k, clunk);
    var r := CloseFile(files[fd.file], fd, clunk);
    hide FileOk, CloseFile, Names;
    if r.Some? {
      var files' := files[fd.file := r.value];
      forall f | 0 <= f < NFILES
        ensures FileOk(files'[f], fds - {k}, f)
      {
        if f != fd.file { CloseElsewhere(files[f], fds, k, f); }
      }
    }
  }

  lemma MoveKeeps(files: seq<File>, fds: Fds, k: Key, to: Key)
    requires Inv(files, fds) && k in fds && to !in fds
    ensures Inv(files, (fds - {k})[to := fds[k]])
  {
    hide FileOk;
    forall f | 0 <= f < NFILES
      ensures FileOk(files[f], (fds - {k})[to := fds[k]], f)
    {
      MoveOk(files[f], fds, k, to, f);
    }
  }

  /** A new file in an unused slot, with its first descriptor. */
  lemma OpenKeeps(files: seq<File>, fds: Fds, f: nat, file: File, k: Key, fd: FD)
    requires Inv(files, fds) && f < NFILES && files[f].kind == Nothing && k !in fds && fd.file == f
    requires file.kind != Nothing && file.rc == 1
    requires file.kind == Pipe ==> fd.read && !fd.write && file.readers == 1 && file.writers == 0
    ensures Inv(files[f := file], fds[k := fd])
    ensures forall j :: j in fds ==> fds[j].file != f
  {
    assert FileOk(files[f], fds, f);
    forall j | j in fds
      ensures fds[j].file != f
    {
      assert j in Names(fds, f) <==> fds[j].file == f;
    }
    AddName(fds, k, fd, f);
    assert Readers(fds, f) == {} && Writers(fds, f) == {};
    assert FileOk(file, fds[k := fd], f);
    hide FileOk, Names, Readers, Writers;
    var files' := files[f := file];
    forall g | 0 <= g < NFILES
      ensures FileOk(files'[g], fds[k := fd], g)
    {
      if g != f { DupElsewhere(files[g], fds, k, fd, g); }
    }
  }

  // ----------------------------------------------------------------------- exit

  /** The file is named, and only by the first n descriptors of task t. */
  ghost predicate OnlyBy(fds: Fds, t: nat, f: nat, n: nat) {
    Names(fds, f) != {} && forall k :: k in fds && fds[k].file == f ==> k.0 == t && k.1 < n
  }

  /** Closing t's descriptors in order, the i-th is the last of a 9p file, and the
      server will not clunk it. */
  ghost predicate RefusedLast(files: seq<File>, fds: Fds, t: nat, i: nat, clunks: seq<bool>)
    requires |files| == NFILES && i < |clunks|
  {
    && (t, i) in fds && fds[(t, i)].file < NFILES && !clunks[i]
    && files[fds[(t, i)].file].kind == P9 && OnlyBy(fds, t, fds[(t, i)].file, i + 1)
  }

  /** The descriptors left when task t has closed its first i. */
  ghost function Left(fds: Fds, t: nat, i: nat): Fds {
    map k: Key | k in fds && !(k.0 == t && k.1 < i) :: fds[k]
  }

  /** The slots' kinds when task t has closed its first i descriptors. */
  ghost predicate Vacated(files: seq<File>, fds: Fds, t: nat, i: nat, files': seq<File>) {
    && |files'| == |files| == NFILES
    && forall f :: 0 <= f < NFILES ==>
         files'[f].kind == if files[f].kind == P9 && OnlyBy(fds, t, f, i) then Nothing else files[f].kind
  }

  lemma LeftNext(fds: Fds, t: nat, i: nat)
    ensures Left(fds, t, i + 1) == Left(fds, t, i) - {(t, i)}
    ensures (t, i) in Left(fds, t, i) <==> (t, i) in fds
  {}

  /** When its turn comes a descriptor is the file's last exactly if the file is named
      only by it and its predecessors. */
  lemma LastLeft(fds: Fds, t: nat, i: nat)
    requires (t, i) in fds
    ensures |Names(Left(fds, t, i), fds[(t, i)].file)| == 1 <==> OnlyBy(fds, t, fds[(t, i)].file, i + 1)
  {
    var f, left := fds[(t, i)].file, Left(fds, t, i);
    var names := Names(left, f);
    assert (t, i) in names && (t, i) in Names(fds, f);
    assert |names - {(t, i)}| == |names| - 1;
    assert |names| == 1 ==> names - {(t, i)} == {};
    if names - {(t, i)} == {} {
      forall k | k in fds && fds[k].file == f
        ensures k.0 == t && k.1 < i + 1
      {
        assert k in left ==> k in names;
      }
    } else {
      var k :| k in names - {(t, i)};
      assert k in fds && fds[k].file == f && !(k.0 == t && k.1 < i + 1);
    }
  }

  /** A file that t's i-th descriptor does not name is not affected by its closing. */
  lemma OnlyByNext(fds: Fds, t: nat, i: nat, f: nat)
    requires (t, i) in fds ==> fds[(t, i)].file != f
    ensures OnlyBy(fds, t, f, i + 1) <==> OnlyBy(fds, t, f, i)
  {
    if OnlyBy(fds, t, f, i + 1) {
      forall k | k in fds && fds[k].file == f
        ensures k.1 < i
      {
        assert k != (t, i);
      }
    }
  }

  lemma VacatedNext(files: seq<File>, fds: Fds, t: nat, i: nat, files': seq<File>, files'': seq<File>)
    requires Inv(files, fds) && (t, i) in fds && Vacated(files, fds, t, i, files')
    requires Unlinked(files', Left(fds, t, i), (t, i), files'')
    ensures Vacated(files, fds, t, i + 1, files'')
    ensures LastOf9p(files', Left(fds, t, i), (t, i)) <==>
            files[fds[(t, i)].file].kind == P9 && OnlyBy(fds, t, fds[(t, i)].file, i + 1)
  {
    StillNamed(files, fds, t, i, files');
    var g := fds[(t, i)].file;
    hide Names, OnlyBy, Inv;
    forall f | 0 <= f < NFILES
      ensures files''[f].kind == if files[f].kind == P9 && OnlyBy(fds, t, f, i + 1) then Nothing else files[f].kind
    {
      if f != g { OnlyByNext(fds, t, i, f); }
    }
  }

  lemma StillNamed(files: seq<File>, fds: Fds, t: nat, i: nat, files': seq<File>)
    requires Inv(files, fds) && (t, i) in fds && Vacated(files, fds, t, i, files')
    ensures (t, i) in Left(fds, t, i) && Left(fds, t, i)[(t, i)] == fds[(t, i)]
    ensures files'[fds[(t, i)].file].kind == files[fds[(t, i)].file].kind
    ensures LastOf9p(files', Left(fds, t, i), (t, i)) <==>
            files[fds[(t, i)].file].kind == P9 && OnlyBy(fds, t, fds[(t, i)].file, i + 1)
  {
    LastLeft(fds, t, i);
    assert !OnlyBy(fds, t, fds[(t, i)].file, i);
  }

  // ------------------------------------------------------------------ the table

  /** Task t's descriptor table is full. */
  ghost predicate NoFd(fds: Fds, t: nat) { forall i :: 0 <= i < NFDS ==> (t, i) in fds }

  /** At most one descriptor of task t is unused. */
  ghost predicate AtMostOneFd(fds: Fds, t: nat) {
    forall i, j :: 0 <= i < NFDS && 0 <= j < NFDS && (t, i) !in fds && (t, j) !in fds ==> i == j
  }

  /** i is the lowest unused of the eight descriptors of task t. */
  ghost predicate LowestFd(fds: Fds, t: nat, i: nat) {
    i < 8 && (t, i) !in fds && forall j :: 0 <= j < i ==> (t, j) in fds
  }

  /** f is the lowest unused slot of the file table. */
  ghost predicate LowestSlot(files: seq<File>, f: nat) {
    f < |files| && files[f].kind == Nothing && forall g :: 0 <= g < f ==> files[g].kind != Nothing
  }

  /** Every slot keeps its kind. */
  ghost predicate SameKinds(files: seq<File>, files': seq<File>) {
    |files| == |files'| && forall f :: 0 <= f < |files| ==> files'[f].kind == files[f].kind
  }

  /** The file table is full. */
  ghost predicate NoSlot(files: seq<File>) { forall f :: 0 <= f < 128 ==> f < |files| && files[f].kind != Nothing }

  /** What comes of p9::open: a file, a refusal, or a clunk that fails its unwrap. */
  datatype OpenAnswer = Granted | Refused | ClunkRefused

  datatype Reply<T> = Done(value: T) | Failed | Panicked

  class Table {
    var files: seq<File>
    var fds: Fds

    ghost predicate Valid()
      reads this
    {
      Inv(files, fds) && forall k :: k in fds ==> KeyOk(k)
    }

    constructor ()
      ensures Valid() && fds == map[]
    {
      files := seq(NFILES, _ => File(Nothing, 0, 0, 0));
      fds := map[];
      new;
      assert forall f :: Names(map[], f) == {};
    }

    /** alloc_file of src/fs.rs: the lowest unused slot. */
    method AllocSlot() returns (r: Option<nat>)
      requires |files| == NFILES
      ensures r.None? <==> NoSlot(files)
      ensures r.Some? ==> r.value < NFILES && files[r.value].kind == Nothing
      ensures r.Some? ==> forall f :: 0 <= f < r.value ==> files[f].kind != Nothing
    {
      for i := 0 to NFILES
        invariant forall f :: 0 <= f < i ==> files[f].kind != Nothing
      {
        if files[i].kind == Nothing {
          return Some(i);
        }
      }
      return None;
    }

    /** The lowest unused descriptor of task t. */
    method AllocFd(t: nat) returns (r: Option<nat>)
      ensures r.None? <==> NoFd(fds, t)
      ensures r.Some? ==> r.value < NFDS && (t, r.value) !in fds && forall i :: 0 <= i < r.value ==> (t, i) in fds
    {
      for i := 0 to NFDS
        invariant forall j :: 0 <= j < i ==> (t, j) in fds
      {
        if (t, i) !in fds {
          return Some(i);
        }
      }
      return None;
    }

    /** openat with the 9p server's answer. The file goes into a slot that no
        descriptor names; a clunk refused on the way, after a failed open or behind a
        symbolic link, panics. */
    method OpenAt(t: nat, answer: OpenAnswer) returns (r: Reply<nat>)
      requires Valid() && t < NTASKS
      modifies this
      ensures r.Panicked? <==> !NoFd(old(fds), t) && !NoSlot(old(files)) && answer.ClunkRefused?
      ensures r.Failed? <==> NoFd(old(fds), t) || NoSlot(old(files)) || answer.Refused?
      ensures r.Failed? ==> files == old(files) && fds == old(fds)
      ensures !r.Panicked? ==> Valid()
      ensures r.Done? ==> LowestFd(old(fds), t, r.value) && (t, r.value) in fds
      ensures r.Done? ==> fds == old(fds)[(t, r.value) := FD(fds[(t, r.value)].file, true, true)]
      ensures r.Done? ==> forall k :: k in old(fds) ==> old(fds)[k].file != fds[(t, r.value)].file
      ensures r.Done? ==> var f := fds[(t, r.value)].file;
                          LowestSlot(old(files), f) && files == old(files)[f := files[f]] && files[f].kind == P9
    {
      var i := AllocFd(t);
      if i.None? {
        return Failed;
      }
      var f := AllocSlot();
      if f.None? || answer.Refused? {
        return Failed;
      }
      if answer.ClunkRefused? {
        return Panicked;
      }
      OpenKeeps(files, fds, f.value, File(P9, 1, 0, 0), (t, i.value), FD(f.value, true, true));
      hide Inv;
      files := files[f.value := File(P9, 1, 0, 0)];
      fds := fds[(t, i.value) := FD(f.value, true, true)];
      return Done(i.value);
    }

    /** The last descriptor of a 9p file that the server will not clunk. */
    ghost predicate Stuck(k: Key, clunk: bool)
      requires Inv(files, fds) && k in fds
      reads this
    {
      !clunk && LastOf9p(files, fds, k)
    }

    /** close. A descriptor one past the table panics, because the bound is not
        strict, and so does a refused clunk. */
    method Close(t: nat, fd: nat, clunk: bool) returns (r: Reply<nat>)
      requires Valid() && t < NTASKS
      modifies this
      ensures r.Panicked? <==> fd == 8 || ((t, fd) in old(fds) && old(Stuck((t, fd), clunk)))
      ensures r.Failed? <==> fd != 8 && (t, fd) !in old(fds)
      ensures r.Failed? ==> files == old(files) && fds == old(fds)
      ensures !r.Panicked? ==> Valid()
      ensures r.Done? ==> fds == old(fds) - {(t, fd)} && Unlinked(old(files), old(fds), (t, fd), files)
    {
      assert (t, fd) in fds ==> KeyOk((t, fd));
      if fd == NFDS {
        return Panicked;
      }
      if fd > NFDS || (t, fd) !in fds {
        return Failed;
      }
      var ok := DropFd((t, fd), clunk);
      return if ok then Done(0) else Panicked;
    }

    /** File::close on a descriptor, which then goes. */
    method DropFd(k: Key, clunk: bool) returns (ok: bool)
      requires Valid() && k in fds
      modifies this
      ensures ok <==> !old(Stuck(k, clunk))
      ensures ok ==> Valid() && fds == old(fds) - {k} && Unlinked(old(files), old(fds), k, files)
    {
      var d := fds[k];
      CloseKeeps(files, fds, k, clunk);
      hide FileOk, Names, CloseFile, LastOf9p;
      var file := CloseFile(files[d.file], d, clunk);
      if file.None? {
        return false;
      }
      files := files[d.file := file.value];
      fds := fds - {k};
      return true;
    }

    /** dup3 makes new name old's file and closes what new named before, whose slot is
        vacated exactly as close would. Descriptors outside the table, and a close that
        fails, panic. */
    method Dup3(t: nat, from: nat, to: nat, clunk: bool) returns (r: Reply<nat>)
      requires Valid() && t < NTASKS
      modifies this
      ensures r.Panicked? <==> from >= 8 || ((t, from) in old(fds) && from != to
                               && (to >= 8 || ((t, to) in old(fds) && old(Stuck((t, to), clunk)))))
      ensures !r.Panicked? ==> Valid() && (r.Done? <==> (t, from) in old(fds))
      ensures r.Failed? ==> files == old(files) && fds == old(fds)
      ensures r.Done? ==> (t, from) in old(fds) && fds == old(fds)[(t, to) := old(fds)[(t, from)]] && r.value == to
      ensures r.Done? ==> if from != to && (t, to) in old(fds) then Unlinked(old(files), old(fds), (t, to), files)
                          else SameKinds(old(files), files)
    {
      if from >= NFDS {
        return Panicked;
      }
      if (t, from) !in fds {
        return Failed;
      }
      if from == to {
        assert fds == fds[(t, to) := fds[(t, from)]];
        return Done(to);
      }
      if to >= NFDS {
        return Panicked;
      }
      var fd := fds[(t, from)];
      Sided(files, fds, (t, from));
      if (t, to) !in fds {
        DupKeeps(files, fds, (t, from), fd, (t, to));
        files := files[fd.file := DupFile(files[fd.file], fd)];
        fds := fds[(t, to) := fd];
        return Done(to);
      }
      r := Replace(t, from, to, clunk);
    }

    method Replace(t: nat, from: nat, to: nat, clunk: bool) returns (r: Reply<nat>)
      requires Valid() && t < NTASKS && from < NFDS && to < NFDS && from != to && (t, from) in fds && (t, to) in fds
      modifies this
      ensures r.Panicked? <==> old(Stuck((t, to), clunk))
      ensures !r.Panicked? ==> r == Done(to) && Valid() && fds == old(fds)[(t, to) := old(fds)[(t, from)]]
      ensures !r.Panicked? ==> Unlinked(old(files), old(fds), (t, to), files)
    {
      var fd, replaced := fds[(t, from)], fds[(t, to)];
      Sided(files, fds, (t, from));
      ghost var spare: Key := (NTASKS, 0);
      assert spare !in fds by { assert !KeyOk(spare); }
      ghost var fds1 := fds[spare := fd];
      ghost var files1 := files[fd.file := DupFile(files[fd.file], fd)];
      DupKeeps(files, fds, (t, from), fd, spare);
      CloseKeeps(files1, fds1, (t, to), clunk);
      AddCount(fds, spare, fd, replaced.file);
      TwoNames(fds, (t, from), (t, to));
      assert SameKinds(files, files1);
      hide FileOk, CloseFile, DupFile, Names;
      files := files[fd.file := DupFile(files[fd.file], fd)];
      fds := fds[(t, to) := fd];
      var file := CloseFile(files[replaced.file], replaced, clunk);
      if file.None? {
        return Panicked;
      }
      files := files[replaced.file := file.value];
      MoveKeeps(files, fds1 - {(t, to)}, spare, (t, to));
      assert (fds1 - {(t, to)} - {spare})[(t, to) := fd] == fds;
      return Done(to);
    }

    /** create_user_task opens the console for each of its three descriptors. */
    method OpenConsole(t: nat, fd: nat) returns (r: Reply<nat>)
      requires Valid() && t < NTASKS && fd < NFDS && (t, fd) !in fds
      modifies this
      ensures r.Panicked? <==> NoSlot(old(files))
      ensures r.Done? ==> Valid() && r.value < NFILES && fds == old(fds)[(t, fd) := FD(r.value, true, true)]
      ensures r.Done? ==> LowestSlot(old(files), r.value)
      ensures r.Done? ==> files == old(files)[r.value := files[r.value]] && files[r.value].kind == Console
      ensures r.Done? ==> forall k :: k in old(fds) ==> old(fds)[k].file != r.value
      ensures !r.Failed?
    {
      var f := AllocSlot();
      if f.None? {
        return Panicked;
      }
      OpenKeeps(files, fds, f.value, File(Console, 1, 0, 0), (t, fd), FD(f.value, true, true));
      hide Inv;
      files := files[f.value := File(Console, 1, 0, 0)];
      fds := fds[(t, fd) := FD(f.value, true, true)];
      return Done(f.value);
    }

    /** pipe2: one file, a reading and a writing descriptor. Without a file slot it
        fails; with one but fewer than two free descriptors it panics. */
    method Pipe2(t: nat) returns (r: Reply<(nat, nat)>)
      requires Valid() && t < NTASKS
      modifies this
      ensures r.Failed? <==> NoSlot(old(files))
      ensures r.Panicked? <==> !NoSlot(old(files)) && AtMostOneFd(old(fds), t)
      ensures r.Failed? ==> Valid() && files == old(files) && fds == old(fds)
      ensures r.Done? ==> Valid() && r.value.0 != r.value.1
      ensures r.Done? ==> LowestFd(old(fds), t, r.value.0) && (t, r.value.0) in fds
      ensures r.Done? ==> LowestFd(old(fds)[(t, r.value.0) := fds[(t, r.value.0)]], t, r.value.1)
      ensures r.Done? ==> var f := fds[(t, r.value.0)].file;
                          && LowestSlot(old(files), f) && fds == old(fds)[(t, r.value.0) := FD(f, true, false)][(t, r.value.1) := FD(f, false, true)]
                          && f < NFILES && files == old(files)[f := files[f]] && files[f].kind == Pipe
                          && forall k :: k in old(fds) ==> old(fds)[k].file != f
    {
      var f := AllocSlot();
      if f.None? {
        return Failed;
      }
      var file := File(Pipe, 1, 1, 0);
      var i := AllocFd(t);
      if i.None? {
        return Panicked;
      }
      OpenKeeps(files, fds, f.value, file, (t, i.value), FD(f.value, true, false));
      ghost var files1 := files[f.value := file];
      hide FileOk, Names;
      files := files[f.value := DupFile(file, FD(f.value, false, true))];
      fds := fds[(t, i.value) := FD(f.value, true, false)];
      var j := AllocFd(t);
      if j.None? {
        return Panicked;
      }
      DupKeeps(files1, fds, (t, i.value), FD(f.value, false, true), (t, j.value));
      assert files1[f.value := DupFile(file, FD(f.value, false, true))] == files;
      fds := fds[(t, j.value) := FD(f.value, false, true)];
      return Done((i.value, j.value));
    }

    /** fork gives the child, whose table is empty, a copy of the parent's table and
        counts every copy. */
    method Fork(p: nat, c: nat)
      requires Valid() && p < NTASKS && c < NTASKS && p != c && forall i :: 0 <= i < NFDS ==> (c, i) !in fds
      modifies this
      ensures Valid()
      ensures forall i :: 0 <= i < NFDS ==> ((c, i) in fds <==> (p, i) in old(fds))
      ensures forall i :: 0 <= i < NFDS && (c, i) in fds ==> fds[(c, i)] == old(fds)[(p, i)]
      ensures forall k: Key :: k.0 != c ==> (k in fds <==> k in old(fds)) && (k in fds ==> fds[k] == old(fds)[k])
      ensures SameKinds(old(files), files)
    {
      hide FileOk;
      for i := 0 to NFDS
        invariant Valid()
        invariant forall j :: 0 <= j < NFDS ==> ((c, j) in fds <==> j < i && (p, j) in old(fds))
        invariant forall j :: 0 <= j < i && (c, j) in fds ==> fds[(c, j)] == old(fds)[(p, j)]
        invariant forall k: Key :: k.0 != c ==> (k in fds <==> k in old(fds)) && (k in fds ==> fds[k] == old(fds)[k])
        invariant forall f :: 0 <= f < NFILES ==> files[f].kind == old(files)[f].kind
      {
        if (p, i) in fds {
          CopyFd(p, c, i);
        }
      }
    }

    method CopyFd(p: nat, c: nat, i: nat)
      requires Valid() && c < NTASKS && i < NFDS && (p, i) in fds && (c, i) !in fds
      modifies this
      ensures Valid() && fds == old(fds)[(c, i) := old(fds)[(p, i)]]
      ensures forall f :: 0 <= f < NFILES ==> files[f].kind == old(files)[f].kind
    {
      var fd := fds[(p, i)];
      Sided(files, fds, (p, i));
      DupKeeps(files, fds, (p, i), fd, (c, i));
      hide FileOk, Inv;
      files := files[fd.file := DupFile(files[fd.file], fd)];
      fds := fds[(c, i) := fd];
    }

    /** exit closes the task's descriptors in order. It panics exactly when one of
        them, when its turn comes, is the last of a 9p file that the server will not
        clunk; otherwise all of them go, and exactly the 9p files that only this task
        named give up their slots. */
    method Exit(t: nat, clunks: seq<bool>) returns (ok: bool)
      requires Valid() && t < NTASKS && |clunks| == NFDS
      modifies this
      ensures !ok <==> exists i :: 0 <= i < NFDS && RefusedLast(old(files), old(fds), t, i, clunks)
      ensures ok ==> Valid() && fds == map k | k in old(fds) && k.0 != t :: old(fds)[k]
      ensures ok ==> Vacated(old(files), old(fds), t, NFDS, files)
    {
      assert Left(fds, t, 0) == fds;
      assert forall f :: !OnlyBy(fds, t, f, 0);
      hide FileOk, OnlyBy, Names;
      for i := 0 to NFDS
        invariant Valid() && fds == Left(old(fds), t, i) && Vacated(old(files), old(fds), t, i, files)
        invariant forall j :: 0 <= j < i ==> !RefusedLast(old(files), old(fds), t, j, clunks)
      {
        ok := CloseNext(t, i, clunks[i], old(files), old(fds));
        if !ok {
          assert RefusedLast(old(files), old(fds), t, i, clunks);
          return false;
        }
      }
      assert forall k :: k in old(fds) ==> KeyOk(k);
      return true;
    }

    /** One turn of exit's loop. */
    method CloseNext(t: nat, i: nat, clunk: bool, ghost files0: seq<File>, ghost fds0: Fds) returns (ok: bool)
      requires Inv(files0, fds0) && Valid() && i < NFDS
      requires fds == Left(fds0, t, i) && Vacated(files0, fds0, t, i, files)
      modifies this
      ensures !ok <==> !clunk && (t, i) in fds0 && files0[fds0[(t, i)].file].kind == P9
                       && OnlyBy(fds0, t, fds0[(t, i)].file, i + 1)
      ensures ok ==> Valid() && fds == Left(fds0, t, i + 1) && Vacated(files0, fds0, t, i + 1, files)
    {
      LeftNext(fds0, t, i);
      if (t, i) !in fds {
        assert fds == fds - {(t, i)};
        forall f | 0 <= f < NFILES
          ensures OnlyBy(fds0, t, f, i + 1) <==> OnlyBy(fds0, t, f, i)
        {
          OnlyByNext(fds0, t, i, f);
        }
        return true;
      }
      StillNamed(files0, fds0, t, i, files);
      ok := DropFd((t, i), clunk);
      if ok {
        VacatedNext(files0, fds0, t, i, old(files), files);
      }
    }
  }

  lemma TwoNames(fds: Fds, j: Key, k: Key)
    requires j in fds && k in fds && j != k
    ensures |Names(fds, fds[k].file)| >= 1
    ensures fds[j].file == fds[k].file ==> |Names(fds, fds[k].file)| >= 2
  {
    var names := Names(fds, fds[k].file);
    assert {k} <= names && (fds[j].file == fds[k].file ==> {j, k} <= names);
    assert names == {k} + (names - {k});
    assert fds[j].file == fds[k].file ==> names - {k} == {j} + (names - {k} - {j});
  }

  /** The 16-bit reference count cannot overflow: there are 64 descriptors in all. */
  lemma CountBound(fds: Fds, f: nat)
    requires forall k :: k in fds ==> KeyOk(k)
    ensures |Names(fds, f)| <= 64
  {
    Rows(Names(fds, f), NTASKS);
  }

  lemma {:induction false} Rows(s: set<Key>, n: nat)
    requires forall k :: k in s ==> k.0 < n && k.1 < NFDS
    ensures |s| <= n * NFDS
    decreases n
  {
    if n == 0 {
      assert s == {};
    } else {
      var row := set k | k in s && k.0 == n - 1;
      Row(row, n - 1, NFDS);
      Rows(s - row, n - 1);
      assert s == row + (s - row);
    }
  }

  lemma {:induction false} Row(s: set<Key>, t: nat, n: nat)
    requires forall k :: k in s ==> k.0 == t && k.1 < n
    ensures |s| <= n
    decreases n
  {
    if n == 0 {
      assert s == {};
    } else {
      Row(s - {(t, n - 1)}, t, n - 1);
      assert s <= {(t, n - 1)} + (s - {(t, n - 1)});
    }
  }

  /** What the invariant says of one file: its reference count is the number of live
      descriptors naming it. */
  lemma CountsLive(files: seq<File>, fds: Fds, f: nat)
    requires Inv(files, fds) && f < NFILES
    ensures files[f].rc == |Names(fds, f)|
    ensures files[f].kind == Nothing ==> files[f].rc == 0 && forall k :: k in fds ==> fds[k].file != f
  {
    assert FileOk(files[f], fds, f);
    assert forall k :: k in fds && fds[k].file == f ==> k in Names(fds, f);
  }
}
