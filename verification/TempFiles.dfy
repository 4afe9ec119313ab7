/** The half-written entry: a file that removes itself unless it gets its name. */
module TempFiles {
  import opened Wrappers
  import opened Layouts
  import opened TempNames
  import opened Forms
  import opened Disks
  import opened FileSystems
  import Runs

  /** The steps of `Runs.PutNext`, one after another. */
  function PutRun(d: Disk, put: Runs.Put, ops: seq<Runs.Op>): Option<(Disk, Runs.Put)>
    decreases |ops|
  {
    if ops == [] then Some((d, put))
    else match Runs.PutNext(d, put, ops[0])
      case None => None
      case Some((d', put')) => PutRun(d', put', ops[1..])
  }

  /** From one point of a file's way to its name to another. */
  ghost predicate Takes(d: Disk, put: Runs.Put, ops: seq<Runs.Op>, d': Disk, put': Runs.Put) {
    PutRun(d, put, ops) == Some((d', put'))
  }

  lemma {:induction false} TakesThen(d: Disk, put: Runs.Put, ops: seq<Runs.Op>, mid: Disk, at: Runs.Put, op: Runs.Op,
                                     d': Disk, put': Runs.Put)
    requires Takes(d, put, ops, mid, at) && Runs.PutNext(mid, at, op) == Some((d', put'))
    ensures Takes(d, put, ops + [op], d', put')
    decreases |ops|
  {
    if ops == [] {
      assert [op][1..] == [] && PutRun(d', put', []) == Some((d', put'));
    } else {
      assert (ops + [op])[1..] == ops[1..] + [op];
      var (d1, put1) := Runs.PutNext(d, put, ops[0]).value;
      TakesThen(d1, put1, ops[1..], mid, at, op, d', put');
    }
  }

  /** Written whole and still this call's. */
  ghost predicate Whole(d: Disk, put: Runs.Put) {
    put.temp in Live(d) && put.stage == Runs.Filling(|put.data|)
  }

  lemma {:induction false} EndsUnflushed(d: Disk, put: Runs.Put, gone: bool)
    requires Whole(d, put)
    ensures Takes(d, put, [Runs.Fail(gone)], Runs.Remove(d, put.temp, gone), put.(stage := Runs.Broken))
  {
    TakesThen(d, put, [], d, put, Runs.Fail(gone), Runs.Remove(d, put.temp, gone), put.(stage := Runs.Broken));
  }

  /** Flushed, and the name looked at. */
  lemma {:induction false} EndsLooked(d: Disk, put: Runs.Put)
    requires Whole(d, put)
    ensures Takes(d, put, [Runs.Flush, Runs.Check], FlushFile(d, put.temp),
                  put.(stage := if put.dest in Live(d) then Runs.Losing else Runs.Renaming))
  {
    var flushed := FlushFile(d, put.temp);
    TakesThen(d, put, [], d, put, Runs.Flush, flushed, put.(stage := Runs.Checking));
    TakesThen(d, put, [Runs.Flush], flushed, put.(stage := Runs.Checking), Runs.Check, flushed,
              put.(stage := if put.dest in Live(d) then Runs.Losing else Runs.Renaming));
    assert [Runs.Flush] + [Runs.Check] == [Runs.Flush, Runs.Check];
  }

  lemma {:induction false} EndsLost(d: Disk, put: Runs.Put, gone: bool)
    requires Whole(d, put) && put.dest in Live(d)
    ensures Takes(d, put, [Runs.Flush, Runs.Check, Runs.Op.Drop(gone)],
                  Runs.Remove(FlushFile(d, put.temp), put.temp, gone), put.(stage := Runs.Lost))
  {
    EndsLooked(d, put);
    var flushed := FlushFile(d, put.temp);
    TakesThen(d, put, [Runs.Flush, Runs.Check], flushed, put.(stage := Runs.Losing), Runs.Op.Drop(gone),
              Runs.Remove(flushed, put.temp, gone), put.(stage := Runs.Lost));
    assert [Runs.Flush, Runs.Check] + [Runs.Op.Drop(gone)] == [Runs.Flush, Runs.Check, Runs.Op.Drop(gone)];
  }

  lemma {:induction false} EndsBroken(d: Disk, put: Runs.Put, gone: bool)
    requires Whole(d, put) && put.dest !in Live(d)
    ensures Takes(d, put, [Runs.Flush, Runs.Check, Runs.Fail(gone)],
                  Runs.Remove(FlushFile(d, put.temp), put.temp, gone), put.(stage := Runs.Broken))
  {
    EndsLooked(d, put);
    var flushed := FlushFile(d, put.temp);
    TakesThen(d, put, [Runs.Flush, Runs.Check], flushed, put.(stage := Runs.Renaming), Runs.Fail(gone),
              Runs.Remove(flushed, put.temp, gone), put.(stage := Runs.Broken));
    assert [Runs.Flush, Runs.Check] + [Runs.Fail(gone)] == [Runs.Flush, Runs.Check, Runs.Fail(gone)];
  }

  lemma {:induction false} EndsPlaced(d: Disk, put: Runs.Put, durable: bool)
    requires Whole(d, put) && put.dest !in Live(d)
    ensures Takes(d, put, [Runs.Flush, Runs.Check, Runs.Rename, Runs.Sync(durable)],
                  SyncDir(Move(FlushFile(d, put.temp), put.temp, put.dest), durable), put.(stage := Runs.Placed))
  {
    EndsLooked(d, put);
    var flushed := FlushFile(d, put.temp);
    var moved := Move(flushed, put.temp, put.dest);
    TakesThen(d, put, [Runs.Flush, Runs.Check], flushed, put.(stage := Runs.Renaming), Runs.Rename, moved, put.(stage := Runs.Syncing));
    assert [Runs.Flush, Runs.Check] + [Runs.Rename] == [Runs.Flush, Runs.Check, Runs.Rename];
    TakesThen(d, put, [Runs.Flush, Runs.Check, Runs.Rename], moved, put.(stage := Runs.Syncing), Runs.Sync(durable),
              SyncDir(moved, durable), put.(stage := Runs.Placed));
    assert [Runs.Flush, Runs.Check, Runs.Rename] + [Runs.Sync(durable)] == [Runs.Flush, Runs.Check, Runs.Rename, Runs.Sync(durable)];
  }

  class TempFile {
    const fs: FileSystem
    const path: Path
    var open: bool
    var persisted: bool

    constructor (fs: FileSystem, path: Path)
      ensures this.fs == fs && this.path == path && open && !persisted
    {
      this.fs, this.path, open, persisted := fs, path, true, false;
    }

    /** A file that is still this call's: being written, not yet under a name. */
    ghost predicate Holding()
      reads this, fs
    {
      fs.Valid() && open && !persisted && path in fs.Files()
    }

    /** This file, all of it written, on its way to a name. */
    ghost function Finished(dest: Path): Runs.Put
      requires Holding()
      reads this, fs
    {
      var data := fs.Files()[path].bytes;
      Runs.Put(path, dest, data, Runs.Filling(|data|))
    }

    static ghost function EndOf(r: Result<bool, Kind>): Runs.Stage {
      match r
      case Ok(placed) => if placed then Runs.Placed else Runs.Lost
      case Err(_) => Runs.Broken
    }

    /**
    A new temporary file under the first free name from `serial` on. A taken
    name is passed over, never written to.
    */
    static method CreateIn(fs: FileSystem, dir: Path, pid: nat, serial: nat)
      returns (r: Result<TempFile, Kind>, next: nat)
      requires fs.Valid()
      modifies fs`disk
      ensures fs.Valid()
      ensures r.Ok? ==> fresh(r.value) && r.value.fs == fs && r.value.Holding()
      ensures r.Ok? ==> serial < next && r.value.path == dir + [TempName(pid, next - 1)]
      ensures r.Ok? ==> forall n | serial <= n < next - 1 ::
                  dir + [TempName(pid, n)] in old(fs.Files()) || dir + [TempName(pid, n)] in fs.dirs
      ensures r.Ok? ==> r.value.path !in old(fs.Files()) && r.value.path !in fs.dirs && fs.disk == CreateFile(old(fs.disk), r.value.path)
      ensures r.Err? ==> fs.disk == old(fs.disk)
      ensures fs.reliable && dir in fs.dirs ==> r.Ok?
    {
      next := serial;
      ghost var untried := fs.Files().Keys + fs.dirs;
      while true
        invariant serial <= next && fs.Valid() && fs.disk == old(fs.disk)
        invariant forall n | serial <= n < next :: dir + [TempName(pid, n)] in fs.Files() || dir + [TempName(pid, n)] in fs.dirs
        invariant forall p | p in fs.Files().Keys + fs.dirs ::
            p in untried || exists n :: serial <= n < next && p == dir + [TempName(pid, n)]
        decreases |untried|
      {
        var path := dir + [TempName(pid, next)];
        next := next + 1;
        assert Parent(path) == dir;
        var created := fs.CreateNew(path);
        match created
        case Ok(_) =>
          var temp := new TempFile(fs, path);
          return Ok(temp), next;
        case Err(kind) =>
          if kind != AlreadyExists {
            return Err(kind), next;
          }
          NewName(dir, pid, next - 1);
          untried := untried - {path};
      }
    }

    method WriteAll(data: Bytes) returns (r: Result<(), Kind>)
      requires Holding()
      modifies fs`disk
      ensures Holding()
      ensures r.Ok? ==> fs.disk == WriteFile(old(fs.disk), path, old(fs.Files())[path].bytes + data)
      ensures r.Err? ==> exists n: nat :: n <= |data| && fs.disk == WriteFile(old(fs.disk), path, old(fs.Files())[path].bytes + data[..n])
      ensures fs.reliable ==> r.Ok?
    {
      r := fs.Append(path, data);
    }

    /** To a name nobody has yet. `false` when somebody has it by now; what lies there is left alone. */
    method Persist(dest: Path) returns (r: Result<bool, Kind>, ghost ops: seq<Runs.Op>)
      requires Holding() && dest != [] && dest != path
      modifies this, fs`disk
      ensures fs.Valid()
      ensures Takes(old(fs.disk), old(Finished(dest)), ops, fs.disk, old(Finished(dest)).(stage := EndOf(r)))
      ensures r == Ok(true) ==> dest !in old(fs.Files())
      ensures r == Ok(true) ==> exists durable :: Placed(old(fs.disk), fs.disk, dest, durable)
      ensures r == Ok(true) ==> fs.Files() == (old(fs.Files()) - {path})[dest := Blob(old(fs.Files())[path].bytes, true)]
      ensures r != Ok(true) ==> forall p | p != path ::
                  (p in fs.Files() <==> p in old(fs.Files())) && (p in fs.Files() ==> fs.Files()[p] == old(fs.Files())[p])
      ensures r == Ok(false) ==> dest in fs.Files()
      ensures fs.reliable && Parent(dest) in fs.dirs && dest !in fs.dirs ==> r == Ok(dest !in old(fs.Files()))
    {
      r, ops := RenameTo(dest, true);
    }

    /** Onto a name that already has a file, where there is no race to lose. */
    method Replace(dest: Path) returns (r: Result<(), Kind>)
      requires Holding() && dest != [] && dest != path
      modifies this, fs`disk
      ensures fs.Valid()
      ensures r.Ok? ==> exists durable :: Placed(old(fs.disk), fs.disk, dest, durable)
      ensures r.Err? ==> Dropped(old(fs.disk), fs.disk) || Dropped(FlushFile(old(fs.disk), path), fs.disk)
      ensures r.Ok? ==> fs.Files() == (old(fs.Files()) - {path})[dest := Blob(old(fs.Files())[path].bytes, true)]
      ensures r.Err? ==> forall p | p != path ::
                  (p in fs.Files() <==> p in old(fs.Files())) && (p in fs.Files() ==> fs.Files()[p] == old(fs.Files())[p])
      ensures fs.reliable && Parent(dest) in fs.dirs && dest !in fs.dirs ==> r.Ok?
    {
      var moved, _ := RenameTo(dest, false);
      r := match moved case Ok(_) => Ok(()) case Err(kind) => Err(kind);
    }

    /** Flushed, then renamed, then its new directory flushed; on a reliable file system that takes. */
    ghost predicate Placed(d: Disk, d': Disk, dest: Path, durable: bool)
      requires path in Live(d)
    {
      d' == SyncDir(Move(FlushFile(d, path), path, dest), durable) && (fs.reliable ==> durable)
    }

    ghost predicate Dropped(d: Disk, d': Disk) { d' == d || d' == Unlink(d, path) }

    /**
    Flush the file; look at the name if somebody else may have it; rename; flush the
    directory. A rename that loses is told from one that fails by what lies there.
    */
    method RenameTo(dest: Path, mayLose: bool) returns (r: Result<bool, Kind>, ghost ops: seq<Runs.Op>)
      requires Holding() && dest != [] && dest != path
      modifies this, fs`disk
      ensures fs.Valid()
      ensures r == Ok(true) ==> exists durable :: Placed(old(fs.disk), fs.disk, dest, durable)
      ensures r == Ok(false) ==> mayLose && dest in fs.Files()
      ensures r == Ok(true) && mayLose ==> dest !in old(fs.Files())
      ensures r == Ok(false) ==> Dropped(FlushFile(old(fs.disk), path), fs.disk)
      ensures r.Err? ==> Dropped(old(fs.disk), fs.disk) || Dropped(FlushFile(old(fs.disk), path), fs.disk)
      ensures mayLose ==> Takes(old(fs.disk), old(Finished(dest)), ops, fs.disk, old(Finished(dest)).(stage := EndOf(r)))
      ensures fs.reliable && Parent(dest) in fs.dirs && dest !in fs.dirs ==> r == Ok(!(mayLose && dest in old(fs.Files())))
    {
      ghost var start, put := fs.disk, Finished(dest);
      open, ops := false, [];
      var synced := fs.SyncFile(path);
      if synced.Err? {
        ghost var gone := Drop();
        EndsUnflushed(start, put, gone);
        return Err(synced.error), [Runs.Fail(gone)];
      }
      if mayLose && dest in fs.Files() {
        ghost var gone := Drop();
        EndsLost(start, put, gone);
        return Ok(false), [Runs.Flush, Runs.Check, Runs.Op.Drop(gone)];
      }
      var renamed := fs.Rename(path, dest);
      if renamed.Err? {
        var lost := mayLose && (renamed.error == AlreadyExists || dest in fs.Files());
        ghost var gone := Drop();
        if mayLose {
          EndsBroken(start, put, gone);
        }
        return if lost then Ok(false) else Err(renamed.error), [Runs.Flush, Runs.Check, Runs.Fail(gone)];
      }
      persisted := true;
      ghost var durable := fs.SyncDirectory();
      assert Placed(start, fs.disk, dest, durable);
      if mayLose {
        EndsPlaced(start, put, durable);
      }
      return Ok(true), [Runs.Flush, Runs.Check, Runs.Rename, Runs.Sync(durable)];
    }

    /** What happens to a temporary file nobody kept; not even this has to succeed. */
    method Drop() returns (ghost gone: bool)
      requires fs.Valid() && path in fs.Files()
      modifies fs`disk
      ensures fs.Valid() && (!persisted ==> fs.disk == Runs.Remove(old(fs.disk), path, gone))
      ensures persisted ==> fs.disk == old(fs.disk)
      ensures fs.reliable && !persisted ==> gone
    {
      gone := false;
      if persisted {
        return;
      }
      var removed := fs.RemoveFile(path);
      gone := removed.Ok?;
    }
  }

  lemma NewName(dir: Path, pid: nat, n: nat)
    ensures forall m: nat | m != n :: dir + [TempName(pid, m)] != dir + [TempName(pid, n)]
  {
    forall m: nat | m != n
      ensures dir + [TempName(pid, m)] != dir + [TempName(pid, n)]
    {
      TempNameRoundTrip(pid, m, pid, n);
      assert (dir + [TempName(pid, m)])[|dir|] == TempName(pid, m);
      assert (dir + [TempName(pid, n)])[|dir|] == TempName(pid, n);
    }
  }
}
