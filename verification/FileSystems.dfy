/**
The file system a store lies on, as the calls the store makes.

A call may fail for reasons of its own unless the file system is a reliable one;
looking whether a name is taken is the exception and always answers truly. Files carry
the history behind crashes with them, see `Disks`.
*/
module FileSystems {
  import opened Wrappers
  import opened Layouts
  import opened Forms
  import opened Disks

  datatype Kind = NotFound | AlreadyExists | Other

  datatype FileType = Directory | File

  function Parent(p: Path): Path
    requires p != []
  {
    p[..|p| - 1]
  }

  function Name(p: Path): string
    requires p != []
  {
    p[|p| - 1]
  }

  /** The same place under another file name. */
  function WithName(p: Path, name: string): Path
    requires p != []
  {
    Parent(p) + [name]
  }

  /** A tree: every directory and file lies in a directory, and nothing is both. */
  ghost predicate TreeOk(dirs: set<Path>, files: Image) {
    && [] in dirs
    && (forall p | p in dirs && p != [] :: Parent(p) in dirs)
    && (forall p | p in files :: p != [] && Parent(p) in dirs && p !in dirs)
  }

  /** What a directory lists. */
  ghost predicate Lists(dirs: set<Path>, files: Image, dir: Path, name: string) {
    dir + [name] in dirs || dir + [name] in files
  }

  /** No file stands where a directory would have to be made. */
  ghost predicate Clear(files: Image, dir: Path) { forall i | 0 < i <= |dir| :: dir[..i] !in files }

  ghost predicate Distinct<T(!new)>(s: seq<T>) {
    forall i, j | 0 <= i < j < |s| :: s[i] != s[j]
  }

  class FileSystem {
    const reliable: bool
    var dirs: set<Path>
    var disk: Disk

    ghost predicate Valid()
      reads this
    {
      TreeOk(dirs, Live(disk))
    }

    function Files(): Image
      reads this
    {
      Live(disk)
    }

    /** An empty store's directory. */
    constructor (reliable: bool)
      ensures Valid() && this.reliable == reliable && dirs == {[]} && disk == [map[]]
    {
      this.reliable, dirs, disk := reliable, {[]}, [map[]];
    }

    /** Whether the file system refuses this time. */
    method Fault() returns (fault: bool)
      ensures reliable ==> !fault
    {
      fault := *;
      if reliable {
        fault := false;
      }
    }

    method Metadata(p: Path) returns (r: Result<FileType, Kind>)
      requires Valid()
      ensures r == Ok(File) ==> p in Files()
      ensures r == Ok(Directory) ==> p in dirs
      ensures r == Err(NotFound) ==> p !in Files() && p !in dirs
      ensures r != Err(AlreadyExists) && (reliable ==> r != Err(Other))
    {
      var fault := Fault();
      r := if fault then Err(Other)
           else if p in dirs then Ok(Directory)
           else if p in Files() then Ok(File)
           else Err(NotFound);
    }

    /** The names in a directory, in whatever order it keeps them. */
    method ReadDir(dir: Path) returns (r: Result<seq<string>, Kind>)
      requires Valid()
      ensures r.Ok? ==> dir in dirs && Distinct(r.value)
      ensures r.Ok? ==> forall name :: name in r.value <==> Lists(dirs, Files(), dir, name)
      ensures r == Err(NotFound) ==> dir !in dirs
      ensures reliable ==> r == Err(NotFound) || r.Ok?
    {
      var fault := Fault();
      if fault {
        return Err(Other);
      }
      if dir !in dirs {
        return Err(NotFound);
      }
      var all := dirs + Files().Keys;
      var left := set p | p in all && |p| == |dir| + 1 && p[..|dir|] == dir :: p[|dir|];
      assert forall name :: name in left <==> Lists(dirs, Files(), dir, name) by {
        forall name
          ensures name in left <==> Lists(dirs, Files(), dir, name)
        {
          if name in left {
            var p :| p in all && |p| == |dir| + 1 && p[..|dir|] == dir && p[|dir|] == name;
            assert p == dir + [name];
          }
          if Lists(dirs, Files(), dir, name) {
            assert (dir + [name])[..|dir|] == dir && (dir + [name])[|dir|] == name;
          }
        }
      }
      var names := [];
      ghost var listed := left;
      while left != {}
        invariant Distinct(names) && (forall name :: name in listed <==> name in names || name in left)
        invariant forall name | name in names :: name !in left
        decreases |left|
      {
        var name :| name in left;
        left := left - {name};
        names := names + [name];
      }
      return Ok(names);
    }

    /** Open a file and read it to its end. */
    method ReadFile(p: Path) returns (r: Result<Bytes, Kind>)
      requires Valid()
      ensures r.Ok? ==> p in Files() && r.value == Files()[p].bytes
      ensures r == Err(NotFound) ==> p !in Files() && p !in dirs
      ensures reliable && p in Files() ==> r.Ok?
    {
      var fault := Fault();
      r := if fault then Err(Other)
           else if p in Files() then Ok(Files()[p].bytes)
           else if p in dirs then Err(Other)
           else Err(NotFound);
    }

    /** Rename a file. What lay under the new name is replaced; a directory there is not. */
    method Rename(from: Path, to: Path) returns (r: Result<(), Kind>)
      requires Valid() && to != []
      modifies this`disk
      ensures Valid()
      ensures r.Ok? ==> from in old(Files()) && to !in dirs && disk == Move(old(disk), from, to)
      ensures r.Err? ==> disk == old(disk) && (r.error == AlreadyExists ==> to in Files())
      ensures reliable && from in old(Files()) && to !in dirs && Parent(to) in dirs ==> r.Ok?
    {
      var fault := Fault();
      var taken: bool := *;
      if fault {
        return Err(if taken && to in Files() then AlreadyExists else Other);
      }
      if from !in Files() || Parent(to) !in dirs {
        return Err(NotFound);
      }
      if to in dirs {
        return Err(Other);
      }
      disk := Move(disk, from, to);
      return Ok(());
    }

    method RemoveFile(p: Path) returns (r: Result<(), Kind>)
      requires Valid()
      modifies this`disk
      ensures Valid()
      ensures r.Ok? ==> p in old(Files()) && disk == Unlink(old(disk), p)
      ensures r.Err? ==> disk == old(disk)
      ensures reliable ==> (r.Ok? <==> p in old(Files()))
    {
      var fault := Fault();
      if fault {
        return Err(Other);
      }
      if p !in Files() {
        return Err(NotFound);
      }
      disk := Unlink(disk, p);
      return Ok(());
    }

    /** Remove a directory, which has to be empty. */
    method RemoveDir(dir: Path) returns (r: Result<(), Kind>)
      requires Valid() && dir != []
      modifies this`dirs
      ensures Valid()
      ensures r.Ok? ==> dir in old(dirs) && dirs == old(dirs) - {dir}
      ensures r.Ok? ==> forall name :: !Lists(old(dirs), Files(), dir, name)
      ensures r.Err? ==> dirs == old(dirs)
      ensures reliable && dir in old(dirs) && (forall name :: !Lists(old(dirs), Files(), dir, name)) ==> r.Ok?
    {
      var listing := ReadDir(dir);
      match listing
      case Err(kind) =>
        return Err(kind);
      case Ok(names) =>
        if names != [] {
          assert Lists(dirs, Files(), dir, names[0]);
          return Err(Other);
        }
        var fault := Fault();
        if fault {
          return Err(Other);
        }
        Childless(dirs, Files(), dir);
        dirs := dirs - {dir};
        return Ok(());
    }

    /** Make a directory and whatever is missing on the way to it. */
    method CreateDirs(dir: Path) returns (r: Result<(), Kind>)
      requires Valid()
      modifies this`dirs
      ensures Valid() && old(dirs) <= dirs
      ensures forall d | d in dirs :: d in old(dirs) || d <= dir
      ensures r.Ok? ==> dir in dirs
      ensures reliable ==> (r.Ok? <==> Clear(Files(), dir))
    {
      var i := 0;
      while i < |dir|
        invariant Valid()
        invariant 0 <= i <= |dir| && dir[..i] in dirs && old(dirs) <= dirs
        invariant forall d | d in dirs :: d in old(dirs) || d <= dir
        invariant forall j | 0 < j <= i :: dir[..j] !in Files()
      {
        assert Parent(dir[..i + 1]) == dir[..i] && dir[..i + 1] <= dir;
        AboveIn(dirs, Files(), dir, i + 1);
        if dir[..i + 1] !in dirs {
          var fault := Fault();
          if fault || dir[..i + 1] in Files() {
            return Err(Other);
          }
          Grown(dirs, Files(), dir[..i + 1]);
          ghost var before := dirs;
          dirs := dirs + {dir[..i + 1]};
          assert forall d | d in dirs :: d in before || d == dir[..i + 1];
        }
        i := i + 1;
      }
      assert dir[..|dir|] == dir;
      return Ok(());
    }

    /** Create a file nobody has, to write to. */
    method CreateNew(p: Path) returns (r: Result<(), Kind>)
      requires Valid() && p != []
      modifies this`disk
      ensures Valid()
      ensures r.Ok? ==> p !in old(Files()) && disk == CreateFile(old(disk), p)
      ensures r.Err? ==> disk == old(disk)
      ensures r == Err(AlreadyExists) ==> p in Files() || p in dirs
      ensures reliable && Parent(p) in dirs ==> r.Ok? || r == Err(AlreadyExists)
    {
      var fault := Fault();
      if fault || Parent(p) !in dirs {
        return Err(Other);
      }
      if p in Files() || p in dirs {
        return Err(AlreadyExists);
      }
      disk := CreateFile(disk, p);
      return Ok(());
    }

    /** Write to a file, as far as it goes. */
    method Append(p: Path, data: Bytes) returns (r: Result<(), Kind>)
      requires Valid() && p in Files()
      modifies this`disk
      ensures Valid()
      ensures r.Ok? ==> disk == WriteFile(old(disk), p, old(Files())[p].bytes + data)
      ensures r.Err? ==> exists n: nat :: n <= |data| && disk == WriteFile(old(disk), p, old(Files())[p].bytes + data[..n])
      ensures reliable ==> r.Ok?
    {
      var fault := Fault();
      if fault {
        var n :| 0 <= n <= |data|;
        disk := WriteFile(disk, p, Files()[p].bytes + data[..n]);
        return Err(Other);
      }
      disk := WriteFile(disk, p, Files()[p].bytes + data);
      return Ok(());
    }

    method SyncFile(p: Path) returns (r: Result<(), Kind>)
      requires Valid() && p in Files()
      modifies this`disk
      ensures Valid()
      ensures r.Ok? ==> disk == FlushFile(old(disk), p)
      ensures r.Err? ==> disk == old(disk)
      ensures reliable ==> r.Ok?
    {
      var fault := Fault();
      if fault {
        return Err(Other);
      }
      disk := FlushFile(disk, p);
      return Ok(());
    }

    /** Best effort: nobody hears whether it took. On a reliable file system it does. */
    method SyncDirectory() returns (ghost durable: bool)
      requires Valid()
      modifies this`disk
      ensures Valid() && disk == SyncDir(old(disk), durable) && (reliable ==> durable)
    {
      var fault := Fault();
      durable := !fault;
      disk := SyncDir(disk, !fault);
    }
  }

  lemma Childless(dirs: set<Path>, files: Image, dir: Path)
    requires TreeOk(dirs, files) && dir != [] && forall name :: !Lists(dirs, files, dir, name)
    ensures TreeOk(dirs - {dir}, files)
  {
    forall p | (p in dirs || p in files) && p != []
      ensures Parent(p) != dir
    {
      assert p == Parent(p) + [Name(p)];
      assert !Lists(dirs, files, dir, Name(p));
    }
  }

  lemma Grown(dirs: set<Path>, files: Image, dir: Path)
    requires TreeOk(dirs, files) && dir != [] && Parent(dir) in dirs && dir !in files
    ensures TreeOk(dirs + {dir}, files)
  {
  }

  /** Everything above a directory is a directory. */
  lemma {:induction false} AboveIn(dirs: set<Path>, files: Image, dir: Path, n: nat)
    requires TreeOk(dirs, files) && n <= |dir|
    ensures dir in dirs ==> dir[..n] in dirs
    decreases |dir|
  {
    if n < |dir| && dir in dirs {
      AboveIn(dirs, files, Parent(dir), n);
      assert Parent(dir)[..n] == dir[..n];
    } else if n == |dir| {
      assert dir[..n] == dir;
    }
  }
}
