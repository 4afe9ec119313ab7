/** Removing the shard directories that hold nothing any more. */
module Pruning {
  import opened Wrappers
  import opened Layouts
  import opened TempNames
  import opened Disks
  import opened FileSystems
  import opened Walks

  /** Whether any file lies anywhere under a directory. */
  ghost predicate Holds(files: Image, dir: Path) { exists p :: p in files && dir <= p }

  /** What pruning is for: below the root, outside the temporary directory, and with no file under it. */
  ghost predicate Prunable(files: Image, dir: Path) { dir != [] && !InTemp(dir) && !Holds(files, dir) }

  ghost function Inside(dirs: set<Path>, dir: Path): set<Path> { set d | d in dirs && dir < d }

  /** Whether the collection from `dir` is after `d`. */
  predicate Collects(dir: Path, isRoot: bool, d: Path) { dir < d && !(isRoot && InTemp(d)) }

  ghost predicate Collected(dirs: set<Path>, dir: Path, isRoot: bool, names: seq<string>, found: seq<Path>) {
    && Distinct(found)
    && forall d :: d in found <==> d in dirs && Collects(dir, isRoot, d) && d[|dir|] in names
  }

  /** Every directory below `dir`, in some order. */
  method CollectDirs(fs: FileSystem, dir: Path, isRoot: bool) returns (r: Result<seq<Path>, Kind>)
    requires fs.Valid() && (isRoot ==> dir == [])
    ensures r.Ok? ==> Distinct(r.value) && forall d :: d in r.value <==> d in fs.dirs && Collects(dir, isRoot, d)
    ensures fs.reliable && dir in fs.dirs ==> r.Ok?
    decreases Inside(fs.dirs, dir)
  {
    var listing := fs.ReadDir(dir);
    match listing
    case Err(kind) =>
      return Err(kind);
    case Ok(names) =>
      var found: seq<Path> := [];
      for i := 0 to |names|
        invariant Collected(fs.dirs, dir, isRoot, names[..i], found)
      {
        var path := dir + [names[i]];
        assert names[..i + 1] == names[..i] + [names[i]] && names[i] !in names[..i];
        var fault := fs.Fault();
        if isRoot && names[i] == DIR {
          CollectedSkip(fs.dirs, dir, isRoot, names[..i], names[i], found);
        } else if fault {
          return Err(Other);
        } else if path in fs.dirs {
          Deeper(fs.dirs, dir, path);
          var below := CollectDirs(fs, path, false);
          if below.Err? {
            return below;
          }
          CollectedMore(fs, dir, isRoot, names[..i], names[i], found, below.value);
          found := found + below.value + [path];
        } else {
          NotADir(fs.dirs, fs.Files(), dir, path);
        }
      }
      assert names[..|names|] == names;
      forall d | d in fs.dirs && Collects(dir, isRoot, d)
        ensures d[|dir|] in names
      {
        AboveIn(fs.dirs, fs.Files(), d, |dir| + 1);
        assert d[..|dir| + 1] == dir + [d[|dir|]];
        assert Lists(fs.dirs, fs.Files(), dir, d[|dir|]);
      }
      return Ok(found);
  }

  lemma Deeper(dirs: set<Path>, dir: Path, path: Path)
    requires path in dirs && dir < path
    ensures Inside(dirs, path) < Inside(dirs, dir)
  {
    assert path in Inside(dirs, dir) && path !in Inside(dirs, path);
  }

  lemma CollectedSkip(dirs: set<Path>, dir: Path, isRoot: bool, names: seq<string>, name: string, found: seq<Path>)
    requires Collected(dirs, dir, isRoot, names, found) && isRoot && dir == [] && name == DIR
    ensures Collected(dirs, dir, isRoot, names + [name], found)
  {
  }

  lemma PrefixIs(path: Path, d: Path)
    ensures path <= d ==> |path| <= |d| && d[..|path|] == path
  {
  }

  lemma NotADir(dirs: set<Path>, files: Image, dir: Path, path: Path)
    requires TreeOk(dirs, files) && path !in dirs
    ensures forall d | d in dirs :: !(path <= d)
  {
    forall d | d in dirs
      ensures !(path <= d)
    {
      if |path| <= |d| {
        AboveIn(dirs, files, d, |path|);
        PrefixIs(path, d);
      }
    }
  }

  lemma CollectedMore(fs: FileSystem, dir: Path, isRoot: bool, names: seq<string>, name: string, found: seq<Path>,
                      below: seq<Path>)
    requires fs.Valid() && Collected(fs.dirs, dir, isRoot, names, found) && name !in names && !(isRoot && name == DIR)
    requires (isRoot ==> dir == []) && dir + [name] in fs.dirs
    requires Distinct(below) && forall d :: d in below <==> d in fs.dirs && Collects(dir + [name], false, d)
    ensures Collected(fs.dirs, dir, isRoot, names + [name], found + below + [dir + [name]])
  {
    var path := dir + [name];
    var all := found + below + [path];
    forall d | d in below
      ensures d in fs.dirs && Collects(dir, isRoot, d) && d[|dir|] == name
    {
      assert d[|dir|] == path[|dir|] && d[0] == path[0];
    }
    assert path[|dir|] == name && dir < path && Collects(dir, isRoot, path);
    forall d
      ensures d in all <==> d in fs.dirs && Collects(dir, isRoot, d) && d[|dir|] in names + [name]
    {
      if d in fs.dirs && Collects(dir, isRoot, d) && d[|dir|] == name {
        assert d[..|dir| + 1] == path && (d == path || path < d);
      }
    }
    assert forall d | d in found :: d[|dir|] != name;
    DistinctConcat(found, below);
    DistinctConcat(found + below, [path]);
  }

  lemma DistinctConcat(a: seq<Path>, b: seq<Path>)
    requires Distinct(a) && Distinct(b) && forall d | d in a :: d !in b
    ensures Distinct(a + b)
  {
    var ab := a + b;
    forall i, j | 0 <= i < j < |ab|
      ensures ab[i] != ab[j]
    {
      if i < |a| && j >= |a| {
        assert ab[i] in a && ab[j] == b[j - |a|] && ab[j] in b;
      }
    }
  }

  // -- deepest first --------------------------------------------------------

  function InsertByDepth(dir: Path, sorted: seq<Path>): seq<Path> {
    if sorted == [] || |dir| >= |sorted[0]| then [dir] + sorted
    else [sorted[0]] + InsertByDepth(dir, sorted[1..])
  }

  /** What a sort by the number of components, reversed, comes to. */
  function ByDepth(dirs: seq<Path>): seq<Path> {
    if dirs == [] then [] else InsertByDepth(dirs[0], ByDepth(dirs[1..]))
  }

  ghost predicate DeepestFirst(dirs: seq<Path>) {
    forall i, j | 0 <= i < j < |dirs| :: |dirs[i]| >= |dirs[j]|
  }

  lemma {:induction false} InsertKeeps(dir: Path, sorted: seq<Path>)
    requires DeepestFirst(sorted) && Distinct(sorted) && dir !in sorted
    ensures var r := InsertByDepth(dir, sorted);
            DeepestFirst(r) && Distinct(r) && forall d :: d in r <==> d == dir || d in sorted
    decreases |sorted|
  {
    if sorted == [] || |dir| >= |sorted[0]| {
      assert InsertByDepth(dir, sorted) == [dir] + sorted;
    } else {
      InsertKeeps(dir, sorted[1..]);
      var rest := InsertByDepth(dir, sorted[1..]);
      assert sorted == [sorted[0]] + sorted[1..] && sorted[0] !in sorted[1..];
      forall i | 0 <= i < |rest|
        ensures |rest[i]| <= |sorted[0]| && rest[i] != sorted[0]
      {
        assert rest[i] in rest;
      }
    }
  }

  /** The sort is one: nothing is added or lost, and depth never grows along it. */
  lemma {:induction false} ByDepthSorts(dirs: seq<Path>)
    requires Distinct(dirs)
    ensures DeepestFirst(ByDepth(dirs)) && Distinct(ByDepth(dirs))
    ensures forall d :: d in ByDepth(dirs) <==> d in dirs
    decreases |dirs|
  {
    if dirs != [] {
      assert dirs == [dirs[0]] + dirs[1..] && dirs[0] !in dirs[1..];
      ByDepthSorts(dirs[1..]);
      InsertKeeps(dirs[0], ByDepth(dirs[1..]));
    }
  }

  // -- pruning --------------------------------------------------------------

  /**
  Exact: a directory goes if and only if it is below the root, not the temporary one,
  and no file lies anywhere under it. No file is touched, and the count is right.
  */
  method PruneEmptyDirs(fs: FileSystem) returns (r: Result<nat, Kind>)
    requires fs.Valid()
    modifies fs`dirs
    ensures fs.Valid() && fs.dirs <= old(fs.dirs)
    ensures r.Ok? ==> r.value == |old(fs.dirs) - fs.dirs|
    ensures r.Err? ==> fs.dirs == old(fs.dirs)
    ensures forall d | d in old(fs.dirs) - fs.dirs :: Prunable(fs.Files(), d)
    ensures fs.reliable ==> r.Ok? && forall d | d in fs.dirs :: !Prunable(fs.Files(), d)
  {
    var collected := CollectDirs(fs, [], true);
    if collected.Err? {
      return Err(collected.error);
    }
    var sorted := ByDepth(collected.value);
    ByDepthSorts(collected.value);
    var removed := 0;
    for i := 0 to |sorted|
      invariant Pruned(fs, old(fs.dirs), sorted, i) && removed == |old(fs.dirs) - fs.dirs|
    {
      var gone := PruneOne(fs, old(fs.dirs), sorted, i);
      removed := removed + if gone then 1 else 0;
    }
    assert forall d | d in fs.dirs && Prunable(fs.Files(), d) :: d in sorted;
    return Ok(removed);
  }

  /** The first `i` were tried, and what could go of them went. */
  ghost predicate Pruned(fs: FileSystem, start: set<Path>, sorted: seq<Path>, i: nat)
    reads fs
  {
    && fs.Valid() && fs.dirs <= start && i <= |sorted|
    && (forall d | d in start - fs.dirs :: Prunable(fs.Files(), d))
    && (forall k | i <= k < |sorted| :: sorted[k] in fs.dirs)
    && (fs.reliable ==> forall k | 0 <= k < i && Prunable(fs.Files(), sorted[k]) :: sorted[k] !in fs.dirs)
  }

  method PruneOne(fs: FileSystem, ghost start: set<Path>, sorted: seq<Path>, i: nat) returns (gone: bool)
    requires Pruned(fs, start, sorted, i) && i < |sorted| && DeepestFirst(sorted) && Distinct(sorted)
    requires forall d :: d in sorted <==> d in start && Collects([], true, d)
    modifies fs`dirs
    ensures Pruned(fs, start, sorted, i + 1)
    ensures |start - fs.dirs| == |start - old(fs.dirs)| + if gone then 1 else 0
  {
    var dir := sorted[i];
    assert dir in sorted;
    if Prunable(fs.Files(), dir) && fs.reliable {
      NothingLeft(fs, start, sorted, i);
    }
    var removed := fs.RemoveDir(dir);
    gone := removed.Ok?;
    if gone {
      NothingUnder(old(fs.dirs), fs.Files(), dir);
      OneFewer(start, old(fs.dirs), dir);
    }
  }

  lemma NothingLeft(fs: FileSystem, before: set<Path>, sorted: seq<Path>, i: nat)
    requires fs.Valid() && i < |sorted| && fs.dirs <= before && DeepestFirst(sorted)
    requires forall d :: d in sorted <==> d in before && Collects([], true, d)
    requires Prunable(fs.Files(), sorted[i])
    requires forall k | 0 <= k < i && Prunable(fs.Files(), sorted[k]) :: sorted[k] !in fs.dirs
    ensures forall name :: !Lists(fs.dirs, fs.Files(), sorted[i], name)
  {
    var dir := sorted[i];
    forall name
      ensures !Lists(fs.dirs, fs.Files(), dir, name)
    {
      var path := dir + [name];
      assert path !in fs.Files();
      if path in before {
        assert path in sorted && Prunable(fs.Files(), path);
        var k :| 0 <= k < |sorted| && sorted[k] == path;
        assert sorted[k] !in fs.dirs;
      }
    }
  }

  lemma OneFewer(start: set<Path>, was: set<Path>, dir: Path)
    requires was <= start && dir in was
    ensures start - (was - {dir}) == (start - was) + {dir} && |start - (was - {dir})| == |start - was| + 1
  {
    assert start - (was - {dir}) == (start - was) + {dir};
  }

  lemma NothingUnder(dirs: set<Path>, files: Image, dir: Path)
    requires TreeOk(dirs, files) && dir in dirs && forall name :: !Lists(dirs, files, dir, name)
    ensures !Holds(files, dir)
  {
    forall p | p in files
      ensures !(dir < p) && p != dir
    {
      if dir < p {
        ListsFirst(dirs, files, dir, p);
      }
    }
  }
}
