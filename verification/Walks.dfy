/**
The walk over a store's files: a pile of directories still to read, and what the last
one read still has to hand out.
*/
module Walks {
  import opened Wrappers
  import opened Digests
  import opened Layouts
  import opened TempNames
  import opened Disks
  import opened FileSystems

  datatype Entry = Entry(digest: Digest, path: Path, form: Form)

  datatype Walk = OnlyEntries | All | SetAside

  /** What a name stands for in this kind of walk. */
  function Wants(walk: Walk, layout: Layout, name: string): Option<(Digest, Form)> {
    if walk != SetAside && layout.ParseName(name).Some? then layout.ParseName(name)
    else if walk != OnlyEntries then layout.ParseQuarantined(name)
    else None
  }

  /** Below the temporary directory, which is nobody's business but the writers'. */
  predicate InTemp(p: Path) { p != [] && p[0] == DIR }

  /** The files a walk is for: by name, anywhere in the tree but the temporary directory. */
  predicate Yields(walk: Walk, layout: Layout, p: Path) {
    p != [] && !(|p| > 1 && InTemp(p)) && Wants(walk, layout, Name(p)).Some?
  }

  /** Which files each of the three walks is for, spelt out: those below the temporary directory never. */
  lemma YieldsExactly(layout: Layout, p: Path)
    requires p != []
    ensures var outside, name := |p| == 1 || p[0] != "tmp", Name(p);
            && (Yields(OnlyEntries, layout, p) <==> outside && layout.ParseName(name).Some?)
            && (Yields(SetAside, layout, p) <==> outside && layout.ParseQuarantined(name).Some?)
            && (Yields(All, layout, p) <==> outside && (layout.ParseName(name).Some? || layout.ParseQuarantined(name).Some?))
    ensures Wants(OnlyEntries, layout, Name(p)) == layout.ParseName(Name(p))
    ensures Wants(SetAside, layout, Name(p)) == layout.ParseQuarantined(Name(p))
  {
  }

  /** Where an entry belongs, a walk over entries finds it. */
  lemma PlaceIsEntry(layout: Layout, digest: Digest, form: Form)
    requires layout.Valid() && layout.Shard(digest).Some?
    ensures Yields(OnlyEntries, layout, Place(layout, digest, form))
  {
    var p, shard := Place(layout, digest, form), layout.Shard(digest).value;
    PlaceNames(layout, digest, form);
    assert Name(p) == layout.FileName(digest, form);
    assert |p| > 1 ==> p[0] == shard[0] && |p[0]| == 2;
  }

  ghost function Walked(walk: Walk, layout: Layout, files: Image): set<Path> {
    set p | p in files && Yields(walk, layout, p)
  }

  /** The walk over entries and the one over set-aside files share the combined walk out between them. */
  lemma {:induction false} WalksPartition(layout: Layout, files: Image)
    requires layout.Valid()
    ensures Walked(All, layout, files) == Walked(OnlyEntries, layout, files) + Walked(SetAside, layout, files)
    ensures Walked(OnlyEntries, layout, files) !! Walked(SetAside, layout, files)
    ensures forall p | p in Walked(All, layout, files) ::
              Wants(All, layout, Name(p))
              == Wants(if p in Walked(OnlyEntries, layout, files) then OnlyEntries else SetAside, layout, Name(p))
  {
    forall p | p in files && p != []
      ensures !(layout.ParseName(Name(p)).Some? && layout.ParseQuarantined(Name(p)).Some?)
    {
      EntryOrQuarantined(layout, Name(p));
    }
  }

  predicate Covers(dirs: seq<Path>, p: Path) { exists i | 0 <= i < |dirs| :: dirs[i] <= p }

  /** No two on the pile lie in one another, and none is the temporary directory. */
  ghost predicate Apart(dirs: seq<Path>) {
    && (forall i | 0 <= i < |dirs| :: !InTemp(dirs[i]))
    && (forall i, j | 0 <= i < |dirs| && 0 <= j < |dirs| && i != j :: !(dirs[i] <= dirs[j]))
  }

  /** Everything wanted under the pile. */
  ghost function Below(walk: Walk, layout: Layout, files: Image, dirs: seq<Path>): set<Path> {
    set p | p in files && Yields(walk, layout, p) && Covers(dirs, p)
  }

  ghost function ReadyPaths(ready: seq<Result<Entry, Kind>>): set<Path> {
    set i | 0 <= i < |ready| && ready[i].Ok? :: ready[i].value.path
  }

  /** What was read is what it says it is, comes up once, and is not coming up again from the pile. */
  ghost predicate ReadyOk(walk: Walk, layout: Layout, ready: seq<Result<Entry, Kind>>, dirs: seq<Path>) {
    && (forall i | 0 <= i < |ready| && ready[i].Ok? :: EntryOk(walk, layout, ready[i].value, dirs))
    && (forall i, j | 0 <= i < j < |ready| && ready[i].Ok? && ready[j].Ok? :: ready[i].value.path != ready[j].value.path)
  }

  ghost predicate EntryOk(walk: Walk, layout: Layout, entry: Entry, dirs: seq<Path>) {
    && Yields(walk, layout, entry.path) && Wants(walk, layout, Name(entry.path)) == Some((entry.digest, entry.form))
    && !Covers(dirs, entry.path)
  }

  /** The directories a pile still owes. */
  ghost function UnreadOf(known: set<Path>, dirs: seq<Path>): set<Path> {
    set d | d in known + (set i | 0 <= i < |dirs| :: dirs[i]) && !InTemp(d) && Covers(dirs, d)
  }

  /** Wanted files at or under a path. */
  ghost function Under(walk: Walk, layout: Layout, files: Image, path: Path): set<Path> {
    set p | p in files && Yields(walk, layout, p) && path <= p
  }

  /** A directory being read: which of its directories are on the pile so far. */
  ghost predicate Piled(pile: seq<Path>, dir: Path, done: seq<string>, dirs: seq<Path>, known: set<Path>) {
    && pile <= dirs
    && (forall i | |pile| <= i < |dirs| :: dirs[i] != [] && Parent(dirs[i]) == dir && Name(dirs[i]) in done
                                           && dirs[i] in known && !InTemp(dirs[i]))
    && (forall i, j | |pile| <= i < j < |dirs| :: Name(dirs[i]) != Name(dirs[j]))
  }

  /** And which of its files came up so far. */
  ghost predicate Found(files: Image, dir: Path, done: seq<string>, found: seq<Result<Entry, Kind>>) {
    forall i | 0 <= i < |found| && found[i].Ok? ::
      var p := found[i].value.path;
      p in files && p != [] && Parent(p) == dir && Name(p) in done
  }

  /** Everything wanted behind the names done is coming up or was lost. */
  ghost predicate Accounted(walk: Walk, layout: Layout, files: Image, dir: Path, done: seq<string>,
                            found: seq<Result<Entry, Kind>>, dirs: seq<Path>, lost: set<Path>) {
    forall p | p in files && Yields(walk, layout, p) && dir < p && p[|dir|] in done ::
      p in ReadyPaths(found) || Covers(dirs, p) || p in lost
  }

  lemma PiledApart(pile: seq<Path>, dir: Path, done: seq<string>, dirs: seq<Path>, known: set<Path>)
    requires Apart(pile + [dir]) && Piled(pile, dir, done, dirs, known)
    ensures Apart(dirs) && !Covers(dirs, dir)
  {
    Uncovered(pile, dir);
    var all := pile + [dir];
    assert all[|pile|] == dir && forall i | 0 <= i < |pile| :: all[i] == dirs[i];
    forall i, j | 0 <= i < |dirs| && 0 <= j < |dirs| && i != j
      ensures !(dirs[i] <= dirs[j])
    {
      if i >= |pile| {
        UnderParent(dirs[i], dirs[j]);
      } else if j >= |pile| {
        UnderParent(dirs[j], dirs[i]);
        OnlyParent(dirs[i], dirs[j]);
      } else {
        assert !(all[i] <= all[j]);
      }
    }
  }

  lemma OnlyParent(q: Path, p: Path)
    requires p != []
    ensures q <= p ==> q == p || q <= Parent(p)
  {
  }

  lemma UnderParent(q: Path, p: Path)
    requires q != []
    ensures q <= p ==> Parent(q) <= p && Name(q) == p[|q| - 1]
  {
  }

  class Entries {
    const fs: FileSystem
    const layout: Layout
    const walk: Walk
    var dirs: seq<Path>
    var ready: seq<Result<Entry, Kind>>

    /** Files that will not come up because something on the way to them failed. */
    ghost var lost: set<Path>
    /** Whether a failure was handed out. */
    ghost var reported: bool

    ghost predicate Valid()
      reads this, fs
    {
      && fs.Valid() && layout.Valid() && Apart(dirs) && ReadyOk(walk, layout, ready, dirs)
      && (lost != {} ==> reported || exists i :: 0 <= i < |ready| && ready[i].Err?)
    }

    /** What is still to come, if nothing fails. */
    ghost function Remaining(): set<Path>
      reads this, fs
    {
      ReadyPaths(ready) + Below(walk, layout, fs.Files(), dirs)
    }

    ghost function Unread(): set<Path>
      reads this, fs
    {
      UnreadOf(fs.dirs, dirs)
    }

    /** Nothing on the pile has gone. */
    ghost predicate Standing()
      reads this, fs
    {
      forall i | 0 <= i < |dirs| :: dirs[i] in fs.dirs
    }

    /** Nothing failed so far, and nothing on the pile has gone. */
    ghost predicate Faultless()
      reads this, fs
    {
      lost == {} && !reported && (forall i | 0 <= i < |ready| :: ready[i].Ok?) && Standing()
    }

    constructor (fs: FileSystem, layout: Layout, walk: Walk)
      requires fs.Valid() && layout.Valid()
      ensures Valid() && this.fs == fs && this.layout == layout && this.walk == walk
      ensures Remaining() == Walked(walk, layout, fs.Files()) && Faultless()
    {
      this.fs, this.layout, this.walk := fs, layout, walk;
      dirs, ready, lost, reported := [[]], [], {}, false;
      new;
      forall p: Path
        ensures Covers(dirs, p)
      {
        assert dirs[0] <= p;
      }
    }

    /**
    The next entry. Everything wanted comes up exactly once, with what its name says;
    what does not come up was lost to a failure, and then a failure comes up too.
    */
    method Next() returns (r: Option<Result<Entry, Kind>>)
      requires Valid()
      modifies this
      ensures Valid()
      ensures r.None? ==> ready == [] && dirs == [] && old(Remaining()) <= lost && (lost != {} ==> reported)
      ensures r.Some? && r.value.Ok? ==>
                var entry := r.value.value;
                && EntryOk(walk, layout, entry, dirs) && entry.path !in Remaining()
                && Remaining() + {entry.path} <= old(Remaining()) <= Remaining() + {entry.path} + lost
      ensures reported == (old(reported) || (r.Some? && r.value.Err?))
      ensures r.Some? && r.value.Err? ==> Remaining() <= old(Remaining()) <= Remaining() + lost
      ensures r.Some? ==> Unread() < old(Unread()) || (Unread() == old(Unread()) && |ready| < |old(ready)|)
      ensures old(lost) <= lost
      ensures fs.reliable && old(Faultless()) ==> Faultless()
      ensures old(Standing()) ==> Standing()
    {
      FillUp();
      if ready == [] {
        return None;
      }
      var first := TakeReady();
      return Some(first);
    }

    /** Read directories until something comes up or none is left. */
    method FillUp()
      requires Valid()
      modifies this`dirs, this`ready, this`lost
      ensures Valid() && old(lost) <= lost && (ready == [] ==> dirs == [])
      ensures Remaining() <= old(Remaining()) <= Remaining() + lost
      ensures Unread() < old(Unread()) || (Unread() == old(Unread()) && ready == old(ready))
      ensures fs.reliable && old(Faultless()) ==> Faultless()
      ensures old(Standing()) ==> Standing()
    {
      while ready == [] && dirs != []
        invariant Valid() && old(lost) <= lost
        invariant Remaining() <= old(Remaining()) <= Remaining() + lost
        invariant Unread() < old(Unread()) || (Unread() == old(Unread()) && ready == old(ready))
        invariant fs.reliable && old(Faultless()) ==> Faultless()
        invariant old(Standing()) ==> Standing()
        decreases Unread()
      {
        Refill();
      }
    }

    method TakeReady() returns (first: Result<Entry, Kind>)
      requires Valid() && ready != []
      modifies this`ready, this`reported
      ensures Valid() && first == old(ready)[0] && ready == old(ready)[1..] && reported == (old(reported) || first.Err?)
      ensures first.Ok? ==>
                && EntryOk(walk, layout, first.value, dirs) && first.value.path !in Remaining()
                && old(Remaining()) == Remaining() + {first.value.path}
      ensures first.Err? ==> Remaining() == old(Remaining())
    {
      first := ready[0];
      FirstReady(walk, layout, ready, dirs);
      ready := ready[1..];
      reported := reported || first.Err?;
    }

    /** Take a directory off the pile and read it. */
    method Refill()
      requires Valid() && ready == [] && dirs != []
      modifies this`dirs, this`ready, this`lost
      ensures Valid() && old(lost) <= lost
      ensures Remaining() <= old(Remaining()) <= Remaining() + lost
      ensures Unread() < old(Unread())
      ensures fs.reliable && old(Faultless()) ==> Faultless()
      ensures old(Standing()) ==> Standing()
    {
      var dir := dirs[|dirs| - 1];
      assert dirs == dirs[..|dirs| - 1] + [dir];
      dirs := dirs[..|dirs| - 1];
      Load(dir);
    }

    /** Read one directory whole: what it holds comes up next, its directories go on the pile. */
    method Load(dir: Path)
      requires fs.Valid() && layout.Valid() && ready == [] && Apart(dirs + [dir]) && (lost != {} ==> reported)
      modifies this`dirs, this`ready, this`lost
      ensures Valid() && old(lost) <= lost
      ensures Remaining() <= Below(walk, layout, fs.Files(), old(dirs) + [dir]) <= Remaining() + lost
      ensures Unread() < UnreadOf(fs.dirs, old(dirs) + [dir])
      ensures fs.reliable && dir in fs.dirs && old(Faultless()) ==> Faultless()
      ensures old(Standing()) ==> Standing()
    {
      var listing := fs.ReadDir(dir);
      match listing
      case Err(kind) =>
        PiledApart(dirs, dir, [], dirs, fs.dirs);
        ShrinksUnread(fs.dirs, dirs, dir, [], dirs);
        ready := [Err(kind)];
        assert ready[0].Err?;
        lost := lost + Under(walk, layout, fs.Files(), dir);
        LosesUnder(walk, layout, fs.Files(), dirs, dir);
      case Ok(names) =>
        LoadNames(dir, names);
    }

    method LoadNames(dir: Path, names: seq<string>)
      requires fs.Valid() && layout.Valid() && ready == [] && Apart(dirs + [dir]) && (lost != {} ==> reported)
      requires dir in fs.dirs && Distinct(names)
      requires forall name :: name in names <==> Lists(fs.dirs, fs.Files(), dir, name)
      modifies this`dirs, this`ready, this`lost
      ensures Valid() && old(lost) <= lost
      ensures Remaining() <= Below(walk, layout, fs.Files(), old(dirs) + [dir]) <= Remaining() + lost
      ensures Unread() < UnreadOf(fs.dirs, old(dirs) + [dir])
      ensures fs.reliable && old(Faultless()) ==> Faultless()
      ensures old(Standing()) ==> Standing()
    {
      ghost var pile := dirs;
      Uncovered(pile, dir);
      ready := ReadNames(pile, dir, names);
      PiledApart(pile, dir, names, dirs, fs.dirs);
      ShrinksUnread(fs.dirs, pile, dir, names, dirs);
      AllAccounted(walk, layout, fs, pile, dir, names, ready, dirs, lost);
    }

    /** Sort a listing into directories for the pile and files that come up. */
    method ReadNames(ghost pile: seq<Path>, dir: Path, names: seq<string>) returns (found: seq<Result<Entry, Kind>>)
      requires fs.Valid() && dir in fs.dirs && !InTemp(dir) && dirs == pile && Distinct(names)
      requires forall name :: name in names <==> Lists(fs.dirs, fs.Files(), dir, name)
      modifies this`dirs, this`lost
      ensures Piled(pile, dir, names, dirs, fs.dirs) && old(lost) <= lost
      ensures ReadyOk(walk, layout, found, []) && Found(fs.Files(), dir, names, found)
      ensures Accounted(walk, layout, fs.Files(), dir, names, found, dirs, lost)
      ensures lost != old(lost) ==> exists i :: 0 <= i < |found| && found[i].Err?
      ensures fs.reliable ==> lost == old(lost) && forall i | 0 <= i < |found| :: found[i].Ok?
    {
      found := [];
      for i := 0 to |names|
        invariant old(lost) <= lost
        invariant Piled(pile, dir, names[..i], dirs, fs.dirs)
        invariant ReadyOk(walk, layout, found, []) && Found(fs.Files(), dir, names[..i], found)
        invariant Accounted(walk, layout, fs.Files(), dir, names[..i], found, dirs, lost)
        invariant lost != old(lost) ==> exists i :: 0 <= i < |found| && found[i].Err?
        invariant fs.reliable ==> lost == old(lost) && forall i | 0 <= i < |found| :: found[i].Ok?
      {
        assert names[..i + 1] == names[..i] + [names[i]] && names[i] !in names[..i];
        found := ReadName(pile, dir, names[..i], names[i], found);
      }
      assert names[..|names|] == names;
    }

    method ReadName(ghost pile: seq<Path>, dir: Path, ghost done: seq<string>, name: string, found: seq<Result<Entry, Kind>>)
      returns (found': seq<Result<Entry, Kind>>)
      requires fs.Valid() && dir in fs.dirs && !InTemp(dir) && name !in done && Lists(fs.dirs, fs.Files(), dir, name)
      requires Piled(pile, dir, done, dirs, fs.dirs) && ReadyOk(walk, layout, found, []) && Found(fs.Files(), dir, done, found)
      requires Accounted(walk, layout, fs.Files(), dir, done, found, dirs, lost)
      modifies this`dirs, this`lost
      ensures Piled(pile, dir, done + [name], dirs, fs.dirs)
      ensures ReadyOk(walk, layout, found', []) && Found(fs.Files(), dir, done + [name], found')
      ensures Accounted(walk, layout, fs.Files(), dir, done + [name], found', dirs, lost)
      ensures found <= found' && old(lost) <= lost
      ensures lost != old(lost) ==> found' != [] && found'[|found'| - 1].Err?
      ensures fs.reliable ==> lost == old(lost) && (found' == found || found'[|found'| - 1].Ok?) && |found'| <= |found| + 1
    {
      var path := dir + [name];
      assert Parent(path) == dir && Name(path) == name;
      found' := found;
      var fault := fs.Fault();
      if fault {
        found' := found + [Err(Other)];
        lost := lost + Under(walk, layout, fs.Files(), path);
      } else if path in fs.dirs {
        if !(dir == [] && name == DIR) {
          dirs := dirs + [path];
        }
      } else if Wants(walk, layout, name).Some? {
        var (digest, form) := Wants(walk, layout, name).value;
        found' := found + [Ok(Entry(digest, path, form))];
      }
      PiledMore(pile, dir, done, old(dirs), fs.dirs, name);
      FoundMore(walk, layout, fs.Files(), dir, done, found, name);
      OneMore(walk, layout, fs, dir, done, name, found, old(dirs), old(lost), found', dirs, lost);
    }
  }

  /**
  The whole walk over a tree that holds still: every wanted file exactly once, and
  nothing else. A walk that covers less than that says so.
  */
  method Collect(fs: FileSystem, layout: Layout, walk: Walk) returns (found: seq<Entry>, failures: nat)
    requires fs.Valid() && layout.Valid()
    ensures exists seen :: Listing(walk, layout, found, seen) && seen <= Walked(walk, layout, fs.Files())
    ensures failures == 0 ==> Listing(walk, layout, found, Walked(walk, layout, fs.Files()))
    ensures fs.reliable ==> failures == 0
  {
    var entries := new Entries(fs, layout, walk);
    found, failures := [], 0;
    ghost var all := entries.Remaining();
    ghost var seen: set<Path> := {};
    while true
      invariant entries.Valid() && entries.fs == fs && entries.layout == layout && entries.walk == walk && fresh(entries)
      invariant Listing(walk, layout, found, seen) && seen !! entries.Remaining()
      invariant seen + entries.Remaining() <= all <= seen + entries.Remaining() + entries.lost
      invariant entries.reported <==> failures > 0
      invariant fs.reliable ==> entries.Faultless()
      decreases entries.Unread(), |entries.ready|
    {
      var item := entries.Next();
      match item
      case None =>
        return;
      case Some(Err(_)) =>
        failures := failures + 1;
      case Some(Ok(entry)) =>
        ListingStep(walk, layout, found, seen, entry);
        found := found + [entry];
        seen := seen + {entry.path};
    }
  }

  /** These entries, each once, with what their names say. */
  ghost predicate Listing(walk: Walk, layout: Layout, found: seq<Entry>, seen: set<Path>) {
    && (forall i, j | 0 <= i < j < |found| :: found[i].path != found[j].path)
    && (forall i | 0 <= i < |found| ::
          && found[i].path in seen && found[i].path != []
          && Wants(walk, layout, Name(found[i].path)) == Some((found[i].digest, found[i].form)))
    && (forall p | p in seen :: exists i :: 0 <= i < |found| && found[i].path == p)
  }

  lemma ListingStep(walk: Walk, layout: Layout, found: seq<Entry>, seen: set<Path>, entry: Entry)
    requires Listing(walk, layout, found, seen) && entry.path !in seen && entry.path != []
    requires Wants(walk, layout, Name(entry.path)) == Some((entry.digest, entry.form))
    ensures Listing(walk, layout, found + [entry], seen + {entry.path})
  {
    var more := found + [entry];
    assert forall i | 0 <= i < |found| :: more[i] == found[i];
    assert more[|found|] == entry;
    forall p | p in seen
      ensures exists i :: 0 <= i < |more| && more[i].path == p
    {
      var i :| 0 <= i < |found| && found[i].path == p;
      assert more[i].path == p;
    }
  }

  lemma FirstReady(walk: Walk, layout: Layout, ready: seq<Result<Entry, Kind>>, dirs: seq<Path>)
    requires ready != [] && ReadyOk(walk, layout, ready, dirs)
    ensures ReadyOk(walk, layout, ready[1..], dirs)
    ensures ReadyPaths(ready) == ReadyPaths(ready[1..]) + if ready[0].Ok? then {ready[0].value.path} else {}
    ensures ready[0].Ok? ==> ready[0].value.path !in ReadyPaths(ready[1..])
    ensures (exists i :: 0 <= i < |ready| && ready[i].Err?) ==> ready[0].Err? || exists i :: 0 <= i < |ready[1..]| && ready[1..][i].Err?
  {
    var rest := ready[1..];
    assert forall i | 0 <= i < |rest| :: rest[i] == ready[i + 1];
    forall p | p in ReadyPaths(ready)
      ensures p in ReadyPaths(rest) || (ready[0].Ok? && p == ready[0].value.path)
    {
      var i :| 0 <= i < |ready| && ready[i].Ok? && ready[i].value.path == p;
      assert i > 0 ==> rest[i - 1] == ready[i];
    }
    if i :| 0 <= i < |ready| && ready[i].Err? {
      assert i > 0 ==> rest[i - 1].Err?;
    }
  }

  lemma LosesUnder(walk: Walk, layout: Layout, files: Image, pile: seq<Path>, dir: Path)
    ensures Below(walk, layout, files, pile) <= Below(walk, layout, files, pile + [dir])
            <= Below(walk, layout, files, pile) + Under(walk, layout, files, dir)
  {
    var all := pile + [dir];
    forall p
      ensures Covers(all, p) <==> Covers(pile, p) || dir <= p
    {
      if Covers(all, p) {
        var i :| 0 <= i < |all| && all[i] <= p;
        assert i < |pile| ==> pile[i] <= p;
      }
      if i :| 0 <= i < |pile| && pile[i] <= p {
        assert all[i] <= p;
      }
      if dir <= p {
        assert all[|pile|] <= p;
      }
    }
  }

  /** A directory apart from the pile is not covered by it. */
  lemma Uncovered(dirs: seq<Path>, dir: Path)
    requires Apart(dirs + [dir])
    ensures Apart(dirs) && !Covers(dirs, dir) && !InTemp(dir)
  {
    var all := dirs + [dir];
    assert forall i | 0 <= i < |dirs| :: all[i] == dirs[i];
    assert all[|dirs|] == dir;
  }

  lemma PiledMore(pile: seq<Path>, dir: Path, done: seq<string>, dirs: seq<Path>, known: set<Path>, name: string)
    requires Piled(pile, dir, done, dirs, known) && name !in done
    ensures Piled(pile, dir, done + [name], dirs, known)
    ensures dir + [name] in known && !InTemp(dir + [name]) ==> Piled(pile, dir, done + [name], dirs + [dir + [name]], known)
  {
    assert Parent(dir + [name]) == dir && Name(dir + [name]) == name;
  }

  lemma FoundMore(walk: Walk, layout: Layout, files: Image, dir: Path, done: seq<string>,
                  found: seq<Result<Entry, Kind>>, name: string)
    requires ReadyOk(walk, layout, found, []) && Found(files, dir, done, found) && name !in done && !InTemp(dir)
    ensures Found(files, dir, done + [name], found)
    ensures ReadyOk(walk, layout, found + [Err(Other)], []) && Found(files, dir, done + [name], found + [Err(Other)])
    ensures Wants(walk, layout, name).Some? && dir + [name] in files ==>
              var (digest, form) := Wants(walk, layout, name).value;
              var more := found + [Ok(Entry(digest, dir + [name], form))];
              ReadyOk(walk, layout, more, []) && Found(files, dir, done + [name], more)
  {
    assert Parent(dir + [name]) == dir && Name(dir + [name]) == name;
  }

  lemma OneMore(walk: Walk, layout: Layout, fs: FileSystem, dir: Path, done: seq<string>, name: string,
                found: seq<Result<Entry, Kind>>, dirs: seq<Path>, lost: set<Path>,
                found': seq<Result<Entry, Kind>>, dirs': seq<Path>, lost': set<Path>)
    requires fs.Valid() && dir in fs.dirs && !InTemp(dir)
    requires Accounted(walk, layout, fs.Files(), dir, done, found, dirs, lost)
    requires found <= found' && dirs <= dirs' && lost <= lost'
    requires var path := dir + [name];
             || Under(walk, layout, fs.Files(), path) <= lost'
             || (path in fs.dirs && (dirs' == dirs + [path] || path == [DIR]))
             || (path !in fs.dirs && Wants(walk, layout, name).None?)
             || (path !in fs.dirs && |found'| > |found| && found'[|found|].Ok? && found'[|found|].value.path == path)
    ensures Accounted(walk, layout, fs.Files(), dir, done + [name], found', dirs', lost')
  {
    var path, files := dir + [name], fs.Files();
    assert forall i | 0 <= i < |found| :: found'[i] == found[i];
    assert forall i | 0 <= i < |dirs| :: dirs'[i] == dirs[i];
    forall p | p in files && Yields(walk, layout, p) && dir < p && p[|dir|] in done + [name]
      ensures p in ReadyPaths(found') || Covers(dirs', p) || p in lost'
    {
      if p[|dir|] in done {
        assert p in ReadyPaths(found) ==> p in ReadyPaths(found');
        assert Covers(dirs, p) ==> Covers(dirs', p);
      } else {
        assert path <= p;
        if p != path {
          AboveIn(fs.dirs, files, Parent(p), |dir| + 1);
          assert Parent(p)[..|dir| + 1] == path;
          assert dirs' == dirs + [path] ==> dirs'[|dirs|] <= p;
        } else {
          assert Name(p) == name;
        }
      }
    }
  }

  /** What is on the pile after a directory was read lay under it or was on the pile before. */
  lemma ShrinksUnread(known: set<Path>, pile: seq<Path>, dir: Path, done: seq<string>, dirs: seq<Path>)
    requires Apart(pile + [dir]) && Piled(pile, dir, done, dirs, known)
    ensures UnreadOf(known, dirs) < UnreadOf(known, pile + [dir])
  {
    var all := pile + [dir];
    PiledApart(pile, dir, done, dirs, known);
    assert all[|pile|] == dir;
    forall d | d in UnreadOf(known, dirs)
      ensures d in UnreadOf(known, all)
    {
      var i :| 0 <= i < |dirs| && dirs[i] <= d;
      if i < |pile| {
        assert all[i] <= d;
      } else {
        assert Parent(dirs[i]) <= d;
      }
      if d in dirs && d !in known {
        var j :| 0 <= j < |dirs| && dirs[j] == d;
        assert j < |pile| && all[j] == d;
      }
    }
    assert dir in UnreadOf(known, all) && dir !in UnreadOf(known, dirs);
  }

  lemma AllAccounted(walk: Walk, layout: Layout, fs: FileSystem, pile: seq<Path>, dir: Path, names: seq<string>,
                     found: seq<Result<Entry, Kind>>, dirs: seq<Path>, lost: set<Path>)
    requires fs.Valid() && dir in fs.dirs && Apart(pile + [dir]) && Piled(pile, dir, names, dirs, fs.dirs)
    requires forall name :: name in names <==> Lists(fs.dirs, fs.Files(), dir, name)
    requires ReadyOk(walk, layout, found, []) && Found(fs.Files(), dir, names, found)
    requires Accounted(walk, layout, fs.Files(), dir, names, found, dirs, lost)
    ensures ReadyOk(walk, layout, found, dirs)
    ensures var files, all := fs.Files(), Below(walk, layout, fs.Files(), pile + [dir]);
            ReadyPaths(found) + Below(walk, layout, files, dirs) <= all
            <= ReadyPaths(found) + Below(walk, layout, files, dirs) + lost
  {
    var files, all := fs.Files(), pile + [dir];
    PiledApart(pile, dir, names, dirs, fs.dirs);
    assert all[|pile|] == dir;
    forall i | 0 <= i < |found| && found[i].Ok?
      ensures !Covers(dirs, found[i].value.path)
    {
      NotCovered(fs, pile, dir, names, dirs, found[i].value.path);
    }
    forall p | p in ReadyPaths(found) + Below(walk, layout, files, dirs)
      ensures p in Below(walk, layout, files, all)
    {
      if p in ReadyPaths(found) {
        assert Parent(p) <= p;
      } else {
        var i :| 0 <= i < |dirs| && dirs[i] <= p;
        if i < |pile| {
          assert all[i] <= p;
        } else {
          assert Parent(dirs[i]) <= p;
        }
      }
    }
    forall p | p in Below(walk, layout, files, all)
      ensures p in ReadyPaths(found) || Covers(dirs, p) || p in lost
    {
      var i :| 0 <= i < |all| && all[i] <= p;
      if i < |pile| {
        assert dirs[i] <= p;
      } else {
        assert p != dir;
        ListsFirst(fs.dirs, files, dir, p);
      }
    }
  }

  lemma NotCovered(fs: FileSystem, pile: seq<Path>, dir: Path, names: seq<string>, dirs: seq<Path>, p: Path)
    requires fs.Valid() && Apart(pile + [dir]) && Piled(pile, dir, names, dirs, fs.dirs)
    requires p in fs.Files() && p != [] && Parent(p) == dir
    ensures !Covers(dirs, p)
  {
    var all := pile + [dir];
    PiledApart(pile, dir, names, dirs, fs.dirs);
    assert all[|pile|] == dir && forall i | 0 <= i < |pile| :: all[i] == dirs[i];
    forall i | 0 <= i < |dirs|
      ensures !(dirs[i] <= p)
    {
      OnlyParent(dirs[i], p);
    }
  }

  /** Below a directory lies nothing but what it lists and what lies below that. */
  lemma ListsFirst(dirs: set<Path>, files: Image, dir: Path, p: Path)
    requires TreeOk(dirs, files) && p in files && dir < p
    ensures Lists(dirs, files, dir, p[|dir|])
  {
    var path := p[..|dir| + 1];
    assert path == dir + [p[|dir|]];
    if p != path {
      AboveIn(dirs, files, Parent(p), |dir| + 1);
      assert Parent(p)[..|dir| + 1] == path;
    }
  }
}
