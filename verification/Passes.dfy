/** What the passes over a whole store share: a walk whose store is changed under it, and a tally. */
module Passes {
  import opened Wrappers
  import opened Layouts
  import opened TempNames
  import opened Forms
  import opened Disks
  import opened FileSystems
  import opened Walks
  import opened Conversions
  import opened Stores

  // -- what a step leaves of a walk -----------------------------------------

  /** A change outside what the pile covers changes nothing about what is still to come. */
  lemma BelowSame(walk: Walk, layout: Layout, files: Image, files': Image, dirs: seq<Path>, paths: set<Path>)
    requires SameBut(files, files', paths)
    requires forall p | p in paths :: !Covers(dirs, p) || !Yields(walk, layout, p) || (p in files <==> p in files')
    ensures Below(walk, layout, files', dirs) == Below(walk, layout, files, dirs)
  {
  }

  /** A name in the directory an entry came out of is not under the pile, unless it is itself on it. */
  lemma SiblingNotCovered(dirs: seq<Path>, known: set<Path>, path: Path, sibling: Path)
    requires path != [] && sibling != [] && Parent(path) == Parent(sibling) && !Covers(dirs, path)
    requires (forall i | 0 <= i < |dirs| :: dirs[i] in known) && sibling !in known
    ensures !Covers(dirs, sibling)
  {
    forall i | 0 <= i < |dirs|
      ensures !(dirs[i] <= sibling)
    {
      OnlyParent(dirs[i], sibling);
      assert Parent(path) <= path;
    }
  }

  lemma UnreadSame(known: set<Path>, known': set<Path>, dirs: seq<Path>)
    requires known <= known' <= known + {[DIR]}
    ensures UnreadOf(known', dirs) == UnreadOf(known, dirs)
  {
    assert InTemp([DIR]);
  }

  // -- a walk over a store that changes -------------------------------------

  /** A pass's walk, over its own store, that has met no failure. */
  ghost predicate Passing(store: Store, entries: Entries, walk: Walk)
    reads store, store.fs, entries
  {
    && entries.fs == store.fs && entries.layout == store.layout && entries.walk == walk
    && store.Valid() && entries.Valid() && entries.Standing() && !entries.reported
    && (store.fs.reliable ==> entries.Faultless())
  }

  /** What is handled, what is to come and what was lost make up what was there. */
  ghost predicate Owed(all: set<Path>, handled: set<Path>, entries: Entries)
    reads entries, entries.fs
  {
    && handled !! entries.Remaining()
    && handled + entries.Remaining() <= all <= handled + entries.Remaining() + entries.lost
  }

  /** How far a walk still has to go, from one moment to a later one. */
  ghost predicate Sooner(unread: set<Path>, ready: nat, unread': set<Path>, ready': nat) {
    unread' < unread || (unread' == unread && ready' < ready)
  }

  /** The next entry of a pass whose steps so far, where `tracked`, left alone what the walk still owed. */
  method NextEntry(store: Store, entries: Entries, walk: Walk, ghost tracked: bool, ghost all: set<Path>, ghost handled: set<Path>)
    returns (item: Option<Result<Entry, Kind>>)
    requires Passing(store, entries, walk) && (tracked ==> Owed(all, handled, entries))
    modifies entries
    ensures store.Valid()
    ensures item.None? ==> tracked ==> all <= handled
    ensures item.Some? && item.value.Err? ==> !store.fs.reliable
    ensures item.Some? && item.value.Ok? ==>
              var entry := item.value.value;
              && Passing(store, entries, walk) && EntryOk(walk, store.layout, entry, entries.dirs)
              && (tracked ==> entry.path in all && entry.path !in handled && Owed(all, handled + {entry.path}, entries))
    ensures item.Some? ==> Sooner(old(entries.Unread()), |old(entries.ready)|, entries.Unread(), |entries.ready|)
  {
    item := entries.Next();
  }

  // -- counting -------------------------------------------------------------

  ghost function Filter(s: set<Path>, f: Path -> bool): set<Path> { set x | x in s && f(x) }

  lemma FilterMore(s: set<Path>, f: Path -> bool, x: Path)
    requires x !in s
    ensures |Filter(s + {x}, f)| == |Filter(s, f)| + if f(x) then 1 else 0
    ensures forall y | y in Filter(s, f) :: y in Filter(s + {x}, f)
    ensures f(x) ==> x in Filter(s + {x}, f)
  {
    var more := if f(x) then {x} else {};
    assert Filter(s + {x}, f) == Filter(s, f) + more;
  }

  function Tallied(tally: Tally, entry: Entry, outcome: Result<Step, Error>): Tally {
    match outcome
    case Ok(Converted) => tally.(converted := tally.converted + 1)
    case Ok(Already) => tally.(already := tally.already + 1)
    case Ok(Skipped) => tally.(skipped := tally.skipped + 1)
    case Err(error) => tally.(failed := tally.failed + [Failure(entry.path, error, Recoverable(error))])
  }

  /** Each turn is counted once. */
  lemma TalliedOnce(tally: Tally, entry: Entry, outcome: Result<Step, Error>)
    ensures outcome.Err? || outcome == Ok(Converted) || outcome == Ok(Already) || outcome == Ok(Skipped)
    ensures var tally' := Tallied(tally, entry, outcome);
            && tally'.converted == tally.converted + (if outcome == Ok(Converted) then 1 else 0)
            && tally'.already == tally.already + (if outcome == Ok(Already) then 1 else 0)
            && tally'.skipped == tally.skipped + (if outcome == Ok(Skipped) then 1 else 0)
            && |tally'.failed| == |tally.failed| + (if outcome.Err? then 1 else 0)
            && tally'.failed == tally.failed + (if outcome.Err? then [Failure(entry.path, outcome.error, Recoverable(outcome.error))] else [])
  {
    match outcome
    case Ok(Converted) => assert tally.failed + [] == tally.failed;
    case Ok(Already) => assert tally.failed + [] == tally.failed;
    case Ok(Skipped) => assert tally.failed + [] == tally.failed;
    case Err(_) =>
  }

  /** Whether this file failed. */
  ghost predicate Failed(tally: Tally, p: Path) {
    exists i :: 0 <= i < |tally.failed| && tally.failed[i].path == p
  }

  /** A turn adds its own failure to those before, if it failed, and nothing else. */
  lemma FailedMore(tally: Tally, entry: Entry, outcome: Result<Step, Error>)
    ensures forall p :: Failed(Tallied(tally, entry, outcome), p) <==> Failed(tally, p) || (outcome.Err? && p == entry.path)
  {
    var tally' := Tallied(tally, entry, outcome);
    assert forall i | 0 <= i < |tally.failed| :: tally'.failed[i] == tally.failed[i];
    assert outcome.Err? ==> tally'.failed[|tally.failed|].path == entry.path;
    forall p | Failed(tally, p)
      ensures Failed(tally', p)
    {
      var i :| 0 <= i < |tally.failed| && tally.failed[i].path == p;
      assert tally'.failed[i].path == p;
    }
  }

  /** No file is counted as failed twice. */
  ghost predicate NoneTwice(tally: Tally) {
    forall i, j | 0 <= i < j < |tally.failed| :: tally.failed[i].path != tally.failed[j].path
  }

  lemma NoneTwiceMore(tally: Tally, entry: Entry, outcome: Result<Step, Error>)
    requires NoneTwice(tally) && !Failed(tally, entry.path)
    ensures NoneTwice(Tallied(tally, entry, outcome))
  {
    TalliedOnce(tally, entry, outcome);
    hide Tallied;
    assert forall i | 0 <= i < |tally.failed| :: tally.failed[i].path != entry.path;
  }

  ghost function FailedPaths(failed: seq<Failure>): set<Path> { set i | 0 <= i < |failed| :: failed[i].path }

  lemma FailedIsPath(tally: Tally)
    ensures forall p :: p in FailedPaths(tally.failed) <==> Failed(tally, p)
  {
  }

  /** So there are as many failures as files that failed. */
  lemma {:induction false} FailedOnce(failed: seq<Failure>)
    requires forall i, j | 0 <= i < j < |failed| :: failed[i].path != failed[j].path
    ensures |FailedPaths(failed)| == |failed|
    decreases |failed|
  {
    if failed != [] {
      var n := |failed| - 1;
      FailedOnce(failed[..n]);
      assert failed[n].path !in FailedPaths(failed[..n]);
      assert FailedPaths(failed) == FailedPaths(failed[..n]) + {failed[n].path};
    }
  }

  /** What a turn adds to the files that went through: its own, unless it failed. */
  lemma ThroughMore(paths: set<Path>, tally: Tally, entry: Entry, outcome: Result<Step, Error>)
    requires entry.path !in paths && FailedPaths(tally.failed) <= paths
    ensures paths + {entry.path} - FailedPaths(Tallied(tally, entry, outcome).failed)
            == (paths - FailedPaths(tally.failed)) + if outcome.Ok? then {entry.path} else {}
  {
    FailedMore(tally, entry, outcome);
    FailedIsPath(tally);
    FailedIsPath(Tallied(tally, entry, outcome));
    hide Failed, FailedPaths, Tallied;
  }
}
