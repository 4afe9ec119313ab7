/** Moving every sealed file of a store to another key. */
module KeyPasses {
  import opened Wrappers
  import F = Frames
  import opened Layouts
  import opened TempNames
  import opened Forms
  import opened Disks
  import opened Walks
  import K = KeyChange
  import opened Conversions
  import opened Stores
  import opened Passes

  /** A key change: the store's layout, the key it had, and the key it is to have. */
  datatype Change = Change(layout: Layout, oldKey: Key, newKey: Key) {
    ghost predicate Wanted(p: Path) { Yields(All, layout, p) }

    ghost predicate IsSealed(p: Path) { K.IsSealed(layout, p) }

    /** What a file holds under whichever of the two keys opens it whole. */
    ghost function Held(b: Bytes): Option<Bytes> { if K.Whole(newKey, b).Some? then K.Whole(newKey, b) else K.Whole(oldKey, b) }

    /** What resealing a starting file comes to where no call fails: the only other thing in the way is a file where temporary files go. */
    ghost function Comes(start: Image, p: Path): Result<bool, Error>
      requires p in start
    {
      if [DIR] in start && K.Probe(newKey, start[p].bytes) == Ok(false) then Err(Io)
      else K.Resealed(oldKey, newKey, start[p].bytes)
    }
  }

  /** A file holds what the one or the other key opens it to, and no two keys open one file whole. */
  lemma HeldExactly(c: Change, b: Bytes)
    requires c.oldKey != c.newKey
    ensures c.Held(b) == if K.Whole(c.newKey, b).Some? then K.Whole(c.newKey, b) else K.Whole(c.oldKey, b)
    ensures K.Whole(c.newKey, b).None? || K.Whole(c.oldKey, b).None?
  {
    hide K.Whole, K.Probe;
    K.KeysApart(c.oldKey, c.newKey, b);
  }

  // -- how far a key change got ---------------------------------------------

  /** Whether this file failed at something a later run could mend. */
  ghost predicate Left(tally: Tally, p: Path) {
    exists i :: 0 <= i < |tally.failed| && tally.failed[i].path == p && tally.failed[i].recoverable
  }

  /** What was not met is as it was, every payload is kept, and what is not left over the old key no longer opens. */
  ghost predicate Rekeying(c: Change, start: Image, files: Image, handled: set<Path>, tally: Tally) {
    && Waits(c, start, files, handled, tally)
    && (c.oldKey != c.newKey ==> Holds(c, start, files) && Through(c, files, handled, tally))
  }

  /** What was not met and what failed is as it was. */
  ghost predicate Waits(c: Change, start: Image, files: Image, handled: set<Path>, tally: Tally) {
    forall p | p in start && c.Wanted(p) :: p in files && (p !in handled || Failed(tally, p) ==> files[p] == start[p])
  }

  ghost predicate Holds(c: Change, start: Image, files: Image) {
    forall p | p in start && c.IsSealed(p) && c.Held(start[p].bytes).Some? ::
      p in files && c.Held(files[p].bytes) == c.Held(start[p].bytes)
  }

  ghost predicate Through(c: Change, files: Image, handled: set<Path>, tally: Tally) {
    forall p | p in handled && p in files && c.IsSealed(p) && !Left(tally, p) :: K.Whole(c.oldKey, files[p].bytes).None?
  }

  /** What one file's turn does. */
  ghost predicate RekeyTurn(c: Change, files: Image, files': Image, p: Path, outcome: Result<Step, Error>) {
    && p in files && p in files' && SameBut(files, files', {p})
    && (!c.IsSealed(p) <==> outcome == Ok(Skipped))
    && (outcome != Ok(Converted) ==> files'[p] == files[p])
    && (outcome == Ok(Already) ==> K.Probe(c.newKey, files[p].bytes) == Ok(true))
    && (outcome == Ok(Converted) ==>
          && K.Probe(c.newKey, files[p].bytes) == Ok(false) && K.Whole(c.newKey, files'[p].bytes).Some?
          && K.Whole(c.newKey, files'[p].bytes) == K.Whole(c.oldKey, files[p].bytes))
    && (outcome.Err? && !Recoverable(outcome.error) ==> K.Whole(c.oldKey, files[p].bytes).None?)
  }

  lemma {:induction false} TurnRekeys(c: Change, start: Image, files: Image, files': Image, handled: set<Path>,
                                      tally: Tally, entry: Entry, outcome: Result<Step, Error>)
    requires c.layout.Valid() && Rekeying(c, start, files, handled, tally)
    requires entry.path in start && c.Wanted(entry.path) && entry.path !in handled && !Failed(tally, entry.path)
    requires RekeyTurn(c, files, files', entry.path, outcome)
    ensures Rekeying(c, start, files', handled + {entry.path}, Tallied(tally, entry, outcome))
  {
    hide RekeyTurn, Holds, Through, Waits;
    OthersStay(c, files, files', entry.path, outcome);
    TurnWaits(c, start, files, files', handled, tally, entry, outcome);
    if c.oldKey != c.newKey {
      OneMoved(c, files, files', entry.path, outcome);
      TurnHolds(c, start, files, files', entry.path);
      TurnThrough(c, files, files', handled, tally, entry, outcome);
    }
  }

  lemma TurnWaits(c: Change, start: Image, files: Image, files': Image, handled: set<Path>, tally: Tally, entry: Entry,
                  outcome: Result<Step, Error>)
    requires Waits(c, start, files, handled, tally) && entry.path !in handled && !Failed(tally, entry.path)
    requires RekeyTurn(c, files, files', entry.path, outcome)
    requires forall p | c.Wanted(p) && p != entry.path :: (p in files <==> p in files') && (p in files ==> files'[p] == files[p])
    ensures Waits(c, start, files', handled + {entry.path}, Tallied(tally, entry, outcome))
  {
    hide SameBut, K.Whole, K.Probe, Failed, Tallied, Yields;
    FailedMore(tally, entry, outcome);
  }

  /** A turn leaves every other file alone. */
  lemma OthersStay(c: Change, files: Image, files': Image, path: Path, outcome: Result<Step, Error>)
    requires RekeyTurn(c, files, files', path, outcome)
    ensures path in files && path in files'
    ensures forall p | c.Wanted(p) && p != path :: (p in files <==> p in files') && (p in files ==> files'[p] == files[p])
    ensures [DIR] in files <==> [DIR] in files'
  {
    assert !IsTempPath([DIR]);
    forall p | c.Wanted(p)
      ensures !IsTempPath(p)
    {
      WantedNotTemp(c, p);
    }
  }

  /** What a walk over everything wants is no temporary file. */
  lemma WantedNotTemp(c: Change, p: Path)
    requires c.Wanted(p)
    ensures !IsTempPath(p)
  {
  }

  /** The one file a turn is about: its payload stays, and unless something recoverable failed the old key is through with it. */
  lemma {:induction false} OneMoved(c: Change, files: Image, files': Image, p: Path, outcome: Result<Step, Error>)
    requires c.oldKey != c.newKey && RekeyTurn(c, files, files', p, outcome)
    ensures p in files && p in files'
    ensures c.IsSealed(p) && c.Held(files[p].bytes).Some? ==> c.Held(files'[p].bytes) == c.Held(files[p].bytes)
    ensures c.IsSealed(p) && (outcome.Err? ==> !Recoverable(outcome.error)) ==> K.Whole(c.oldKey, files'[p].bytes).None?
  {
    hide K.Whole, K.Probe, SameBut;
    K.KeysApart(c.oldKey, c.newKey, files[p].bytes);
    K.KeysApart(c.oldKey, c.newKey, files'[p].bytes);
    if c.IsSealed(p) && outcome.Ok? {
      assert outcome.value.Skipped? ==> outcome == Ok(Skipped);
      assert outcome.value.Already? ==> outcome == Ok(Already);
      assert outcome.value.Converted? ==> outcome == Ok(Converted);
    }
  }

  lemma TurnHolds(c: Change, start: Image, files: Image, files': Image, path: Path)
    requires Holds(c, start, files) && path in files && path in files'
    requires forall p | c.Wanted(p) && p != path :: (p in files <==> p in files') && (p in files ==> files'[p] == files[p])
    requires c.IsSealed(path) && c.Held(files[path].bytes).Some? ==> c.Held(files'[path].bytes) == c.Held(files[path].bytes)
    ensures Holds(c, start, files')
  {
    hide Change.Held, Yields;
  }

  lemma TurnThrough(c: Change, files: Image, files': Image, handled: set<Path>, tally: Tally, entry: Entry, outcome: Result<Step, Error>)
    requires Through(c, files, handled, tally) && entry.path in files && entry.path in files'
    requires forall p | c.Wanted(p) && p != entry.path :: (p in files <==> p in files') && (p in files ==> files'[p] == files[p])
    requires c.IsSealed(entry.path) && (outcome.Err? ==> !Recoverable(outcome.error)) ==>
               K.Whole(c.oldKey, files'[entry.path].bytes).None?
    ensures Through(c, files', handled + {entry.path}, Tallied(tally, entry, outcome))
  {
    hide K.Whole, Left, Tallied, Yields;
    LeftMore(tally, entry, outcome);
  }

  lemma LeftMore(tally: Tally, entry: Entry, outcome: Result<Step, Error>)
    ensures forall p :: Left(Tallied(tally, entry, outcome), p)
                        <==> Left(tally, p) || (outcome.Err? && Recoverable(outcome.error) && p == entry.path)
  {
    var tally' := Tallied(tally, entry, outcome);
    assert forall i | 0 <= i < |tally.failed| :: tally'.failed[i] == tally.failed[i];
    assert outcome.Err? ==> tally'.failed[|tally.failed|] == Failure(entry.path, outcome.error, Recoverable(outcome.error));
    forall p | Left(tally, p)
      ensures Left(tally', p)
    {
      var i :| 0 <= i < |tally.failed| && tally.failed[i].path == p && tally.failed[i].recoverable;
      assert tally'.failed[i].recoverable;
    }
  }

  // -- counting -------------------------------------------------------------

  /** The sealed files that lay like this, for the new key, at the start. */
  ghost function Probed(c: Change, start: Image, opens: bool): Path -> bool {
    p => p in start && c.IsSealed(p) && K.Probe(c.newKey, start[p].bytes) == Ok(opens)
  }

  /** The sealed files that come to this where no call fails. */
  ghost function Coming(c: Change, start: Image, moves: bool): Path -> bool {
    p => p in start && c.IsSealed(p) && c.Comes(start, p) == Ok(moves)
  }

  ghost function Sealed(c: Change, yes: bool): Path -> bool { p => c.IsSealed(p) == yes }

  /**
  A tally of a key change: each file counted once, skipped exactly when it is not
  sealed, and of those that did not fail, already there exactly if the new key opened
  them and moved exactly if it did not.
  */
  ghost predicate RekeyCounts(c: Change, start: Image, paths: set<Path>, tally: Tally) {
    RekeySums(c, start, paths, tally) && RekeyFailed(c, paths, tally)
  }

  ghost predicate RekeySums(c: Change, start: Image, paths: set<Path>, tally: Tally) {
    && Divided(c, paths, tally.skipped, tally.converted + tally.already + |tally.failed|)
    && RekeyParts(c, start, paths - FailedPaths(tally.failed), tally.already, tally.converted)
  }

  /** So many of these files are not sealed, so many are, and that is all of them. */
  ghost predicate Divided(c: Change, paths: set<Path>, others: nat, ours: nat) {
    && others == |Filter(paths, Sealed(c, false))| && ours == |Filter(paths, Sealed(c, true))|
    && others + ours == |paths|
  }

  lemma DividedMore(c: Change, paths: set<Path>, others: nat, ours: nat, p: Path)
    requires Divided(c, paths, others, ours) && p !in paths
    ensures Divided(c, paths + {p}, others + (if c.IsSealed(p) then 0 else 1), ours + if c.IsSealed(p) then 1 else 0)
  {
    hide Filter, K.IsSealed;
    FilterMore(paths, Sealed(c, false), p);
    FilterMore(paths, Sealed(c, true), p);
    assert |paths + {p}| == |paths| + 1;
  }

  ghost predicate RekeyParts(c: Change, start: Image, through: set<Path>, already: nat, converted: nat) {
    already == |Filter(through, Probed(c, start, true))| && converted == |Filter(through, Probed(c, start, false))|
  }

  /** What failed are sealed ones of these files, each once. */
  ghost predicate RekeyFailed(c: Change, paths: set<Path>, tally: Tally) {
    && NoneTwice(tally)
    && forall i | 0 <= i < |tally.failed| ::
         && tally.failed[i].path in paths && c.IsSealed(tally.failed[i].path)
         && tally.failed[i].recoverable == Recoverable(tally.failed[i].error)
  }

  lemma NotFailed(c: Change, paths: set<Path>, tally: Tally, p: Path)
    requires RekeyFailed(c, paths, tally) && p !in paths
    ensures !Failed(tally, p)
  {
  }

  lemma RekeyFailedMore(c: Change, paths: set<Path>, tally: Tally, entry: Entry, outcome: Result<Step, Error>)
    requires RekeyFailed(c, paths, tally) && entry.path !in paths && (outcome.Err? ==> c.IsSealed(entry.path))
    ensures RekeyFailed(c, paths + {entry.path}, Tallied(tally, entry, outcome))
  {
    hide Tallied, Change.IsSealed;
    TalliedOnce(tally, entry, outcome);
    NoneTwiceMore(tally, entry, outcome);
  }

  lemma RekeyCountsMore(c: Change, start: Image, paths: set<Path>, tally: Tally, entry: Entry, outcome: Result<Step, Error>)
    requires RekeyCounts(c, start, paths, tally) && entry.path !in paths
    requires !c.IsSealed(entry.path) <==> outcome == Ok(Skipped)
    requires outcome == Ok(Already) ==> Probed(c, start, true)(entry.path)
    requires outcome == Ok(Converted) ==> Probed(c, start, false)(entry.path)
    ensures RekeyCounts(c, start, paths + {entry.path}, Tallied(tally, entry, outcome))
  {
    hide RekeySums, Tallied, Probed;
    RekeyFailedMore(c, paths, tally, entry, outcome);
    assert FailedPaths(tally.failed) <= paths;
    hide RekeyFailed;
    RekeySumsMore(c, start, paths, tally, entry, outcome);
  }

  lemma RekeySumsMore(c: Change, start: Image, paths: set<Path>, tally: Tally, entry: Entry, outcome: Result<Step, Error>)
    requires RekeySums(c, start, paths, tally) && entry.path !in paths && FailedPaths(tally.failed) <= paths
    requires !c.IsSealed(entry.path) <==> outcome == Ok(Skipped)
    requires outcome == Ok(Already) ==> Probed(c, start, true)(entry.path)
    requires outcome == Ok(Converted) ==> Probed(c, start, false)(entry.path)
    ensures RekeySums(c, start, paths + {entry.path}, Tallied(tally, entry, outcome))
  {
    TalliedOnce(tally, entry, outcome);
    RekeyThroughMore(c, start, paths, tally, entry, outcome);
    DividedMore(c, paths, tally.skipped, tally.converted + tally.already + |tally.failed|, entry.path);
    hide Divided, Probed, Tallied, FailedPaths, K.IsSealed, RekeyParts;
  }

  lemma RekeyThroughMore(c: Change, start: Image, paths: set<Path>, tally: Tally, entry: Entry, outcome: Result<Step, Error>)
    requires RekeyParts(c, start, paths - FailedPaths(tally.failed), tally.already, tally.converted)
    requires entry.path !in paths && FailedPaths(tally.failed) <= paths && (!c.IsSealed(entry.path) <==> outcome == Ok(Skipped))
    requires outcome == Ok(Already) ==> Probed(c, start, true)(entry.path)
    requires outcome == Ok(Converted) ==> Probed(c, start, false)(entry.path)
    ensures var tally' := Tallied(tally, entry, outcome);
            RekeyParts(c, start, paths + {entry.path} - FailedPaths(tally'.failed), tally'.already, tally'.converted)
  {
    hide Probed, Tallied, FailedPaths, K.IsSealed, RekeyParts;
    TalliedOnce(tally, entry, outcome);
    ThroughMore(paths, tally, entry, outcome);
    var through := paths - FailedPaths(tally.failed);
    match outcome
    case Err(_) =>
      assert through + {} == through;
    case Ok(step) =>
      RekeyPartsMore(c, start, through, tally.already, tally.converted, entry.path, step);
  }

  lemma RekeyPartsMore(c: Change, start: Image, through: set<Path>, already: nat, converted: nat, p: Path, step: Step)
    requires RekeyParts(c, start, through, already, converted) && p !in through && (!c.IsSealed(p) <==> step.Skipped?)
    requires step.Already? ==> Probed(c, start, true)(p)
    requires step.Converted? ==> Probed(c, start, false)(p)
    ensures RekeyParts(c, start, through + {p}, already + (if step.Already? then 1 else 0), converted + if step.Converted? then 1 else 0)
  {
    assert Probed(c, start, true)(p) ==> step.Already?;
    assert Probed(c, start, false)(p) ==> step.Converted?;
    hide Filter, Probed;
    FilterMore(through, Probed(c, start, true), p);
    FilterMore(through, Probed(c, start, false), p);
  }

  /** Where no call fails each sealed file is counted by what its bytes come to, and fails with that error. */
  ghost predicate RekeyPinned(c: Change, start: Image, paths: set<Path>, tally: Tally) {
    && tally.already == |Filter(paths, Coming(c, start, false))|
    && tally.converted == |Filter(paths, Coming(c, start, true))|
    && (forall i | 0 <= i < |tally.failed| :: FailsAs(c, start, paths, tally.failed[i]))
    && (forall p | p in paths && p in start && c.IsSealed(p) && c.Comes(start, p).Err? :: Failed(tally, p))
  }

  ghost predicate FailsAs(c: Change, start: Image, paths: set<Path>, failure: Failure) {
    && failure.path in paths && failure.path in start && c.IsSealed(failure.path)
    && c.Comes(start, failure.path) == Err(failure.error) && failure.recoverable == Recoverable(failure.error)
  }

  /** What a sealed file's turn says where no call fails. */
  function StepOf(comes: Result<bool, Error>): Result<Step, Error> {
    match comes case Ok(true) => Ok(Converted) case Ok(false) => Ok(Already) case Err(error) => Err(error)
  }

  lemma RekeyPinnedMore(c: Change, start: Image, paths: set<Path>, tally: Tally, entry: Entry, outcome: Result<Step, Error>)
    requires RekeyPinned(c, start, paths, tally) && entry.path !in paths && entry.path in start
    requires if c.IsSealed(entry.path) then outcome == StepOf(c.Comes(start, entry.path)) else outcome == Ok(Skipped)
    ensures RekeyPinned(c, start, paths + {entry.path}, Tallied(tally, entry, outcome))
  {
    var tally' := Tallied(tally, entry, outcome);
    assert Coming(c, start, true)(entry.path) <==> outcome == Ok(Converted);
    assert Coming(c, start, false)(entry.path) <==> outcome == Ok(Already);
    TalliedOnce(tally, entry, outcome);
    hide Filter, Coming, Failed;
    FilterMore(paths, Coming(c, start, false), entry.path);
    FilterMore(paths, Coming(c, start, true), entry.path);
    FailedMore(tally, entry, outcome);
    forall i | 0 <= i < |tally'.failed|
      ensures FailsAs(c, start, paths + {entry.path}, tally'.failed[i])
    {
      assert i < |tally.failed| ==> tally'.failed[i] == tally.failed[i] && FailsAs(c, start, paths, tally.failed[i]);
    }
  }

  // -- what a whole pass promises -------------------------------------------

  /** What a key change promises. */
  ghost predicate Rekeyed(c: Change, start: Image, files: Image, r: Result<Tally, Error>) {
    && Holds(c, start, files)
    && (r.Ok? ==>
          && RekeyCounts(c, start, Walked(All, c.layout, start), r.value)
          && (forall p | p in start && c.IsSealed(p) && !Left(r.value, p) :: Over(c, start, files, p))
          && (forall p | p in start && c.IsSealed(p) && Failed(r.value, p) :: p in files && files[p] == start[p])
          && (r.value.IsFinished() ==> forall p | p in start && c.IsSealed(p) :: Over(c, start, files, p)))
  }

  /** The old key no longer opens this file, and the new one does if either did. */
  ghost predicate Over(c: Change, start: Image, files: Image, p: Path)
    requires p in start
  {
    && p in files && K.Whole(c.oldKey, files[p].bytes).None?
    && (c.Held(start[p].bytes).Some? ==> K.Whole(c.newKey, files[p].bytes) == c.Held(start[p].bytes))
  }

  lemma {:induction false} RekeyEnds(c: Change, start: Image, files: Image, handled: set<Path>, tally: Tally, r: Result<Tally, Error>)
    requires c.oldKey != c.newKey && Rekeying(c, start, files, handled, tally) && RekeyCounts(c, start, handled, tally)
    requires r.Ok? ==> r.value == tally && handled == Walked(All, c.layout, start)
    ensures Rekeyed(c, start, files, r)
  {
    hide K.Whole, Left, RekeyCounts;
    FinishedLeavesNone(tally);
  }

  /** A pass is finished exactly when nothing is left over. */
  lemma {:induction false} FinishedLeavesNone(tally: Tally)
    ensures tally.IsFinished() <==> forall p :: !Left(tally, p)
  {
    if i :| 0 <= i < |tally.failed| && tally.failed[i].recoverable {
      assert Left(tally, tally.failed[i].path);
    }
  }

  /** Where no call fails, a pass is finished exactly when every sealed file that cannot be moved cannot be helped. */
  lemma {:induction false} FinishedExactly(c: Change, start: Image, tally: Tally)
    requires RekeyPinned(c, start, Walked(All, c.layout, start), tally)
    ensures tally.IsFinished() <==>
            forall p | p in start && c.IsSealed(p) && c.Comes(start, p).Err? :: !Recoverable(c.Comes(start, p).error)
  {
    hide Change.Comes, Filter;
    forall p | p in start && c.IsSealed(p) && c.Comes(start, p).Err?
      ensures exists i :: 0 <= i < |tally.failed| && tally.failed[i].path == p && FailsAs(c, start, Walked(All, c.layout, start), tally.failed[i])
    {
      assert p in Walked(All, c.layout, start);
      var i :| 0 <= i < |tally.failed| && tally.failed[i].path == p;
    }
    if tally.IsFinished() {
    } else {
      var i :| 0 <= i < |tally.failed| && tally.failed[i].recoverable;
      assert FailsAs(c, start, Walked(All, c.layout, start), tally.failed[i]);
    }
  }

  // -- what that is, file by file -------------------------------------------

  /** What neither key can be used on: another version of the frame format, or a first chunk the new key does not open and no whole under the old. */
  ghost predicate Stuck(c: Change, b: Bytes) {
    F.OtherVersion(b) || (!F.FirstChunkOpens(c.newKey, b) && K.Whole(c.oldKey, b).None?)
  }

  /** And of that, what a later run may still move: another version, or more chunks than can be counted. */
  ghost predicate StuckForNow(c: Change, b: Bytes) {
    F.OtherVersion(b) || (!F.FirstChunkOpens(c.newKey, b) && F.ReadAll(c.oldKey, b).end == F.Failed(F.TooManyChunks))
  }

  /**
  A key change where no call fails, told from the bytes of the files. Whatever one of
  the keys opened whole the new one opens; exactly the stuck ones fail; and the change
  is finished exactly if of those none is stuck only for now. A file whose first chunk
  neither key opens fails and keeps no pass unfinished.
  */
  ghost predicate ChangedExactly(c: Change, start: Image, files: Image, tally: Tally) {
    && (forall p | p in start && c.IsSealed(p) && K.Whole(c.newKey, start[p].bytes).Some? ::
          p in files && K.Whole(c.newKey, files[p].bytes) == K.Whole(c.newKey, start[p].bytes))
    && (forall p | p in start && c.IsSealed(p) && K.Whole(c.oldKey, start[p].bytes).Some? ::
          p in files && K.Whole(c.newKey, files[p].bytes) == K.Whole(c.oldKey, start[p].bytes))
    && (forall p | p in start && c.IsSealed(p) :: Failed(tally, p) <==> Stuck(c, start[p].bytes))
    && (forall p | p in start && c.IsSealed(p) :: Left(tally, p) <==> StuckForNow(c, start[p].bytes))
    && (tally.IsFinished() <==> forall p | p in start && c.IsSealed(p) :: !StuckForNow(c, start[p].bytes))
    && (forall p | p in start && c.IsSealed(p) && NeitherBegins(c, start[p].bytes) :: Failed(tally, p) && !Left(tally, p))
  }

  /** A frame of this version by its first bytes, or none at all, whose first chunk neither key opens. */
  ghost predicate NeitherBegins(c: Change, b: Bytes) {
    !F.OtherVersion(b) && !F.FirstChunkOpens(c.newKey, b) && !F.FirstChunkOpens(c.oldKey, b)
  }

  /** What each file's bytes come to. */
  lemma {:induction false} ComesByBytes(c: Change, start: Image, p: Path)
    requires p in start && [DIR] !in start && c.oldKey != c.newKey
    ensures var b, comes := start[p].bytes, c.Comes(start, p);
            && (comes.Err? <==> Stuck(c, b))
            && (comes.Err? && Recoverable(comes.error) <==> StuckForNow(c, b))
            && (NeitherBegins(c, b) ==> Stuck(c, b) && !StuckForNow(c, b))
            && (Stuck(c, b) ==> c.Held(b).None?)
  {
    var b := start[p].bytes;
    K.ResealedExactly(c.oldKey, c.newKey, b);
    K.KeysApart(c.oldKey, c.newKey, b);
    K.ProbeExact(c.newKey, b);
    F.FirstChunk(c.oldKey, c.oldKey, b);
    hide K.Probe, K.Resealed, F.ReadAll, F.FirstChunkOpens, F.OtherVersion;
  }

  /** So the tally is what they come to. */
  lemma {:induction false} ChangeByBytes(c: Change, start: Image, files: Image, tally: Tally)
    requires c.oldKey != c.newKey && [DIR] !in start && Rekeyed(c, start, files, Ok(tally))
    requires RekeyPinned(c, start, Walked(All, c.layout, start), tally)
    ensures ChangedExactly(c, start, files, tally)
  {
    hide Change.Comes, RekeyCounts, Stuck, StuckForNow, NeitherBegins, K.Whole, K.IsSealed, Change.Held;
    FinishedExactly(c, start, tally);
    forall p | p in start && c.IsSealed(p)
      ensures Failed(tally, p) <==> c.Comes(start, p).Err?
      ensures Left(tally, p) <==> c.Comes(start, p).Err? && Recoverable(c.Comes(start, p).error)
      ensures c.Comes(start, p).Err? <==> Stuck(c, start[p].bytes)
      ensures c.Comes(start, p).Err? && Recoverable(c.Comes(start, p).error) <==> StuckForNow(c, start[p].bytes)
      ensures NeitherBegins(c, start[p].bytes) ==> Stuck(c, start[p].bytes) && !StuckForNow(c, start[p].bytes)
      ensures Stuck(c, start[p].bytes) ==> c.Held(start[p].bytes).None?
    {
      FailsByBytes(c, start, tally, p);
      ComesByBytes(c, start, p);
    }
    forall p | p in start && c.IsSealed(p) && (K.Whole(c.newKey, start[p].bytes).Some? || K.Whole(c.oldKey, start[p].bytes).Some?)
      ensures p in files && K.Whole(c.newKey, files[p].bytes)
                            == if K.Whole(c.newKey, start[p].bytes).Some? then K.Whole(c.newKey, start[p].bytes) else K.Whole(c.oldKey, start[p].bytes)
      ensures K.Whole(c.newKey, start[p].bytes).None? || K.Whole(c.oldKey, start[p].bytes).None?
    {
      HeldExactly(c, start[p].bytes);
      assert !Failed(tally, p) && !Left(tally, p);
    }
  }

  lemma {:induction false} FailsByBytes(c: Change, start: Image, tally: Tally, p: Path)
    requires RekeyPinned(c, start, Walked(All, c.layout, start), tally) && p in start && c.IsSealed(p)
    ensures Failed(tally, p) <==> c.Comes(start, p).Err?
    ensures Left(tally, p) <==> c.Comes(start, p).Err? && Recoverable(c.Comes(start, p).error)
  {
    hide Change.Comes, Filter;
    assert p in Walked(All, c.layout, start);
    if i :| 0 <= i < |tally.failed| && tally.failed[i].path == p {
      assert FailsAs(c, start, Walked(All, c.layout, start), tally.failed[i]);
    }
    if i :| 0 <= i < |tally.failed| && tally.failed[i].path == p && tally.failed[i].recoverable {
      assert FailsAs(c, start, Walked(All, c.layout, start), tally.failed[i]);
    }
  }

  // -- the pass -------------------------------------------------------------

  ghost predicate SetOut(store: Store, c: Change)
    reads store, store.fs
  {
    store.key == Some(c.oldKey) && store.layout == c.layout && c.layout.Valid()
  }

  /** How far it got, `sound` being whether the file system fails nothing. */
  ghost predicate Got(c: Change, sound: bool, start: Image, files: Image, handled: set<Path>, tally: Tally) {
    && Rekeying(c, start, files, handled, tally) && RekeyCounts(c, start, handled, tally)
    && handled <= Walked(All, c.layout, start) && ([DIR] in start <==> [DIR] in files)
    && (sound ==> RekeyPinned(c, start, handled, tally))
  }

  /** The pass between two files. */
  ghost predicate Midway(store: Store, entries: Entries, c: Change, start: Image, handled: set<Path>, tally: Tally)
    reads store, store.fs, entries
  {
    && Passing(store, entries, All) && SetOut(store, c) && Owed(Walked(All, c.layout, start), handled, entries)
    && Got(c, store.fs.reliable, start, store.fs.Files(), handled, tally)
  }

  /**
  Move every sealed file the walk yields, set-aside ones included, from the store's key
  to another. Whatever fails, every file one of the keys opened whole opens whole under
  one of them with the same payload and the same name, and what the tally does not
  count as left over the old key no longer opens and the new one does, if either did.
  On a file system that fails nothing the pass comes to an end, and the tally is what
  the bytes of the files come to.
  */
  method ChangeKey(store: Store, newKey: Key) returns (r: Result<Tally, Error>)
    requires store.Valid()
    modifies store`serial, store.fs`disk, store.fs`dirs
    ensures store.Valid()
    ensures store.key.None? ==> r == Err(KeyRequired) && store.fs.disk == old(store.fs.disk)
    ensures store.key.Some? && store.fs.reliable ==> r.Ok?
    ensures store.key.Some? && store.key.value != newKey ==>
              Rekeyed(Change(store.layout, store.key.value, newKey), old(store.fs.Files()), store.fs.Files(), r)
    ensures store.key.Some? && r.Ok? ==>
              var c := Change(store.layout, store.key.value, newKey);
              RekeyCounts(c, old(store.fs.Files()), Walked(All, store.layout, old(store.fs.Files())), r.value)
    ensures store.key.Some? && store.fs.reliable && r.Ok? ==>
              var c := Change(store.layout, store.key.value, newKey);
              RekeyPinned(c, old(store.fs.Files()), Walked(All, store.layout, old(store.fs.Files())), r.value)
    ensures store.key.Some? && store.key.value != newKey && store.fs.reliable && r.Ok? && ["tmp"] !in old(store.fs.Files()) ==>
              ChangedExactly(Change(store.layout, store.key.value, newKey), old(store.fs.Files()), store.fs.Files(), r.value)
  {
    hide Rekeying, RekeyCounts, RekeyPinned, Rekeyed, ChangedExactly;
    if store.key.None? {
      return Err(KeyRequired);
    }
    var c := Change(store.layout, store.key.value, newKey);
    ghost var start := store.fs.Files();
    ghost var handled: set<Path> := {};
    var tally := Tally(0, 0, 0, []);
    var entries := new Entries(store.fs, store.layout, All);
    var going := true;
    r := Err(Io);
    NothingYet(c, start);
    while going
      invariant fresh(entries) && store.Valid() && SetOut(store, c)
      invariant Got(c, store.fs.reliable, start, store.fs.Files(), handled, tally)
      invariant going ==> Midway(store, entries, c, start, handled, tally)
      invariant !going ==> if r.Ok? then r.value == tally && Walked(All, c.layout, start) <= handled else !store.fs.reliable
      decreases going, entries.Unread(), |entries.ready|
    {
      going, r, tally, handled := ChangeNext(store, entries, c, start, handled, tally);
    }
    assert r.Ok? ==> handled == Walked(All, c.layout, start);
    if c.oldKey != c.newKey {
      RekeyEnds(c, start, store.fs.Files(), handled, tally, r);
      if store.fs.reliable && [DIR] !in start {
        ChangeByBytes(c, start, store.fs.Files(), tally);
      }
    }
  }

  /** Nothing is handled yet. */
  lemma NothingYet(c: Change, start: Image)
    ensures Rekeying(c, start, start, {}, Tally(0, 0, 0, [])) && RekeyCounts(c, start, {}, Tally(0, 0, 0, []))
    ensures RekeyPinned(c, start, {}, Tally(0, 0, 0, []))
  {
    hide Change.Held, Change.Comes;
    assert Filter({}, Sealed(c, true)) == {} && Filter({}, Sealed(c, false)) == {};
    assert Filter({}, Coming(c, start, true)) == {} && Filter({}, Coming(c, start, false)) == {};
  }

  /** One turn of that pass. */
  method ChangeNext(store: Store, entries: Entries, c: Change, ghost start: Image, ghost handled: set<Path>, tally: Tally)
    returns (going: bool, r: Result<Tally, Error>, tally': Tally, ghost handled': set<Path>)
    requires Midway(store, entries, c, start, handled, tally)
    modifies store`serial, store.fs`disk, store.fs`dirs, entries
    ensures store.Valid() && SetOut(store, c) && Got(c, store.fs.reliable, start, store.fs.Files(), handled', tally')
    ensures going ==> Midway(store, entries, c, start, handled', tally')
    ensures !going ==> if r.Ok? then r.value == tally' && Walked(All, c.layout, start) <= handled' else !store.fs.reliable
    ensures going ==> Sooner(old(entries.Unread()), |old(entries.ready)|, entries.Unread(), |entries.ready|)
  {
    hide Got, Sooner;
    tally', handled', r := tally, handled, Err(Io);
    var item := NextEntry(store, entries, All, true, Walked(All, c.layout, start), handled);
    match item
    case None =>
      return false, Ok(tally), tally, handled;
    case Some(Err(_)) =>
      return false, Err(Io), tally, handled;
    case Some(Ok(entry)) =>
      going, handled' := true, handled + {entry.path};
      tally' := ChangeCounted(store, entries, c, entry, start, handled, tally);
  }

  /** A file's turn, and its place in the tally. */
  method ChangeCounted(store: Store, ghost entries: Entries, c: Change, entry: Entry, ghost start: Image,
                       ghost handled: set<Path>, tally: Tally)
    returns (tally': Tally)
    requires Passing(store, entries, All) && SetOut(store, c) && EntryOk(All, store.layout, entry, entries.dirs)
    requires entry.path in Walked(All, c.layout, start) && entry.path !in handled
    requires Owed(Walked(All, c.layout, start), handled + {entry.path}, entries)
    requires Got(c, store.fs.reliable, start, store.fs.Files(), handled, tally)
    modifies store`serial, store.fs`disk, store.fs`dirs
    ensures Midway(store, entries, c, start, handled + {entry.path}, tally') && entries.Unread() == old(entries.Unread())
  {
    hide Got, RekeyTurn, EntryOk, Yields, StepOf, Change.Comes;
    ghost var files := store.fs.Files();
    Untouched(c, store.fs.reliable, start, files, handled, tally, entry.path);
    var outcome := ChangeTurn(store, entries, c, entry);
    tally' := Tallied(tally, entry, outcome);
    TurnGets(c, store.fs.reliable, start, files, store.fs.Files(), handled, tally, entry, outcome);
  }

  lemma Untouched(c: Change, sound: bool, start: Image, files: Image, handled: set<Path>, tally: Tally, p: Path)
    requires Got(c, sound, start, files, handled, tally) && p in Walked(All, c.layout, start) && p !in handled
    ensures p in start && c.Wanted(p) && p in files && files[p] == start[p] && c.Comes(files, p) == c.Comes(start, p)
  {
    hide RekeyCounts, RekeyPinned, Holds, Through;
  }

  lemma TurnGets(c: Change, sound: bool, start: Image, files: Image, files': Image, handled: set<Path>, tally: Tally, entry: Entry,
                 outcome: Result<Step, Error>)
    requires c.layout.Valid() && Got(c, sound, start, files, handled, tally)
    requires entry.path in Walked(All, c.layout, start) && entry.path !in handled && entry.path in files
    requires RekeyTurn(c, files, files', entry.path, outcome)
    requires sound && c.IsSealed(entry.path) ==> outcome == StepOf(c.Comes(files, entry.path))
    ensures Got(c, sound, start, files', handled + {entry.path}, Tallied(tally, entry, outcome))
  {
    hide Rekeying, RekeySums, RekeyFailed, RekeyPinned, RekeyTurn, Change.Comes, StepOf, Tallied;
    Untouched(c, sound, start, files, handled, tally, entry.path);
    OthersStay(c, files, files', entry.path, outcome);
    NotFailed(c, handled, tally, entry.path);
    TurnRekeys(c, start, files, files', handled, tally, entry, outcome);
    TurnSays(c, start, files, files', entry.path, outcome);
    RekeyCountsMore(c, start, handled, tally, entry, outcome);
    if sound {
      RekeyPinnedMore(c, start, handled, tally, entry, outcome);
    }
  }

  /** What a turn says about the file as it was at the start. */
  lemma TurnSays(c: Change, start: Image, files: Image, files': Image, p: Path, outcome: Result<Step, Error>)
    requires RekeyTurn(c, files, files', p, outcome) && p in start && files[p] == start[p] && c.Wanted(p)
    ensures !c.IsSealed(p) <==> outcome == Ok(Skipped)
    ensures outcome == Ok(Already) ==> Probed(c, start, true)(p)
    ensures outcome == Ok(Converted) ==> Probed(c, start, false)(p)
  {
    hide SameBut, K.Whole, K.Probe;
  }

  /** What the walk hands out is wanted, and sealed when its form says so. */
  lemma EntryIs(c: Change, entry: Entry, dirs: seq<Path>)
    requires EntryOk(All, c.layout, entry, dirs)
    ensures c.Wanted(entry.path) && entry.path != [] && !IsTempPath(entry.path) && !Covers(dirs, entry.path)
    ensures c.IsSealed(entry.path) <==> entry.form.IsEncrypted()
  {
  }

  /** Reseal a sealed file, skip any other. */
  method ChangeTurn(store: Store, ghost entries: Entries, c: Change, entry: Entry) returns (outcome: Result<Step, Error>)
    requires Passing(store, entries, All) && SetOut(store, c)
    requires EntryOk(All, store.layout, entry, entries.dirs) && entry.path in store.fs.Files()
    modifies store`serial, store.fs`disk, store.fs`dirs
    ensures Passing(store, entries, All) && entries.Unread() == old(entries.Unread())
    ensures entries.Remaining() == old(entries.Remaining())
    ensures RekeyTurn(c, old(store.fs.Files()), store.fs.Files(), entry.path, outcome)
    ensures store.fs.reliable && c.IsSealed(entry.path) ==> outcome == StepOf(c.Comes(old(store.fs.Files()), entry.path))
  {
    hide K.Whole, K.Probe, K.Resealed, EntryOk, Yields, Covers, Store.ResealRuns;
    ghost var files, dirs := store.fs.Files(), store.fs.dirs;
    EntryIs(c, entry, entries.dirs);
    if !entry.form.IsEncrypted() {
      return Ok(Skipped);
    }
    var moved, _ := store.Reseal(entry.path, c.newKey, K.State(store.fs.disk, K.Probing(entry.path), {}, {}, true));
    UnreadSame(dirs, store.fs.dirs, entries.dirs);
    BelowSame(All, store.layout, files, store.fs.Files(), entries.dirs, {entry.path});
    outcome := StepOf(moved);
  }
}
