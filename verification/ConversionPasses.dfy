/** A conversion pass over a whole store: what it leaves, what it counts and which entries it fails at. */
module ConversionPasses {
  import opened Wrappers
  import opened Digests
  import opened Layouts
  import opened TempNames
  import opened Forms
  import opened Disks
  import opened FileSystems
  import opened Walks
  import opened Verdicts
  import S = Salvage
  import R = Runs
  import opened Lookups
  import opened Conversions
  import opened Stores
  import opened Passes

  // -- how far a pass got ---------------------------------------------------

  /** Whether a pass is to convert this entry. */
  ghost predicate InScope(w: World, kind: PassKind, p: Path) {
    IsEntry(w, p) && kind.Plan(FormOf(w, p)) == Converted
  }

  /** What a converted entry is called. */
  ghost predicate Dest(w: World, kind: PassKind, p: Path, to: Path) {
    && IsEntry(w, p) && w.layout.Shard(DigestAt(w, p)).Some?
    && to == Place(w.layout, DigestAt(w, p), kind.Target())
  }

  /** A starting entry that went under its new name: there is a file there that says the same, or is the content itself. */
  ghost predicate Gone(w: World, kind: PassKind, start: Image, files: Image, p: Path) {
    && p in start && InScope(w, kind, p) && p !in files
    && exists to :: Dest(w, kind, p, to) && to in files
                    && (Meaning(w, to, files[to].bytes) == Meaning(w, p, start[p].bytes) || GoodAt(w, files, to, DigestAt(w, p)))
  }

  /** A file that was made: some handled starting entry says the same. */
  ghost predicate Made(w: World, kind: PassKind, start: Image, files: Image, handled: set<Path>, to: Path) {
    && to in files
    && exists p :: p in start && p in handled && InScope(w, kind, p) && Dest(w, kind, p, to)
                   && Meaning(w, to, files[to].bytes) == Meaning(w, p, start[p].bytes)
  }

  /** How far a conversion pass got: everything not handled is as it was, and nothing is there without a reason. */
  ghost predicate Progress(w: World, kind: PassKind, start: Image, files: Image, handled: set<Path>) {
    && (forall p | p in start && IsEntry(w, p) ::
          (p in files && files[p] == start[p]) || (p in handled && Gone(w, kind, start, files, p)))
    && (forall p | p in files && IsEntry(w, p) :: p in start || Made(w, kind, start, files, handled, p))
  }

  lemma TargetShape(w: World, kind: PassKind, p: Path, to: Path)
    requires w.layout.Valid() && Dest(w, kind, p, to)
    ensures to != [] && FileOf(w.layout, to) == Some((DigestAt(w, p), kind.Target())) && !IsTempPath(to)
    ensures !InScope(w, kind, to) && (InScope(w, kind, p) ==> to != p)
  {
    PlaceNames(w.layout, DigestAt(w, p), kind.Target());
    PlanIsTarget(kind, kind.Target());
  }

  /** A destination's name is an entry's, outside the temporary directory. */
  lemma DestIsEntry(w: World, kind: PassKind, p: Path, to: Path)
    requires w.layout.Valid() && Dest(w, kind, p, to)
    ensures IsEntry(w, to) && DigestAt(w, to) == DigestAt(w, p) && FormOf(w, to) == kind.Target()
  {
    TargetShape(w, kind, p, to);
    PlaceIsEntry(w.layout, DigestAt(w, p), kind.Target());
  }

  lemma StillGone(w: World, kind: PassKind, start: Image, files: Image, files': Image, p: Path, from: Path, to: Path)
    requires w.layout.Valid() && Gone(w, kind, start, files, p) && SameBut(files, files', {from, to})
    requires from in files && InScope(w, kind, from) && !InScope(w, kind, to)
    requires to in files ==> to in files' && files'[to] == files[to]
    ensures Gone(w, kind, start, files', p)
  {
    hide Meaning;
    var at :| Dest(w, kind, p, at) && at in files
              && (Meaning(w, at, files[at].bytes) == Meaning(w, p, start[p].bytes) || GoodAt(w, files, at, DigestAt(w, p)));
    TargetShape(w, kind, p, at);
    NotTemp(w.layout, p);
    assert at in files' && files'[at] == files[at];
    assert p != to && p != from;
  }

  /** One entry's conversion, whether it went through or not. */
  ghost predicate Handles(w: World, kind: PassKind, start: Image, files: Image, files': Image, entry: Entry, to: Path) {
    && entry.path in start && entry.path in files && files[entry.path] == start[entry.path] && InScope(w, kind, entry.path)
    && FileOf(w.layout, entry.path) == Some((entry.digest, entry.form)) && Dest(w, kind, entry.path, to)
    && (Moved(w, files, files', entry, to) || Kept(w, files, files', entry, to))
  }

  lemma {:induction false} StepProgress(w: World, kind: PassKind, start: Image, files: Image, files': Image,
                                        handled: set<Path>, entry: Entry, to: Path)
    requires w.layout.Valid() && Progress(w, kind, start, files, handled) && Handles(w, kind, start, files, files', entry, to)
    ensures Progress(w, kind, start, files', handled + {entry.path})
  {
    hide Handles, Gone, Made;
    forall p | p in start && IsEntry(w, p)
      ensures (p in files' && files'[p] == start[p]) || (p in handled + {entry.path} && Gone(w, kind, start, files', p))
    {
      StepKeeps(w, kind, start, files, files', handled, entry, to, p);
    }
    forall p | p in files' && IsEntry(w, p)
      ensures p in start || Made(w, kind, start, files', handled + {entry.path}, p)
    {
      StepMakes(w, kind, start, files, files', handled, entry, to, p);
    }
  }

  lemma StepKeeps(w: World, kind: PassKind, start: Image, files: Image, files': Image, handled: set<Path>,
                  entry: Entry, to: Path, p: Path)
    requires w.layout.Valid() && Handles(w, kind, start, files, files', entry, to)
    requires p in start && IsEntry(w, p) && ((p in files && files[p] == start[p]) || (p in handled && Gone(w, kind, start, files, p)))
    ensures (p in files' && files'[p] == start[p]) || (p in handled + {entry.path} && Gone(w, kind, start, files', p))
  {
    TargetShape(w, kind, entry.path, to);
    NotTemp(w.layout, p);
    if !(p in files && files[p] == start[p]) {
      StillGone(w, kind, start, files, files', p, entry.path, to);
    } else if p == entry.path && p !in files' {
      assert Dest(w, kind, p, to) && to in files';
    }
  }

  lemma StepMakes(w: World, kind: PassKind, start: Image, files: Image, files': Image, handled: set<Path>,
                  entry: Entry, to: Path, p: Path)
    requires w.layout.Valid() && Handles(w, kind, start, files, files', entry, to)
    requires p in files' && IsEntry(w, p) && (p in files ==> p in start || Made(w, kind, start, files, handled, p))
    ensures p in start || Made(w, kind, start, files', handled + {entry.path}, p)
  {
    TargetShape(w, kind, entry.path, to);
    NotTemp(w.layout, p);
    if p in files {
      assert files'[p] == files[p];
    } else {
      assert p == to;
    }
  }

  // -- what any point of a pass keeps ---------------------------------------

  /** However far a pass got, every digest that had a good entry has one. */
  lemma {:induction false} GoodKept(w: World, kind: PassKind, start: Image, files: Image, handled: set<Path>, digest: Digest)
    requires w.layout.Valid() && Progress(w, kind, start, files, handled) && WellPlaced(w.layout, start)
    requires HasGoodEntry(w, start, digest)
    ensures HasGoodEntry(w, files, digest)
  {
    var p :| p in start && IsEntry(w, p) && DigestAt(w, p) == digest && GoodAt(w, start, p, digest);
    if p in files && files[p] == start[p] {
      assert GoodAt(w, files, p, digest);
    } else {
      var to :| Dest(w, kind, p, to) && to in files
                && (Meaning(w, to, files[to].bytes) == Meaning(w, p, start[p].bytes) || GoodAt(w, files, to, DigestAt(w, p)));
      DestIsEntry(w, kind, p, to);
      assert GoodAt(w, files, to, digest);
    }
  }

  /** However far a pass got, a digest whose entries were all good, without a collision, says what it said. */
  lemma {:induction false} PassSaysTheSame(w: World, kind: PassKind, start: Image, files: Image, handled: set<Path>, digest: Digest)
    requires w.layout.Valid() && Progress(w, kind, start, files, handled) && Agreed(w, start, digest)
    ensures SaysTheSame(w, start, files, digest)
  {
    forall content | Says(w, start, digest, content)
      ensures Says(w, files, digest, content)
    {
      var p :| SaysAt(w, start, p, digest, content);
      SaysForward(w, kind, start, files, handled, p, digest, content);
    }
    forall content | Says(w, files, digest, content)
      ensures Says(w, start, digest, content)
    {
      var p :| SaysAt(w, files, p, digest, content);
      var q := SaysBack(w, kind, start, files, handled, p, digest, content);
    }
  }

  lemma SaysBack(w: World, kind: PassKind, start: Image, files: Image, handled: set<Path>, p: Path, digest: Digest,
                 content: Bytes)
    returns (q: Path)
    requires w.layout.Valid() && Progress(w, kind, start, files, handled) && SaysAt(w, files, p, digest, content)
    ensures SaysAt(w, start, q, digest, content)
  {
    if p in start {
      q := p;
    } else {
      q :| q in start && InScope(w, kind, q) && Dest(w, kind, q, p)
           && Meaning(w, p, files[p].bytes) == Meaning(w, q, start[q].bytes);
      DestIsEntry(w, kind, q, p);
    }
  }

  lemma SaysForward(w: World, kind: PassKind, start: Image, files: Image, handled: set<Path>, p: Path, digest: Digest,
                    content: Bytes)
    requires w.layout.Valid() && Progress(w, kind, start, files, handled) && SaysAt(w, start, p, digest, content)
    requires Agreed(w, start, digest)
    ensures Says(w, files, digest, content)
  {
    if p in files && files[p] == start[p] {
      assert SaysAt(w, files, p, digest, content);
    } else {
      var to :| Dest(w, kind, p, to) && to in files
                && (Meaning(w, to, files[to].bytes) == Meaning(w, p, start[p].bytes) || GoodAt(w, files, to, DigestAt(w, p)));
      DestIsEntry(w, kind, p, to);
      if GoodAt(w, files, to, digest) {
        var there := Meaning(w, to, files[to].bytes).value;
        var q := SaysBack(w, kind, start, files, handled, to, digest, there);
      }
      assert SaysAt(w, files, to, digest, content);
    }
  }

  /** A pass keeps a well-placed store well placed. */
  lemma {:induction false} StaysPlaced(w: World, kind: PassKind, start: Image, files: Image, handled: set<Path>)
    requires w.layout.Valid() && WellPlaced(w.layout, start) && Progress(w, kind, start, files, handled)
    ensures WellPlaced(w.layout, files)
  {
    forall p | p in Walked(OnlyEntries, w.layout, files)
      ensures w.layout.ParseName(Name(p)).Some? && w.layout.Shard(w.layout.ParseName(Name(p)).value.0) == Some(Parent(p))
    {
      if p in start {
        assert p in Walked(OnlyEntries, w.layout, start);
      } else {
        var q :| q in start && InScope(w, kind, q) && Dest(w, kind, q, p);
        DestIsEntry(w, kind, q, p);
        assert Parent(p) == w.layout.Shard(DigestAt(w, q)).value;
      }
    }
  }

  // -- counting -------------------------------------------------------------

  /** Whether a pass plans to treat an entry this way. */
  ghost function Treats(w: World, kind: PassKind, step: Step): Path -> bool {
    p => IsEntry(w, p) && kind.Plan(FormOf(w, p)) == step
  }

  /** Which of these paths a pass plans to treat this way. */
  ghost function Planned(w: World, kind: PassKind, step: Step, paths: set<Path>): set<Path> {
    Filter(paths, Treats(w, kind, step))
  }

  /** A tally of these entries: each counted once, and where its form says. */
  ghost predicate Counts(w: World, kind: PassKind, paths: set<Path>, tally: Tally) {
    && tally.already == |Planned(w, kind, Already, paths)|
    && tally.skipped == |Planned(w, kind, Skipped, paths)|
    && tally.converted + |tally.failed| == |Planned(w, kind, Converted, paths)|
    && tally.Total() == |paths|
    && forall i | 0 <= i < |tally.failed| ::
         tally.failed[i].path in Planned(w, kind, Converted, paths)
         && tally.failed[i].recoverable == Recoverable(tally.failed[i].error)
  }

  lemma CountsMore(w: World, kind: PassKind, paths: set<Path>, tally: Tally, entry: Entry,
                   outcome: Result<Step, Error>, step: Step)
    requires Counts(w, kind, paths, tally) && entry.path !in paths
    requires forall other :: Treats(w, kind, other)(entry.path) == (other == step)
    requires if step == Converted then outcome.Err? || outcome == Ok(Converted) else outcome == Ok(step)
    ensures Counts(w, kind, paths + {entry.path}, Tallied(tally, entry, outcome))
  {
    hide Treats, Filter, Tallied;
    TalliedOnce(tally, entry, outcome);
    FilterMore(paths, Treats(w, kind, Converted), entry.path);
    FilterMore(paths, Treats(w, kind, Already), entry.path);
    FilterMore(paths, Treats(w, kind, Skipped), entry.path);
    assert |paths + {entry.path}| == |paths| + 1;
  }

  /** Of the entries a pass was to convert, the ones still under their old names are the ones it counts as failed. */
  ghost predicate LeftBehind(w: World, kind: PassKind, files: Image, handled: set<Path>, tally: Tally) {
    forall p | p in handled && InScope(w, kind, p) :: p in files <==> Failed(tally, p)
  }

  // -- one turn -------------------------------------------------------------

  /** A pass over a well-placed store, in the middle. */
  ghost predicate Converting(w: World, kind: PassKind, start: Image, files: Image, handled: set<Path>, tally: Tally) {
    && Progress(w, kind, start, files, handled) && handled <= Walked(OnlyEntries, w.layout, start)
    && LeftBehind(w, kind, files, handled, tally) && Counts(w, kind, handled, tally) && NoneTwice(tally)
  }

  /** What one entry's turn does to the files. */
  ghost predicate Turn(w: World, kind: PassKind, files: Image, files': Image, entry: Entry, outcome: Result<Step, Error>) {
    && (outcome.Ok? ==> outcome.value == kind.Plan(entry.form))
    && if kind.Plan(entry.form) != Converted then outcome.Ok? && files' == files
       else w.layout.Shard(entry.digest).Some? ==>
              var to := Place(w.layout, entry.digest, kind.Target());
              && (outcome.Ok? ==> Moved(w, files, files', entry, to))
              && (outcome.Err? ==> Kept(w, files, files', entry, to))
  }

  /** Each turn handles one starting entry and counts it once. */
  lemma {:induction false} TurnConverts(w: World, kind: PassKind, start: Image, files: Image, files': Image, handled: set<Path>,
                                        tally: Tally, entry: Entry, outcome: Result<Step, Error>)
    requires w.layout.Valid() && WellPlaced(w.layout, start) && Converting(w, kind, start, files, handled, tally)
    requires entry.path in Walked(OnlyEntries, w.layout, start) && entry.path !in handled
    requires FileOf(w.layout, entry.path) == Some((entry.digest, entry.form)) && Turn(w, kind, files, files', entry, outcome)
    ensures Converting(w, kind, start, files', handled + {entry.path}, Tallied(tally, entry, outcome))
  {
    hide Progress, LeftBehind, Counts, NoneTwice;
    FailedHandled(w, kind, handled, tally, entry.path);
    NoneTwiceMore(tally, entry, outcome);
    TurnProgress(w, kind, start, files, files', handled, entry, outcome);
    TurnLeaves(w, kind, start, files, files', handled, entry, outcome, tally);
    TurnCounts(w, kind, files, files', handled, entry, outcome, tally);
  }

  lemma TurnCounts(w: World, kind: PassKind, files: Image, files': Image, handled: set<Path>, entry: Entry,
                   outcome: Result<Step, Error>, tally: Tally)
    requires Counts(w, kind, handled, tally) && entry.path !in handled && IsEntry(w, entry.path)
    requires FileOf(w.layout, entry.path) == Some((entry.digest, entry.form)) && Turn(w, kind, files, files', entry, outcome)
    ensures Counts(w, kind, handled + {entry.path}, Tallied(tally, entry, outcome))
  {
    hide Counts, Moved, Kept;
    CountsMore(w, kind, handled, tally, entry, outcome, kind.Plan(entry.form));
  }

  lemma TurnProgress(w: World, kind: PassKind, start: Image, files: Image, files': Image, handled: set<Path>,
                     entry: Entry, outcome: Result<Step, Error>)
    requires w.layout.Valid() && WellPlaced(w.layout, start) && Progress(w, kind, start, files, handled)
    requires entry.path in Walked(OnlyEntries, w.layout, start) && entry.path !in handled
    requires FileOf(w.layout, entry.path) == Some((entry.digest, entry.form)) && Turn(w, kind, files, files', entry, outcome)
    ensures Progress(w, kind, start, files', handled + {entry.path})
  {
    if kind.Plan(entry.form) == Converted {
      var to := Place(w.layout, entry.digest, kind.Target());
      assert Dest(w, kind, entry.path, to);
      AsItWas(w, kind, start, files, handled, entry.path);
      HandlesTurn(w, kind, start, files, files', entry, to, outcome);
      StepProgress(w, kind, start, files, files', handled, entry, to);
    } else {
      ProgressMore(w, kind, start, files, handled, entry.path);
    }
  }

  lemma ProgressMore(w: World, kind: PassKind, start: Image, files: Image, handled: set<Path>, path: Path)
    requires Progress(w, kind, start, files, handled)
    ensures Progress(w, kind, start, files, handled + {path})
  {
    hide Gone, Meaning;
    forall p | p in files && IsEntry(w, p)
      ensures p in start || Made(w, kind, start, files, handled + {path}, p)
    {
    }
  }

  lemma HandlesTurn(w: World, kind: PassKind, start: Image, files: Image, files': Image, entry: Entry, to: Path,
                    outcome: Result<Step, Error>)
    requires entry.path in start && entry.path in files && files[entry.path] == start[entry.path] && IsEntry(w, entry.path)
    requires FileOf(w.layout, entry.path) == Some((entry.digest, entry.form)) && Turn(w, kind, files, files', entry, outcome)
    requires kind.Plan(entry.form) == Converted && Dest(w, kind, entry.path, to)
    ensures Handles(w, kind, start, files, files', entry, to)
  {
    hide Moved, Kept;
  }

  lemma AsItWas(w: World, kind: PassKind, start: Image, files: Image, handled: set<Path>, p: Path)
    requires Progress(w, kind, start, files, handled) && p in start && IsEntry(w, p) && p !in handled
    ensures p in files && files[p] == start[p]
  {
  }

  lemma TurnLeaves(w: World, kind: PassKind, start: Image, files: Image, files': Image, handled: set<Path>, entry: Entry,
                   outcome: Result<Step, Error>, tally: Tally)
    requires w.layout.Valid() && WellPlaced(w.layout, start) && Progress(w, kind, start, files, handled)
    requires entry.path in Walked(OnlyEntries, w.layout, start) && entry.path !in handled
    requires FileOf(w.layout, entry.path) == Some((entry.digest, entry.form)) && Turn(w, kind, files, files', entry, outcome)
    requires LeftBehind(w, kind, files, handled, tally) && Counts(w, kind, handled, tally)
    ensures LeftBehind(w, kind, files', handled + {entry.path}, Tallied(tally, entry, outcome))
  {
    hide Failed, Tallied, Progress, Turn, Counts;
    FailedMore(tally, entry, outcome);
    FailedHandled(w, kind, handled, tally, entry.path);
    AsItWas(w, kind, start, files, handled, entry.path);
    assert w.layout.Shard(entry.digest).Some?;
    forall p | p in handled + {entry.path} && InScope(w, kind, p)
      ensures p in files' <==> if p == entry.path then outcome.Err? else p in files
    {
      TurnLeavesOne(w, kind, files, files', entry, outcome, p);
    }
  }

  /** A turn moves its own entry or none. */
  lemma TurnLeavesOne(w: World, kind: PassKind, files: Image, files': Image, entry: Entry, outcome: Result<Step, Error>, p: Path)
    requires w.layout.Valid() && FileOf(w.layout, entry.path) == Some((entry.digest, entry.form)) && IsEntry(w, entry.path)
    requires w.layout.Shard(entry.digest).Some? && Turn(w, kind, files, files', entry, outcome)
    requires entry.path in files && InScope(w, kind, p)
    ensures p in files' <==> if p == entry.path then outcome.Err? else p in files
  {
    hide Replaces;
    NotTemp(w.layout, p);
    if kind.Plan(entry.form) == Converted {
      TargetShape(w, kind, entry.path, Place(w.layout, entry.digest, kind.Target()));
    }
  }

  lemma FailedHandled(w: World, kind: PassKind, handled: set<Path>, tally: Tally, p: Path)
    requires Counts(w, kind, handled, tally) && p !in handled
    ensures !Failed(tally, p)
  {
  }

  // -- which entries fail ---------------------------------------------------

  /** Another starting entry of the same digest that the pass is to convert too. */
  ghost predicate Rival(w: World, kind: PassKind, start: Image, p: Path, q: Path)
    requires IsEntry(w, p)
  {
    q != p && q in start && InScope(w, kind, q) && DigestAt(w, q) == DigestAt(w, p)
  }

  /** What converting an entry comes to as things lie, where no call fails. */
  ghost function Comes(w: World, kind: PassKind, start: Image, dirs: set<Path>, p: Path): Result<(), Error>
    requires p in start && IsEntry(w, p) && w.layout.Shard(DigestAt(w, p)).Some?
  {
    ConvertComes(w, dirs, start, p, FormOf(w, p), DigestAt(w, p), kind.Target())
  }

  /**
  Whether an entry is sure to go through: it can be converted as things lie, and if its
  new name is free no rival can put anything there but the content.
  */
  ghost predicate Converts(w: World, kind: PassKind, start: Image, dirs: set<Path>, p: Path)
    requires p in start && IsEntry(w, p) && w.layout.Shard(DigestAt(w, p)).Some?
  {
    && Comes(w, kind, start, dirs, p).Ok?
    && (Place(w.layout, DigestAt(w, p), kind.Target()) !in start ==>
          forall q | Rival(w, kind, start, p, q) :: GoodAt(w, start, q, DigestAt(w, p)))
  }

  /** Whether nothing another entry's turn does can change how this one's goes. */
  ghost predicate Decided(w: World, kind: PassKind, start: Image, p: Path)
    requires IsEntry(w, p) && w.layout.Shard(DigestAt(w, p)).Some?
  {
    Place(w.layout, DigestAt(w, p), kind.Target()) in start || forall q :: !Rival(w, kind, start, p, q)
  }

  /** What is sure to go through did not fail, and what cannot did. */
  ghost predicate Rightly(w: World, kind: PassKind, start: Image, dirs: set<Path>, p: Path, failed: bool)
    requires p in start && IsEntry(w, p) && w.layout.Shard(DigestAt(w, p)).Some?
  {
    && (failed ==> !Converts(w, kind, start, dirs, p))
    && (!Converts(w, kind, start, dirs, p) && Decided(w, kind, start, p) ==> failed)
  }

  /** What fails fails with what it came to from the start, unless another entry's turn can change that. */
  ghost predicate FailsAs(w: World, kind: PassKind, start: Image, dirs: set<Path>, failure: Failure) {
    var p := failure.path;
    p in start && InScope(w, kind, p) && w.layout.Shard(DigestAt(w, p)).Some? && Decided(w, kind, start, p) ==>
      Comes(w, kind, start, dirs, p) == Err(failure.error)
  }

  /** Of these entries the ones counted as failed are the ones that could not go through, each with the reason. */
  ghost predicate Pinned(w: World, kind: PassKind, start: Image, dirs: set<Path>, handled: set<Path>, tally: Tally) {
    && (forall p | p in handled && p in start && InScope(w, kind, p) && w.layout.Shard(DigestAt(w, p)).Some? ::
      Rightly(w, kind, start, dirs, p, Failed(tally, p)))
    && forall i | 0 <= i < |tally.failed| :: FailsAs(w, kind, start, dirs, tally.failed[i])
  }

  /** Directories come and go only where temporary files lie, and no file takes their place. */
  ghost predicate SameAround(start: Image, dirs: set<Path>, files: Image, dirs': set<Path>) {
    ([DIR] in start <==> [DIR] in files) && dirs <= dirs' <= dirs + {[DIR]}
  }

  /** When its turn comes, what was sure at the start can be converted, and what was decided only if it was sure. */
  lemma {:induction false} GoesAsSure(w: World, kind: PassKind, start: Image, dirs: set<Path>, files: Image, dirs': set<Path>,
                                      handled: set<Path>, p: Path)
    requires w.layout.Valid() && Progress(w, kind, start, files, handled) && SameAround(start, dirs, files, dirs')
    requires p in start && InScope(w, kind, p) && w.layout.Shard(DigestAt(w, p)).Some? && p !in handled
    ensures p in files
    ensures var goes := ConvertComes(w, dirs', files, p, FormOf(w, p), DigestAt(w, p), kind.Target());
            && Rightly(w, kind, start, dirs, p, goes.Err?)
            && (Decided(w, kind, start, p) ==> goes == Comes(w, kind, start, dirs, p))
  {
    hide Meaning, PrepareComes, Reaches;
    AsItWas(w, kind, start, files, handled, p);
    PrepareSame(w, start, files, p, FormOf(w, p), kind.Target());
    StaysReached(w.layout, DigestAt(w, p), kind.Target(), dirs, dirs');
    var to := Place(w.layout, DigestAt(w, p), kind.Target());
    DestIsEntry(w, kind, p, to);
    TargetShape(w, kind, p, to);
    if to in start {
      assert files[to] == start[to];
    } else if to in files {
      var q :| q in start && q in handled && InScope(w, kind, q) && Dest(w, kind, q, to)
               && Meaning(w, to, files[to].bytes) == Meaning(w, q, start[q].bytes);
      DestIsEntry(w, kind, q, to);
      assert Rival(w, kind, start, p, q);
    }
  }

  lemma TurnPins(w: World, kind: PassKind, start: Image, dirs: set<Path>, files: Image, dirs': set<Path>, handled: set<Path>,
                 tally: Tally, entry: Entry, outcome: Result<Step, Error>)
    requires w.layout.Valid() && Converting(w, kind, start, files, handled, tally) && Pinned(w, kind, start, dirs, handled, tally)
    requires SameAround(start, dirs, files, dirs')
    requires entry.path in start && IsEntry(w, entry.path) && entry.path !in handled
    requires w.layout.Shard(entry.digest).Some? && entry.path in files
    requires FileOf(w.layout, entry.path) == Some((entry.digest, entry.form))
    requires kind.Plan(entry.form) == Converted ==>
               SameOutcome(outcome, ConvertComes(w, dirs', files, entry.path, entry.form, entry.digest, kind.Target()))
    ensures Pinned(w, kind, start, dirs, handled + {entry.path}, Tallied(tally, entry, outcome))
  {
    hide Progress, LeftBehind, Counts, Pinned, Rightly, ConvertComes;
    FailedHandled(w, kind, handled, tally, entry.path);
    if InScope(w, kind, entry.path) {
      GoesAsSure(w, kind, start, dirs, files, dirs', handled, entry.path);
    }
    PinsMore(w, kind, start, dirs, handled, tally, entry, outcome);
  }

  /** Whether a turn says what converting the entry comes to. */
  predicate SameOutcome(outcome: Result<Step, Error>, comes: Result<(), Error>) {
    match comes case Ok(_) => outcome.Ok? case Err(error) => outcome == Err(error)
  }

  lemma PinsMore(w: World, kind: PassKind, start: Image, dirs: set<Path>, handled: set<Path>, tally: Tally, entry: Entry,
                 outcome: Result<Step, Error>)
    requires Pinned(w, kind, start, dirs, handled, tally) && !Failed(tally, entry.path)
    requires entry.path in start && InScope(w, kind, entry.path) && w.layout.Shard(DigestAt(w, entry.path)).Some? ==>
               Rightly(w, kind, start, dirs, entry.path, outcome.Err?)
    requires outcome.Err? ==> FailsAs(w, kind, start, dirs, Failure(entry.path, outcome.error, Recoverable(outcome.error)))
    ensures Pinned(w, kind, start, dirs, handled + {entry.path}, Tallied(tally, entry, outcome))
  {
    hide Failed, Tallied, Rightly, InScope, FailsAs;
    FailedMore(tally, entry, outcome);
    TalliedOnce(tally, entry, outcome);
  }

  // -- what a whole pass promises -------------------------------------------

  /** What a pass over a well-placed store promises. */
  ghost predicate Outcome(w: World, kind: PassKind, start: Image, files: Image, r: Result<Tally, Error>) {
    && WellPlaced(w.layout, files)
    && (forall digest | HasGoodEntry(w, start, digest) :: HasGoodEntry(w, files, digest))
    && (forall digest | Agreed(w, start, digest) :: SaysTheSame(w, start, files, digest))
    && (r.Ok? ==>
          && Counts(w, kind, Walked(OnlyEntries, w.layout, start), r.value) && NoneTwice(r.value)
          && r.value.converted == |Filter(Walked(OnlyEntries, w.layout, start), Left(w, kind, files))|
          && (forall p | p in start && InScope(w, kind, p) :: p in files <==> Failed(r.value, p))
          && ((forall p | p in start :: !InScope(w, kind, p)) ==> r.value.converted == 0)
          && (r.value.failed == [] ==> forall p | p in files :: !InScope(w, kind, p)))
  }

  /** The entries a pass was to convert that are no longer under their old names. */
  ghost function Left(w: World, kind: PassKind, files: Image): Path -> bool { p => InScope(w, kind, p) && p !in files }

  /** What is counted as converted is what left its old name, each entry once. */
  lemma {:induction false} ConvertedExactly(w: World, kind: PassKind, files: Image, handled: set<Path>, tally: Tally)
    requires LeftBehind(w, kind, files, handled, tally) && Counts(w, kind, handled, tally) && NoneTwice(tally)
    ensures tally.converted == |Filter(handled, Left(w, kind, files))|
  {
    FailedOnce(tally.failed);
    FailedPlanned(w, kind, handled, tally);
    PlannedSplit(w, kind, files, handled, tally);
    hide FailedPaths, Failed, Counts, Planned, Filter, LeftBehind, NoneTwice;
    assert |Filter(handled, Left(w, kind, files)) + FailedPaths(tally.failed)|
        == |Filter(handled, Left(w, kind, files))| + |FailedPaths(tally.failed)|;
  }

  lemma PlannedSplit(w: World, kind: PassKind, files: Image, handled: set<Path>, tally: Tally)
    requires LeftBehind(w, kind, files, handled, tally) && FailedPaths(tally.failed) <= Planned(w, kind, Converted, handled)
    ensures Planned(w, kind, Converted, handled) == Filter(handled, Left(w, kind, files)) + FailedPaths(tally.failed)
    ensures Filter(handled, Left(w, kind, files)) !! FailedPaths(tally.failed)
  {
    FailedIsPath(tally);
    hide FailedPaths, Failed;
  }

  lemma FailedPlanned(w: World, kind: PassKind, handled: set<Path>, tally: Tally)
    requires Counts(w, kind, handled, tally)
    ensures FailedPaths(tally.failed) <= Planned(w, kind, Converted, handled)
    ensures tally.converted + |tally.failed| == |Planned(w, kind, Converted, handled)|
  {
    hide Planned;
  }

  /** A pass that handled everything and failed at nothing leaves nothing in scope. */
  lemma {:induction false} NothingInScope(w: World, kind: PassKind, start: Image, files: Image, handled: set<Path>, tally: Tally)
    requires w.layout.Valid() && Progress(w, kind, start, files, handled) && LeftBehind(w, kind, files, handled, tally)
    requires Walked(OnlyEntries, w.layout, start) <= handled && tally.failed == []
    ensures forall p | p in files :: !InScope(w, kind, p)
  {
    forall p | p in files && IsEntry(w, p)
      ensures !InScope(w, kind, p)
    {
      if p in start {
        assert p in Walked(OnlyEntries, w.layout, start);
      } else {
        var q :| q in start && InScope(w, kind, q) && Dest(w, kind, q, p);
        TargetShape(w, kind, q, p);
      }
    }
  }

  lemma {:induction false} PassOutcome(w: World, kind: PassKind, start: Image, files: Image, handled: set<Path>,
                                       tally: Tally, r: Result<Tally, Error>)
    requires w.layout.Valid() && WellPlaced(w.layout, start) && Converting(w, kind, start, files, handled, tally)
    requires r.Ok? ==> r.value == tally && Walked(OnlyEntries, w.layout, start) <= handled
    ensures Outcome(w, kind, start, files, r)
  {
    hide Progress, Counts, HasGoodEntry, Agreed, SaysTheSame, WellPlaced, Failed, Filter, NoneTwice;
    StaysPlaced(w, kind, start, files, handled);
    forall digest | HasGoodEntry(w, start, digest)
      ensures HasGoodEntry(w, files, digest)
    {
      GoodKept(w, kind, start, files, handled, digest);
    }
    forall digest | Agreed(w, start, digest)
      ensures SaysTheSame(w, start, files, digest)
    {
      PassSaysTheSame(w, kind, start, files, handled, digest);
    }
    if r.Ok? {
      assert handled == Walked(OnlyEntries, w.layout, start);
      NoneConverted(w, kind, start, handled, tally);
      ConvertedExactly(w, kind, files, handled, tally);
      if tally.failed == [] {
        NothingInScope(w, kind, start, files, handled, tally);
      }
    }
  }

  // -- what that is, form by form -------------------------------------------

  /** The entries among these files that lie in one of these forms. */
  ghost function InForms(w: World, files: Image, forms: set<Form>): set<Path> {
    set p | p in files && IsEntry(w, p) && FormOf(w, p) in forms
  }

  /** A starting entry's file in another form, where its digest has it: it says the same, or is the content itself. */
  ghost predicate LiesAs(w: World, start: Image, files: Image, p: Path, to: Form)
    requires p in start && IsEntry(w, p)
  {
    w.layout.Shard(DigestAt(w, p)).Some?
    && var there := Place(w.layout, DigestAt(w, p), to);
       && there in files
       && (Decode(w.codec, w.key, to, files[there].bytes) == Decode(w.codec, w.key, FormOf(w, p), start[p].bytes)
           || Good(w.codec, w.key, to, files[there].bytes, DigestAt(w, p)))
  }

  /**
  A pass that takes entries out of some forms into one: those that lay in that one
  already and the others are counted as such and stay; each it takes is under its new
  name and off its old one, or failed and stayed; and if none failed, none lies in the
  forms it takes from.
  */
  ghost predicate Went(w: World, start: Image, files: Image, tally: Tally, from: set<Form>, to: Form, others: set<Form>) {
    && tally.already == |InForms(w, start, {to})| && tally.skipped == |InForms(w, start, others)|
    && tally.converted + |tally.failed| == |InForms(w, start, from)|
    && (forall p | p in InForms(w, start, others + {to}) :: p in files && files[p] == start[p])
    && (forall p | p in InForms(w, start, from) ::
          if Failed(tally, p) then p in files && files[p] == start[p] else p !in files && LiesAs(w, start, files, p, to))
    && (forall i | 0 <= i < |tally.failed| :: tally.failed[i].path in InForms(w, start, from))
    && (tally.failed == [] ==> InForms(w, files, from) == {})
  }

  lemma {:induction false} PassWent(w: World, kind: PassKind, start: Image, files: Image, tally: Tally, from: set<Form>, to: Form,
                                    others: set<Form>)
    requires w.layout.Valid() && Converting(w, kind, start, files, Walked(OnlyEntries, w.layout, start), tally)
    requires to == kind.Target() && forall f: Form ::
               && (f in from <==> kind.Plan(f) == Converted) && (f == to <==> kind.Plan(f) == Already)
               && (f in others <==> kind.Plan(f) == Skipped)
    ensures Went(w, start, files, tally, from, to, others)
  {
    hide Progress, Failed, LiesAs, Yields, FileOf, NoneTwice;
    var handled := Walked(OnlyEntries, w.layout, start);
    assert Planned(w, kind, Converted, handled) == InForms(w, start, from);
    assert Planned(w, kind, Already, handled) == InForms(w, start, {to});
    assert Planned(w, kind, Skipped, handled) == InForms(w, start, others);
    forall p | p in InForms(w, start, others + {to})
      ensures p in files && files[p] == start[p]
    {
      StaysUnless(w, kind, start, files, handled, p);
    }
    forall p | p in InForms(w, start, from)
      ensures if Failed(tally, p) then p in files && files[p] == start[p] else p !in files && LiesAs(w, start, files, p, to)
    {
      StaysUnless(w, kind, start, files, handled, p);
    }
    if tally.failed == [] {
      NothingInScope(w, kind, start, files, handled, tally);
      assert forall p | p in InForms(w, files, from) :: InScope(w, kind, p);
    }
  }

  /** An entry stays as it was, unless it was to be converted and lies in its new form. */
  lemma StaysUnless(w: World, kind: PassKind, start: Image, files: Image, handled: set<Path>, p: Path)
    requires w.layout.Valid() && Progress(w, kind, start, files, handled) && p in start && IsEntry(w, p)
    ensures (p in files && files[p] == start[p]) || (p !in files && InScope(w, kind, p) && LiesAs(w, start, files, p, kind.Target()))
  {
    hide Made;
    if !(p in files && files[p] == start[p]) {
      assert Gone(w, kind, start, files, p);
      var to :| Dest(w, kind, p, to) && to in files
                && (Meaning(w, to, files[to].bytes) == Meaning(w, p, start[p].bytes) || GoodAt(w, files, to, DigestAt(w, p)));
      TargetShape(w, kind, p, to);
    }
  }

  /** The four passes, each with its forms. */
  lemma {:induction false} PassByForms(w: World, kind: PassKind, start: Image, files: Image, tally: Tally)
    requires w.layout.Valid() && Converting(w, kind, start, files, Walked(OnlyEntries, w.layout, start), tally)
    ensures kind.Compressing? ==> Went(w, start, files, tally, {Raw}, Zstd, {Enc})
    ensures kind.Decompressing? ==> Went(w, start, files, tally, {Zstd}, Raw, {Enc})
    ensures kind.Encrypting? ==> Went(w, start, files, tally, {Raw, Zstd}, Enc, {})
    ensures kind.Decrypting? ==> Went(w, start, files, tally, {Enc}, Zstd, {Raw})
  {
    hide Converting, Went;
    match kind
    case Compressing => PassWent(w, kind, start, files, tally, {Raw}, Zstd, {Enc});
    case Decompressing => PassWent(w, kind, start, files, tally, {Zstd}, Raw, {Enc});
    case Encrypting => PassWent(w, kind, start, files, tally, {Raw, Zstd}, Enc, {});
    case Decrypting => PassWent(w, kind, start, files, tally, {Enc}, Zstd, {Raw});
  }

  /** What a pass converts is what the step machine's conversions are, all of them, and nothing else. */
  lemma PlannedExactly(from: Form, target: Form)
    ensures R.Planned(from, target) <==> (from, target) in {(Raw, Zstd), (Zstd, Raw), (Raw, Enc), (Zstd, Enc), (Enc, Zstd)}
    ensures R.Planned(from, target) <==> exists kind: PassKind :: kind.Plan(from) == Converted && kind.Target() == target
  {
    assert Compressing.Plan(Raw) == Converted && Compressing.Target() == Zstd;
    assert Decompressing.Plan(Zstd) == Converted && Decompressing.Target() == Raw;
    assert Encrypting.Plan(Raw) == Encrypting.Plan(Zstd) == Converted && Encrypting.Target() == Enc;
    assert Decrypting.Plan(Enc) == Converted && Decrypting.Target() == Zstd;
  }

  /** So each conversion of a pass is one that the machine's runs have. */
  lemma PassStarts(store: Store, kind: PassKind, p: Path, d: Disk)
    requires p in Live(d) && IsEntry(store.ThisWorld(), p)
    requires kind.Plan(FormOf(store.ThisWorld(), p)) == Converted
    ensures store.Starts(Entry(DigestAt(store.ThisWorld(), p), p, FormOf(store.ThisWorld(), p)), kind.Target(), d)
  {
  }

  /**
  And where no call fails: an entry that is the only one of its digest to be converted
  fails exactly if converting it as the store was comes to an error, and with that; and
  one that goes through as the store was does so too beside others that are all good.
  */
  ghost predicate WentSurely(w: World, start: Image, dirs: set<Path>, tally: Tally, from: set<Form>, to: Form) {
    && (forall p | p in InForms(w, start, from) && OnlyOne(w, start, from, p) && w.layout.Shard(DigestAt(w, p)).Some? ::
          Failed(tally, p) <==> ConvertComes(w, dirs, start, p, FormOf(w, p), DigestAt(w, p), to).Err?)
    && (forall i | 0 <= i < |tally.failed| ::
          var p := tally.failed[i].path;
          p in InForms(w, start, from) && OnlyOne(w, start, from, p) && w.layout.Shard(DigestAt(w, p)).Some? ==>
            ConvertComes(w, dirs, start, p, FormOf(w, p), DigestAt(w, p), to) == Err(tally.failed[i].error))
    && (forall p | p in InForms(w, start, from) && OthersGood(w, start, from, p) && w.layout.Shard(DigestAt(w, p)).Some? ::
          ConvertComes(w, dirs, start, p, FormOf(w, p), DigestAt(w, p), to).Ok? ==> !Failed(tally, p))
  }

  ghost predicate OthersGood(w: World, start: Image, from: set<Form>, p: Path)
    requires IsEntry(w, p)
  {
    forall q | q in InForms(w, start, from) && DigestAt(w, q) == DigestAt(w, p) && q != p :: GoodAt(w, start, q, DigestAt(w, p))
  }

  ghost predicate OnlyOne(w: World, start: Image, from: set<Form>, p: Path)
    requires IsEntry(w, p)
  {
    forall q | q in InForms(w, start, from) && DigestAt(w, q) == DigestAt(w, p) :: q == p
  }

  lemma {:induction false} PassSurely(w: World, kind: PassKind, start: Image, dirs: set<Path>, tally: Tally, from: set<Form>, to: Form)
    requires Pinned(w, kind, start, dirs, Walked(OnlyEntries, w.layout, start), tally)
    requires to == kind.Target() && forall f: Form :: f in from <==> kind.Plan(f) == Converted
    ensures WentSurely(w, start, dirs, tally, from, to)
  {
    hide ConvertComes, Failed, Yields, FileOf, GoodAt, OthersGood;
    forall p | p in InForms(w, start, from) && OnlyOne(w, start, from, p) && w.layout.Shard(DigestAt(w, p)).Some?
      ensures Failed(tally, p) <==> Comes(w, kind, start, dirs, p).Err?
      ensures Decided(w, kind, start, p)
    {
      forall q
        ensures !Rival(w, kind, start, p, q)
      {
        assert Rival(w, kind, start, p, q) ==> q in InForms(w, start, from);
      }
      assert p in Walked(OnlyEntries, w.layout, start) && InScope(w, kind, p);
      assert Rightly(w, kind, start, dirs, p, Failed(tally, p));
    }
    forall i | 0 <= i < |tally.failed|
      ensures FailsAs(w, kind, start, dirs, tally.failed[i])
    {
    }
    forall p | p in InForms(w, start, from) && OthersGood(w, start, from, p) && w.layout.Shard(DigestAt(w, p)).Some?
      ensures Comes(w, kind, start, dirs, p).Ok? ==> !Failed(tally, p)
    {
      GoodRivals(w, kind, start, from, p);
      assert p in Walked(OnlyEntries, w.layout, start) && InScope(w, kind, p);
      assert Rightly(w, kind, start, dirs, p, Failed(tally, p));
    }
  }

  lemma GoodRivals(w: World, kind: PassKind, start: Image, from: set<Form>, p: Path)
    requires IsEntry(w, p) && OthersGood(w, start, from, p) && forall f: Form :: f in from <==> kind.Plan(f) == Converted
    ensures forall q | Rival(w, kind, start, p, q) :: GoodAt(w, start, q, DigestAt(w, p))
  {
    hide GoodAt;
    assert forall q | Rival(w, kind, start, p, q) :: q in InForms(w, start, from);
  }

  lemma {:induction false} PassSurelyByForms(w: World, kind: PassKind, start: Image, dirs: set<Path>, tally: Tally)
    requires Pinned(w, kind, start, dirs, Walked(OnlyEntries, w.layout, start), tally)
    ensures kind.Compressing? ==> WentSurely(w, start, dirs, tally, {Raw}, Zstd)
    ensures kind.Decompressing? ==> WentSurely(w, start, dirs, tally, {Zstd}, Raw)
    ensures kind.Encrypting? ==> WentSurely(w, start, dirs, tally, {Raw, Zstd}, Enc)
    ensures kind.Decrypting? ==> WentSurely(w, start, dirs, tally, {Enc}, Zstd)
  {
    hide Pinned, WentSurely;
    match kind
    case Compressing => PassSurely(w, kind, start, dirs, tally, {Raw}, Zstd);
    case Decompressing => PassSurely(w, kind, start, dirs, tally, {Zstd}, Raw);
    case Encrypting => PassSurely(w, kind, start, dirs, tally, {Raw, Zstd}, Enc);
    case Decrypting => PassSurely(w, kind, start, dirs, tally, {Enc}, Zstd);
  }

  lemma NoneConverted(w: World, kind: PassKind, start: Image, handled: set<Path>, tally: Tally)
    requires Counts(w, kind, handled, tally) && handled <= start.Keys
    ensures (forall p | p in start :: !InScope(w, kind, p)) ==> tally.converted == 0
  {
    if forall p | p in start :: !InScope(w, kind, p) {
      assert forall p | p in handled :: !Treats(w, kind, Converted)(p);
      assert Planned(w, kind, Converted, handled) == {};
    }
  }

  // -- what a pass learns of the key ----------------------------------------

  /** A file in the pass's target form whose first chunk opens: no step of the pass takes it away. */
  ghost predicate Opens(w: World, kind: PassKind, files: Image) { exists p :: OpensAt(w, kind, files, p) }

  ghost predicate OpensAt(w: World, kind: PassKind, files: Image, p: Path) {
    p in files && FileOf(w.layout, p).Some? && FileOf(w.layout, p).value.1 == kind.Target() && Proves(w.key, kind.Target(), files[p].bytes)
  }

  /** What a step or a pass may do to what is known of the key: never forget it, and learn it only from such a file. */
  ghost predicate Gains(w: World, kind: PassKind, was: bool, now: bool, files: Image, files': Image) {
    (was ==> now) && (Opens(w, kind, files) ==> Opens(w, kind, files')) && (now ==> was || Opens(w, kind, files'))
  }

  lemma OpensStays(w: World, kind: PassKind, files: Image, files': Image, from: Path, to: Path)
    requires w.layout.Valid() && SameBut(files, files', {from, to}) && (to in files ==> to in files' && files'[to] == files[to])
    requires FileOf(w.layout, from).Some? && FileOf(w.layout, from).value.1 != kind.Target()
    ensures forall p | OpensAt(w, kind, files, p) :: OpensAt(w, kind, files', p)
  {
    hide Proves, FileOf;
    forall p | OpensAt(w, kind, files, p)
      ensures OpensAt(w, kind, files', p)
    {
      NotTemp(w.layout, p);
    }
  }

  // -- the pass -------------------------------------------------------------

  /** A pass as it set out: whether the store was well placed, and whether besides the file system fails nothing. */
  datatype Scene = Scene(w: World, kind: PassKind, start: Image, dirs: set<Path>, proven: bool, placed: bool, ready: bool) {
    ghost function Everything(): set<Path> { Walked(OnlyEntries, w.layout, start) }
  }

  ghost predicate SetOut(store: Store, scene: Scene)
    reads store, store.fs
  {
    && scene.w == store.ThisWorld() && scene.w.layout.Valid()
    && (scene.placed ==> WellPlaced(scene.w.layout, scene.start))
    && (scene.ready ==> scene.placed && store.fs.reliable)
    && Gains(scene.w, scene.kind, scene.proven, store.keyProven, scene.start, store.fs.Files())
  }

  /** How far it got. */
  ghost predicate Got(scene: Scene, files: Image, handled: set<Path>, tally: Tally) {
    && (scene.placed ==> Converting(scene.w, scene.kind, scene.start, files, handled, tally))
    && (scene.ready ==> Pinned(scene.w, scene.kind, scene.start, scene.dirs, handled, tally))
  }

  /** The pass between two entries. */
  ghost predicate Midway(store: Store, entries: Entries, scene: Scene, handled: set<Path>, tally: Tally)
    reads store, store.fs, entries
  {
    && Passing(store, entries, OnlyEntries) && SetOut(store, scene) && Got(scene, store.fs.Files(), handled, tally)
    && (scene.placed ==> Owed(scene.Everything(), handled, entries))
    && (scene.ready ==> SameAround(scene.start, scene.dirs, store.fs.Files(), store.fs.dirs))
  }

  /**
  A conversion pass. On a file system that fails nothing it comes to an end. Over a
  well-placed store it counts every starting entry exactly once over its four tallies,
  the failed ones are those still under their old names, no digest is left without a
  good entry that had one, and a digest whose entries were good says what it said. And
  on a file system that fails nothing those that fail are those that could not go
  through.
  */
  method ConvertAll(store: Store, kind: PassKind) returns (r: Result<Tally, Error>)
    requires store.Valid() && Lawful(store.codec)
    modifies store`keyProven, store`serial, store.fs`disk, store.fs`dirs
    ensures store.Valid()
    ensures (kind.Encrypting? || kind.Decrypting?) && store.key.None? ==> r == Err(KeyRequired) && store.fs.disk == old(store.fs.disk)
    ensures store.fs.reliable && !((kind.Encrypting? || kind.Decrypting?) && store.key.None?) ==> r.Ok?
    ensures Gains(store.ThisWorld(), kind, old(store.keyProven), store.keyProven, old(store.fs.Files()), store.fs.Files())
    ensures WellPlaced(store.layout, old(store.fs.Files())) ==>
              Outcome(store.ThisWorld(), kind, old(store.fs.Files()), store.fs.Files(), r)
    ensures WellPlaced(store.layout, old(store.fs.Files())) && r.Ok? ==>
              var w, start, files := store.ThisWorld(), old(store.fs.Files()), store.fs.Files();
              && (kind.Compressing? ==> Went(w, start, files, r.value, {Raw}, Zstd, {Enc}))
              && (kind.Decompressing? ==> Went(w, start, files, r.value, {Zstd}, Raw, {Enc}))
              && (kind.Encrypting? ==> Went(w, start, files, r.value, {Raw, Zstd}, Enc, {}))
              && (kind.Decrypting? ==> Went(w, start, files, r.value, {Enc}, Zstd, {Raw}))
    ensures store.fs.reliable && WellPlaced(store.layout, old(store.fs.Files())) && r.Ok? ==>
              Pinned(store.ThisWorld(), kind, old(store.fs.Files()), old(store.fs.dirs),
                     Walked(OnlyEntries, store.layout, old(store.fs.Files())), r.value)
    ensures store.fs.reliable && WellPlaced(store.layout, old(store.fs.Files())) && r.Ok? ==>
              var w, start, dirs := store.ThisWorld(), old(store.fs.Files()), old(store.fs.dirs);
              && (kind.Compressing? ==> WentSurely(w, start, dirs, r.value, {Raw}, Zstd))
              && (kind.Decompressing? ==> WentSurely(w, start, dirs, r.value, {Zstd}, Raw))
              && (kind.Encrypting? ==> WentSurely(w, start, dirs, r.value, {Raw, Zstd}, Enc))
              && (kind.Decrypting? ==> WentSurely(w, start, dirs, r.value, {Enc}, Zstd))
  {
    hide Converting, Pinned, Outcome, WellPlaced, Went, WentSurely;
    ghost var start, placed := store.fs.Files(), WellPlaced(store.layout, store.fs.Files());
    if (kind.Encrypting? || kind.Decrypting?) && store.key.None? {
      if placed {
        NothingYet(store.ThisWorld(), kind, start, store.fs.dirs);
        PassOutcome(store.ThisWorld(), kind, start, start, {}, Tally(0, 0, 0, []), Err(KeyRequired));
      }
      return Err(KeyRequired);
    }
    ghost var scene := Scene(store.ThisWorld(), kind, start, store.fs.dirs, store.keyProven, placed, placed && store.fs.reliable);
    ghost var tally: Tally, handled: set<Path>;
    r, tally, handled := ConvertRest(store, kind, scene);
    if placed {
      PassOutcome(scene.w, kind, start, store.fs.Files(), handled, tally, r);
      if r.Ok? {
        WholeWalk(scene, store.fs.Files(), handled, tally);
        PassByForms(scene.w, kind, start, store.fs.Files(), tally);
        if store.fs.reliable {
          PassSurelyByForms(scene.w, kind, start, scene.dirs, tally);
        }
      }
    }
  }

  lemma WholeWalk(scene: Scene, files: Image, handled: set<Path>, tally: Tally)
    requires scene.placed && Got(scene, files, handled, tally) && scene.Everything() <= handled
    ensures handled == scene.Everything()
  {
  }

  /** The walk, one entry's turn after another. */
  method ConvertRest(store: Store, kind: PassKind, ghost scene: Scene)
    returns (r: Result<Tally, Error>, ghost tally': Tally, ghost handled: set<Path>)
    requires SetOut(store, scene) && scene.kind == kind && store.Valid() && Lawful(store.codec)
    requires scene.start == store.fs.Files() && scene.dirs == store.fs.dirs
    modifies store`keyProven, store`serial, store.fs`disk, store.fs`dirs
    ensures store.Valid() && SetOut(store, scene) && Got(scene, store.fs.Files(), handled, tally')
    ensures if r.Ok? then r.value == tally' && (scene.placed ==> scene.Everything() <= handled) else !store.fs.reliable
  {
    hide Got, Owed, SetOut;
    var entries := new Entries(store.fs, store.layout, OnlyEntries);
    var tally := Tally(0, 0, 0, []);
    handled := {};
    Begins(store, entries, scene);
    var going := true;
    r := Err(Io);
    while going
      invariant fresh(entries) && store.Valid() && SetOut(store, scene) && Got(scene, store.fs.Files(), handled, tally)
      invariant going ==> Midway(store, entries, scene, handled, tally)
      invariant !going ==> if r.Ok? then r.value == tally && (scene.placed ==> scene.Everything() <= handled)
                           else !store.fs.reliable
      decreases going, entries.Unread(), |entries.ready|
    {
      going, r, tally, handled := ConvertNext(store, kind, entries, scene, handled, tally);
    }
    tally' := tally;
  }

  /** Nothing is handled yet. */
  lemma NothingYet(w: World, kind: PassKind, start: Image, dirs: set<Path>)
    ensures Converting(w, kind, start, start, {}, Tally(0, 0, 0, [])) && Pinned(w, kind, start, dirs, {}, Tally(0, 0, 0, []))
  {
    hide Gone, Made;
    assert Planned(w, kind, Converted, {}) == {} && Planned(w, kind, Already, {}) == {} && Planned(w, kind, Skipped, {}) == {};
  }

  lemma Begins(store: Store, entries: Entries, scene: Scene)
    requires Passing(store, entries, OnlyEntries) && SetOut(store, scene)
    requires scene.start == store.fs.Files() && scene.dirs == store.fs.dirs
    requires entries.Remaining() == Walked(OnlyEntries, store.layout, store.fs.Files())
    ensures Midway(store, entries, scene, {}, Tally(0, 0, 0, []))
  {
    hide Converting, Pinned, Passing, WellPlaced;
    NothingYet(scene.w, scene.kind, scene.start, scene.dirs);
  }

  /** One turn of that pass. */
  method ConvertNext(store: Store, kind: PassKind, entries: Entries, ghost scene: Scene, ghost handled: set<Path>, tally: Tally)
    returns (going: bool, r: Result<Tally, Error>, tally': Tally, ghost handled': set<Path>)
    requires Midway(store, entries, scene, handled, tally) && scene.kind == kind && Lawful(store.codec)
    modifies store`keyProven, store`serial, store.fs`disk, store.fs`dirs, entries
    ensures store.Valid() && SetOut(store, scene) && Got(scene, store.fs.Files(), handled', tally')
    ensures going ==> Midway(store, entries, scene, handled', tally')
    ensures !going ==> if r.Ok? then r.value == tally' && (scene.placed ==> scene.Everything() <= handled')
                       else !store.fs.reliable
    ensures going ==> Sooner(old(entries.Unread()), |old(entries.ready)|, entries.Unread(), |entries.ready|)
  {
    hide Got, Owed, SetOut, Sooner;
    tally', handled', r := tally, handled, Err(Io);
    var item := NextEntry(store, entries, OnlyEntries, scene.placed, scene.Everything(), handled);
    match item
    case None =>
      return false, Ok(tally), tally, handled;
    case Some(Err(_)) =>
      return false, Err(Io), tally, handled;
    case Some(Ok(entry)) =>
      going, handled' := true, handled + {entry.path};
      tally' := ConvertCounted(store, kind, entries, scene, entry, handled, tally);
  }

  /** An entry's turn, and its place in the tally. */
  method ConvertCounted(store: Store, kind: PassKind, ghost entries: Entries, ghost scene: Scene, entry: Entry,
                        ghost handled: set<Path>, tally: Tally)
    returns (tally': Tally)
    requires Passing(store, entries, OnlyEntries) && SetOut(store, scene) && scene.kind == kind && Lawful(store.codec)
    requires Got(scene, store.fs.Files(), handled, tally) && EntryOk(OnlyEntries, store.layout, entry, entries.dirs)
    requires scene.placed ==>
               && entry.path in scene.Everything() && entry.path !in handled
               && Owed(scene.Everything(), handled + {entry.path}, entries)
    requires scene.ready ==> SameAround(scene.start, scene.dirs, store.fs.Files(), store.fs.dirs)
    modifies store`keyProven, store`serial, store.fs`disk, store.fs`dirs
    ensures Midway(store, entries, scene, handled + {entry.path}, tally') && entries.Unread() == old(entries.Unread())
  {
    hide Converting, Pinned, ConvertComes, Turn, SameAround, WellPlaced, EntryOk, Tallied, Yields, Opens;
    ghost var files, dirs := store.fs.Files(), store.fs.dirs;
    EntryNamed(scene.w, entry, entries.dirs);
    if scene.placed {
      InItsShard(scene, entry);
      ThereStill(scene, files, handled, tally, entry.path);
    }
    var outcome := ConvertTurn(store, kind, entries, entry);
    tally' := Tallied(tally, entry, outcome);
    if scene.placed {
      TurnGets(scene, files, dirs, store.fs.Files(), handled, tally, entry, outcome);
    }
    if scene.ready {
      AroundStays(scene, files, dirs, store.fs.Files(), store.fs.dirs, entry, outcome);
    }
  }

  /** What the walk hands out is an entry, and its digest and form are those of its name. */
  lemma EntryNamed(w: World, entry: Entry, dirs: seq<Path>)
    requires EntryOk(OnlyEntries, w.layout, entry, dirs)
    ensures IsEntry(w, entry.path) && FileOf(w.layout, entry.path) == Some((entry.digest, entry.form))
  {
  }

  lemma InItsShard(scene: Scene, entry: Entry)
    requires WellPlaced(scene.w.layout, scene.start) && entry.path in scene.Everything()
    requires FileOf(scene.w.layout, entry.path) == Some((entry.digest, entry.form))
    ensures scene.w.layout.Shard(entry.digest) == Some(Parent(entry.path))
  {
  }

  lemma ThereStill(scene: Scene, files: Image, handled: set<Path>, tally: Tally, p: Path)
    requires Converting(scene.w, scene.kind, scene.start, files, handled, tally) && p in scene.Everything() && p !in handled
    ensures p in files
  {
    hide LeftBehind, Counts;
    AsItWas(scene.w, scene.kind, scene.start, files, handled, p);
  }

  lemma TurnGets(scene: Scene, files: Image, dirs: set<Path>, files': Image, handled: set<Path>, tally: Tally, entry: Entry,
                 outcome: Result<Step, Error>)
    requires scene.w.layout.Valid() && scene.placed && WellPlaced(scene.w.layout, scene.start) && Got(scene, files, handled, tally)
    requires entry.path in scene.Everything() && entry.path !in handled && entry.path in files
    requires FileOf(scene.w.layout, entry.path) == Some((entry.digest, entry.form))
    requires scene.w.layout.Shard(entry.digest).Some? && Turn(scene.w, scene.kind, files, files', entry, outcome)
    requires scene.ready ==>
               && SameAround(scene.start, scene.dirs, files, dirs)
               && (scene.kind.Plan(entry.form) == Converted ==>
                     SameOutcome(outcome, ConvertComes(scene.w, dirs, files, entry.path, entry.form, entry.digest, scene.kind.Target())))
    ensures Got(scene, files', handled + {entry.path}, Tallied(tally, entry, outcome))
  {
    hide Converting, Pinned, Turn, ConvertComes;
    TurnConverts(scene.w, scene.kind, scene.start, files, files', handled, tally, entry, outcome);
    if scene.ready {
      TurnPins(scene.w, scene.kind, scene.start, scene.dirs, files, dirs, handled, tally, entry, outcome);
    }
  }

  /** Temporary files keep to their directory, and what is converted stays out of it. */
  lemma AroundStays(scene: Scene, files: Image, dirs: set<Path>, files': Image, dirs': set<Path>, entry: Entry,
                    outcome: Result<Step, Error>)
    requires scene.w.layout.Valid() && SameAround(scene.start, scene.dirs, files, dirs) && dirs <= dirs' <= dirs + {[DIR]}
    requires Turn(scene.w, scene.kind, files, files', entry, outcome) && scene.w.layout.Shard(entry.digest).Some?
    requires IsEntry(scene.w, entry.path)
    ensures SameAround(scene.start, scene.dirs, files', dirs')
  {
    hide Replaces;
    if scene.kind.Plan(entry.form) == Converted {
      OutsideTemp(scene.w.layout, entry.digest, scene.kind.Target());
      NoEntryIsTemp(scene.w.layout);
      assert !IsTempPath([DIR]) && [DIR] != entry.path;
    }
  }

  /** Do what is planned for an entry's form; what the walk still owes stays as it was. */
  method ConvertTurn(store: Store, kind: PassKind, ghost entries: Entries, entry: Entry) returns (outcome: Result<Step, Error>)
    requires Passing(store, entries, OnlyEntries) && Lawful(store.codec) && EntryOk(OnlyEntries, store.layout, entry, entries.dirs)
    modifies store`keyProven, store`serial, store.fs`disk, store.fs`dirs
    ensures Passing(store, entries, OnlyEntries) && old(store.fs.dirs) <= store.fs.dirs <= old(store.fs.dirs) + {[DIR]}
    ensures Turn(store.ThisWorld(), kind, old(store.fs.Files()), store.fs.Files(), entry, outcome)
    ensures entries.Unread() == old(entries.Unread())
    ensures store.layout.Shard(entry.digest) == Some(Parent(entry.path)) ==> entries.Remaining() == old(entries.Remaining())
    ensures store.fs.reliable && entry.path in old(store.fs.Files()) && store.layout.Shard(entry.digest).Some?
            && kind.Plan(entry.form) == Converted ==>
              SameOutcome(outcome, ConvertComes(store.ThisWorld(), old(store.fs.dirs), old(store.fs.Files()), entry.path, entry.form,
                                            entry.digest, kind.Target()))
    ensures Gains(store.ThisWorld(), kind, old(store.keyProven), store.keyProven, old(store.fs.Files()), store.fs.Files())
  {
    hide Turn, ConvertComes, Gains;
    ghost var files, dirs := store.fs.Files(), store.fs.dirs;
    EntryNamed(store.ThisWorld(), entry, entries.dirs);
    outcome := ConvertOne(store, kind, entry);
    UnreadSame(dirs, store.fs.dirs, entries.dirs);
    if store.layout.Shard(entry.digest) == Some(Parent(entry.path)) {
      ConvertedAside(store.ThisWorld(), kind, files, store.fs.Files(), store.fs.dirs, entries.dirs, entry, outcome);
    }
  }

  method ConvertOne(store: Store, kind: PassKind, entry: Entry) returns (outcome: Result<Step, Error>)
    requires store.Valid() && Lawful(store.codec) && FileOf(store.layout, entry.path) == Some((entry.digest, entry.form))
    modifies store`keyProven, store`serial, store.fs`disk, store.fs`dirs
    ensures store.Valid() && old(store.fs.dirs) <= store.fs.dirs <= old(store.fs.dirs) + {[DIR]}
    ensures Turn(store.ThisWorld(), kind, old(store.fs.Files()), store.fs.Files(), entry, outcome)
    ensures store.fs.reliable && entry.path in old(store.fs.Files()) && store.layout.Shard(entry.digest).Some?
            && kind.Plan(entry.form) == Converted ==>
              SameOutcome(outcome, ConvertComes(store.ThisWorld(), old(store.fs.dirs), old(store.fs.Files()), entry.path, entry.form,
                                            entry.digest, kind.Target()))
    ensures Gains(store.ThisWorld(), kind, old(store.keyProven), store.keyProven, old(store.fs.Files()), store.fs.Files())
  {
    hide Moved, Kept, ConvertComes, Opens, Store.ConvertRuns;
    PlanIsTarget(kind, entry.form);
    ghost var files, known := store.fs.Files(), store.keyProven;
    match kind.Plan(entry.form)
    case Converted =>
      var converted, _ := store.Convert(entry, kind.Target());
      ConvertGains(store, kind, files, store.fs.Files(), entry, converted, known, store.keyProven);
      outcome := if converted.Ok? then Ok(Converted) else Err(converted.error);
    case settled =>
      outcome := Ok(settled);
  }

  lemma ConvertGains(store: Store, kind: PassKind, files: Image, files': Image, entry: Entry, r: Result<(), Error>, was: bool, now: bool)
    requires store.Valid() && FileOf(store.layout, entry.path) == Some((entry.digest, entry.form)) && entry.form != kind.Target()
    requires if store.layout.Shard(entry.digest).None? then files' == files && now == was
             else
               var to := Place(store.layout, entry.digest, kind.Target());
               && (r.Ok? ==> Moved(store.ThisWorld(), files, files', entry, to))
               && (r.Err? ==> Kept(store.ThisWorld(), files, files', entry, to))
               && (was ==> now) && (now ==> was || store.ProvesIn(files, to))
    ensures Gains(store.ThisWorld(), kind, was, now, files, files')
  {
    hide Proves, GoodAt, Meaning;
    if store.layout.Shard(entry.digest).Some? {
      var w, to := store.ThisWorld(), Place(store.layout, entry.digest, kind.Target());
      PlaceNames(store.layout, entry.digest, kind.Target());
      OpensStays(w, kind, files, files', entry.path, to);
      assert S.FormAt(store.layout, to) == kind.Target();
      assert store.ProvesIn(files, to) ==> OpensAt(w, kind, files, to);
      if p :| OpensAt(w, kind, files, p) {
        assert OpensAt(w, kind, files', p);
      }
    }
  }

  /** A conversion in the directory an entry came out of changes nothing under the pile. */
  lemma ConvertedAside(w: World, kind: PassKind, files: Image, files': Image, known: set<Path>, dirs: seq<Path>,
                       entry: Entry, outcome: Result<Step, Error>)
    requires w.layout.Valid() && Turn(w, kind, files, files', entry, outcome) && EntryOk(OnlyEntries, w.layout, entry, dirs)
    requires w.layout.Shard(entry.digest) == Some(Parent(entry.path)) && TreeOk(known, files')
    requires forall i | 0 <= i < |dirs| :: dirs[i] in known
    ensures Below(OnlyEntries, w.layout, files', dirs) == Below(OnlyEntries, w.layout, files, dirs)
  {
    if kind.Plan(entry.form) == Converted {
      var to := Place(w.layout, entry.digest, kind.Target());
      assert Parent(to) == Parent(entry.path);
      if to in files' {
        SiblingNotCovered(dirs, known, entry.path, to);
      }
      BelowSame(OnlyEntries, w.layout, files, files', dirs, {entry.path, to});
    }
  }
}
