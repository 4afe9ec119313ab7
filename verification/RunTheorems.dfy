/**
What holds over whole runs: no state shows a bad entry that was not bad before, an
`add` that answered left its content behind, and no digest loses its last good file
except in the one way that is spelled out.
*/
module RunTheorems {
  import opened Wrappers
  import opened Digests
  import opened Layouts
  import opened Disks
  import opened Runs
  import opened RunProofs

  // -- the invariant ----------------------------------------------------------

  lemma OtherWriter(cfg: Config, suspect: set<Digest>, d: Disk, d': Disk, w: Writer)
    requires WriterOk(cfg, suspect, d, w)
    requires TempOfWriter(w).Some? ==>
               TempOfWriter(w).value in Live(d') && Live(d')[TempOfWriter(w).value] == Live(d)[TempOfWriter(w).value]
    requires DigestOf(cfg, w) !in suspect && HasGood(cfg, OwnPlaces, Live(d), DigestOf(cfg, w)) ==>
               HasGood(cfg, OwnPlaces, Live(d'), DigestOf(cfg, w))
    ensures WriterOk(cfg, suspect, d', w)
  {
  }

  lemma OtherConv(cfg: Config, suspect: set<Digest>, d: Disk, d': Disk, own: Option<Path>, c: Conv)
    requires Sound(cfg) && ConvOk(cfg, suspect, d, c) && Gentle(cfg, d, d', own)
    requires forall i | 0 <= i < |d| :: ImageOk(cfg, suspect, d[i])
    requires TempOfConv(c).Some? ==> own != TempOfConv(c)
    ensures ConvOk(cfg, suspect, d', c)
  {
    GentleKeeps(cfg, suspect, d, d', own);
    if JobOf(c).Some? {
      GentleDest(cfg, d, d', own, JobOf(c).value);
    }
  }

  lemma GentleDest(cfg: Config, d: Disk, d': Disk, own: Option<Path>, job: Job)
    requires Sound(cfg) && Gentle(cfg, d, d', own) && cfg.fits(job.digest)
    ensures DestOk(cfg, d, job) ==> DestOk(cfg, d', job)
    ensures DestOfJob(cfg, job) in Live(d) ==> DestOfJob(cfg, job) in Live(d')
  {
    assert cfg.named(DestOfJob(cfg, job)) == Some((job.digest, job.target));
  }

  lemma WriteKeeps(cfg: Config, suspect: set<Digest>, s: State, id: nat, op: Op)
    requires Sound(cfg) && Inv(cfg, suspect, s) && Next(cfg, s, Write(id, op)).Some?
    ensures Inv(cfg, suspect, Next(cfg, s, Write(id, op)).value)
  {
    var w := s.writers[id];
    var (d', w') := WriterNext(cfg, s.disk, w, op).value;
    var own := TempOfWriter(w);
    WriterStep(cfg, suspect, s.disk, w, op);
    GentleKeeps(cfg, suspect, s.disk, d', own);
    OtherConv(cfg, suspect, s.disk, d', own, s.conv);
    forall j | j in s.writers && j != id
      ensures WriterOk(cfg, suspect, d', s.writers[j])
    {
      OtherWriter(cfg, suspect, s.disk, d', s.writers[j]);
    }
    TempsStayApart(cfg, suspect, s, id, w');
  }

  lemma TempsStayApart(cfg: Config, suspect: set<Digest>, s: State, id: nat, w': Writer)
    requires Inv(cfg, suspect, s) && id in s.writers
    requires TempOfWriter(w').Some? ==>
               TempOfWriter(w') == TempOfWriter(s.writers[id]) || TempOfWriter(w').value !in Live(s.disk)
    ensures TempsApart(s.(writers := s.writers[id := w']))
  {
  }

  lemma ConvertKeeps(cfg: Config, suspect: set<Digest>, s: State, op: Op)
    requires Sound(cfg) && Inv(cfg, suspect, s) && Next(cfg, s, Convert(op)).Some?
    ensures Inv(cfg, suspect, Next(cfg, s, Convert(op)).value)
  {
    var (d', c') := ConvNext(cfg, s.disk, s.conv, op).value;
    ConvStep(cfg, suspect, s.disk, s.conv, op);
    forall j | j in s.writers
      ensures WriterOk(cfg, suspect, d', s.writers[j])
      ensures TempOfWriter(s.writers[j]).Some? ==> TempOfWriter(s.writers[j]) != TempOfConv(c')
    {
      OtherWriter(cfg, suspect, s.disk, d', s.writers[j]);
    }
  }

  lemma CrashKeeps(cfg: Config, suspect: set<Digest>, s: State, at: nat, found: Image)
    requires Inv(cfg, suspect, s) && at < |s.disk| && Survives(s.disk[at], found)
    ensures Inv(cfg, suspect, State([found], map[], Idle))
  {
    assert ImageOk(cfg, suspect, s.disk[at]);
    forall p | p in found && cfg.named(p).Some?
      ensures found[p].flushed && (cfg.named(p).value.0 !in suspect ==> IsGood(cfg, found, p, cfg.named(p).value.0))
    {
      assert cfg.named(p).value.0 !in suspect ==> IsGood(cfg, s.disk[at], p, cfg.named(p).value.0);
    }
  }

  lemma StepKeeps(cfg: Config, suspect: set<Digest>, s: State, a: Act)
    requires Sound(cfg) && Inv(cfg, suspect, s) && Next(cfg, s, a).Some?
    ensures Inv(cfg, suspect, Next(cfg, s, a).value)
  {
    match a
    case Call(_, _) =>
    case Write(id, op) => WriteKeeps(cfg, suspect, s, id, op);
    case Convert(op) => ConvertKeeps(cfg, suspect, s, op);
    case Crash(at, found) => CrashKeeps(cfg, suspect, s, at, found);
  }

  lemma {:induction false} RunKeeps(cfg: Config, suspect: set<Digest>, s: State, acts: seq<Act>)
    requires Sound(cfg) && Inv(cfg, suspect, s) && Run(cfg, s, acts).Some?
    ensures Inv(cfg, suspect, Run(cfg, s, acts).value)
    decreases |acts|
  {
    if acts != [] {
      StepKeeps(cfg, suspect, s, acts[0]);
      RunKeeps(cfg, suspect, Next(cfg, s, acts[0]).value, acts[1..]);
    }
  }

  /** A store at rest: everything on disk, and every bad entry accounted for. */
  ghost predicate AtRest(cfg: Config, suspect: set<Digest>, s: State) {
    |s.disk| == 1 && s.writers == map[] && s.conv == Idle && ImageOk(cfg, suspect, s.disk[0])
  }

  /**
  Crash safety. Whatever any number of writers and a conversion did from a store at
  rest, wherever it was cut off, and whichever directory state a crash would fall back
  to: every file under an entry's name was flushed and is content hashing to that
  name, unless its digest already had a bad file.
  */
  lemma {:induction false} EveryEntryGood(cfg: Config, suspect: set<Digest>, s: State, acts: seq<Act>, at: nat, p: Path)
    requires Sound(cfg) && AtRest(cfg, suspect, s) && Run(cfg, s, acts).Some?
    requires at < |Run(cfg, s, acts).value.disk| && p in Run(cfg, s, acts).value.disk[at] && cfg.named(p).Some?
    ensures var file := Run(cfg, s, acts).value.disk[at][p];
            var (digest, form) := cfg.named(p).value;
            file.flushed && (digest !in suspect ==> cfg.good(form, file.bytes, digest))
  {
    RunKeeps(cfg, suspect, s, acts);
    assert ImageOk(cfg, suspect, Run(cfg, s, acts).value.disk[at]);
  }

  // -- conservation -----------------------------------------------------------

  /** A good file that this conversion neither reads from nor writes to. */
  ghost predicate Spare(cfg: Config, among: Where, image: Image, job: Job) {
    exists p :: p != job.src && p != DestOfJob(cfg, job) && Counts(cfg, among, p, job.digest) && IsGood(cfg, image, p, job.digest)
  }

  /** The conversion under way, if it is of this digest, cannot cost its last good file. */
  ghost predicate ConvSafe(cfg: Config, among: Where, image: Image, c: Conv, digest: Digest) {
    match c
    case Opening(job) => job.digest == digest ==> IsGood(cfg, image, job.src, digest) || Spare(cfg, among, image, job)
    case Writing(job, put) =>
      job.digest == digest ==> RightData(cfg, job, put) || Spare(cfg, among, image, job) || put.stage.Losing?
    case Unlinking(job) => job.digest == digest ==> Elsewhere(cfg, among, image, job.src, digest)
    case _ => true
  }

  /** Whatever a crash falls back to holds a good file of the digest. */
  ghost predicate Kept(cfg: Config, among: Where, d: Disk, digest: Digest) {
    forall i | 0 <= i < |d| :: HasGood(cfg, among, d[i], digest)
  }

  ghost predicate SafeFor(cfg: Config, among: Where, s: State, digest: Digest) {
    Kept(cfg, among, s.disk, digest) && ConvSafe(cfg, among, Live(s.disk), s.conv, digest)
  }

  lemma WriteIsSafe(cfg: Config, among: Where, suspect: set<Digest>, s: State, id: nat, op: Op, digest: Digest)
    requires Sound(cfg) && Inv(cfg, suspect, s) && Next(cfg, s, Write(id, op)).Some? && SafeFor(cfg, among, s, digest)
    ensures SafeFor(cfg, among, Next(cfg, s, Write(id, op)).value, digest)
  {
    var (d', w') := WriterNext(cfg, s.disk, s.writers[id], op).value;
    WriterStep(cfg, suspect, s.disk, s.writers[id], op);
    GentleKeeps(cfg, suspect, s.disk, d', TempOfWriter(s.writers[id]));
    KeptStep(cfg, among, s.disk, d', digest);
    if JobOf(s.conv).Some? && JobOf(s.conv).value.digest == digest {
      var job := JobOf(s.conv).value;
      assert Spare(cfg, among, Live(s.disk), job) ==> Spare(cfg, among, Live(d'), job);
      assert Elsewhere(cfg, among, Live(s.disk), job.src, digest) ==> Elsewhere(cfg, among, Live(d'), job.src, digest);
    }
  }

  lemma KeptStep(cfg: Config, among: Where, d: Disk, d': Disk, digest: Digest)
    requires Kept(cfg, among, d, digest) && HasGood(cfg, among, Live(d'), digest)
    requires forall i | 0 <= i < |d'| :: d'[i] in d || d'[i] == Live(d')
    ensures Kept(cfg, among, d', digest)
  {
  }

  lemma ConvertIsSafe(cfg: Config, among: Where, suspect: set<Digest>, s: State, op: Op, digest: Digest)
    requires Sound(cfg) && Inv(cfg, suspect, s) && Next(cfg, s, Convert(op)).Some? && SafeFor(cfg, among, s, digest)
    ensures SafeFor(cfg, among, Next(cfg, s, Convert(op)).value, digest)
  {
    assert HasGood(cfg, among, s.disk[|s.disk| - 1], digest);
    match s.conv
    case Idle =>
    case Considering(job) => ConsideringIsSafe(cfg, among, s.disk, job, op, digest);
    case Opening(job) => OpeningIsSafe(cfg, among, suspect, s.disk, job, op, digest);
    case Writing(job, put) => WritingIsSafe(cfg, among, suspect, s.disk, job, put, op, digest);
    case Unlinking(job) => UnlinkingIsSafe(cfg, among, s.disk, job, op.gone, digest);
  }

  lemma ConsideringIsSafe(cfg: Config, among: Where, d: Disk, job: Job, op: Op, digest: Digest)
    requires Sound(cfg) && cfg.named(job.src) == Some((job.digest, job.from)) && job.from != job.target && cfg.fits(job.digest)
    requires WhileConsidering(cfg, d, job, op).Some? && HasGood(cfg, among, Live(d), digest)
    requires forall p | p in Live(d) && cfg.named(p).Some? :: Live(d)[p].flushed
    ensures ConvSafe(cfg, among, Live(d), WhileConsidering(cfg, d, job, op).value.1, digest)
  {
    var p :| Counts(cfg, among, p, digest) && IsGood(cfg, Live(d), p, digest);
    var dest := DestOfJob(cfg, job);
    assert cfg.named(dest) == Some((job.digest, job.target));
    if job.digest == digest && op.Look? && dest in Live(d) && cfg.good(job.target, Live(d)[dest].bytes, digest) {
      assert IsGood(cfg, Live(d), dest, digest);
    }
  }

  lemma OpeningIsSafe(cfg: Config, among: Where, suspect: set<Digest>, d: Disk, job: Job, op: Op, digest: Digest)
    requires Sound(cfg) && ConvOk(cfg, suspect, d, Opening(job)) && WhileOpening(cfg, d, job, op).Some?
    requires forall i | 0 <= i < |d| :: ImageOk(cfg, suspect, d[i])
    requires Kept(cfg, among, d, digest) && ConvSafe(cfg, among, Live(d), Opening(job), digest)
    ensures var (d', c') := WhileOpening(cfg, d, job, op).value;
            Kept(cfg, among, d', digest) && ConvSafe(cfg, among, Live(d'), c', digest)
  {
    if op.Read? {
      var d' := CreateFile(d, op.temp);
      assert Gentle(cfg, d, d', None);
      GentleKeeps(cfg, suspect, d, d', None);
      assert HasGood(cfg, among, d[|d| - 1], digest);
      KeptStep(cfg, among, d, d', digest);
      assert Spare(cfg, among, Live(d), job) ==> Spare(cfg, among, Live(d'), job);
    }
  }

  lemma WritingIsSafe(cfg: Config, among: Where, suspect: set<Digest>, d: Disk, job: Job, put: Put, op: Op, digest: Digest)
    requires Sound(cfg) && ConvOk(cfg, suspect, d, Writing(job, put)) && WhileWriting(d, job, put, op).Some?
    requires Kept(cfg, among, d, digest) && ConvSafe(cfg, among, Live(d), Writing(job, put), digest)
    ensures var (d', c') := WhileWriting(d, job, put, op).value;
            Kept(cfg, among, d', digest) && ConvSafe(cfg, among, Live(d'), c', digest)
  {
    var (d', put') := PutNext(d, put, op).value;
    PutStep(cfg, d, put, op);
    assert HasGood(cfg, among, d[|d| - 1], digest);
    WritingKeepsLive(cfg, among, suspect, d, job, put, op, digest);
    KeptStep(cfg, among, d, d', digest);
    WritingStaysSafe(cfg, among, suspect, d, job, put, op, digest);
  }

  lemma WritingKeepsLive(cfg: Config, among: Where, suspect: set<Digest>, d: Disk, job: Job, put: Put, op: Op, digest: Digest)
    requires Sound(cfg) && ConvOk(cfg, suspect, d, Writing(job, put)) && PutNext(d, put, op).Some?
    requires HasGood(cfg, among, Live(d), digest) && ConvSafe(cfg, among, Live(d), Writing(job, put), digest)
    ensures HasGood(cfg, among, Live(PutNext(d, put, op).value.0), digest)
  {
    var (d', put') := PutNext(d, put, op).value;
    PutStep(cfg, d, put, op);
    hide PutNext, PutOk, DestOk;
    assert job.digest == digest ==> Counts(cfg, among, put.dest, digest);
    var p :| Counts(cfg, among, p, digest) && IsGood(cfg, Live(d), p, digest) && (p == put.dest ==> job.digest == digest);
    if job.digest == digest && put.stage.Renaming? && op.Rename? {
      if RightData(cfg, job, put) {
        assert IsGood(cfg, Live(d'), put.dest, digest);
      } else {
        var q :| q != job.src && q != put.dest && Counts(cfg, among, q, digest) && IsGood(cfg, Live(d), q, digest);
        assert IsGood(cfg, Live(d'), q, digest);
      }
    } else {
      assert IsGood(cfg, Live(d'), p, digest);
    }
  }

  lemma WritingStaysSafe(cfg: Config, among: Where, suspect: set<Digest>, d: Disk, job: Job, put: Put, op: Op, digest: Digest)
    requires Sound(cfg) && ConvOk(cfg, suspect, d, Writing(job, put)) && PutNext(d, put, op).Some?
    requires ConvSafe(cfg, among, Live(d), Writing(job, put), digest)
    ensures var (d', put') := PutNext(d, put, op).value; ConvSafe(cfg, among, Live(d'), AfterWriting(job, put'), digest)
  {
    if job.digest == digest {
      var (d', put') := PutNext(d, put, op).value;
      PutStep(cfg, d, put, op);
      assert Counts(cfg, among, put.dest, digest);
      if put.stage.Losing? || (RightData(cfg, job, put) && put'.stage.Placed?) {
        assert IsGood(cfg, Live(d'), put.dest, digest);
      } else if !RightData(cfg, job, put) {
        var q :| q != job.src && q != put.dest && Counts(cfg, among, q, digest) && IsGood(cfg, Live(d), q, digest);
        assert IsGood(cfg, Live(d'), q, digest);
      }
    }
  }

  lemma UnlinkingIsSafe(cfg: Config, among: Where, d: Disk, job: Job, gone: bool, digest: Digest)
    requires cfg.named(job.src) == Some((job.digest, job.from))
    requires Kept(cfg, among, d, digest) && ConvSafe(cfg, among, Live(d), Unlinking(job), digest)
    ensures Kept(cfg, among, if gone then Unlink(d, job.src) else d, digest)
  {
    if gone {
      assert HasGood(cfg, among, d[|d| - 1], digest);
      var p :| Counts(cfg, among, p, digest) && IsGood(cfg, Live(d), p, digest) && p != job.src;
      assert IsGood(cfg, Live(d) - {job.src}, p, digest);
      KeptStep(cfg, among, d, Unlink(d, job.src), digest);
    }
  }

  lemma CrashIsSafe(cfg: Config, among: Where, s: State, at: nat, found: Image, digest: Digest)
    requires SafeFor(cfg, among, s, digest) && at < |s.disk| && Survives(s.disk[at], found)
    ensures SafeFor(cfg, among, State([found], map[], Idle), digest)
  {
    var p :| Counts(cfg, among, p, digest) && IsGood(cfg, s.disk[at], p, digest);
    assert IsGood(cfg, found, p, digest);
  }

  lemma StepIsSafe(cfg: Config, among: Where, suspect: set<Digest>, s: State, a: Act, digest: Digest)
    requires Sound(cfg) && Inv(cfg, suspect, s) && Next(cfg, s, a).Some? && SafeFor(cfg, among, s, digest)
    ensures SafeFor(cfg, among, Next(cfg, s, a).value, digest)
  {
    match a
    case Call(_, _) =>
    case Write(id, op) => WriteIsSafe(cfg, among, suspect, s, id, op, digest);
    case Convert(op) => ConvertIsSafe(cfg, among, suspect, s, op, digest);
    case Crash(at, found) => CrashIsSafe(cfg, among, s, at, found, digest);
  }

  lemma {:induction false} RunIsSafe(cfg: Config, among: Where, suspect: set<Digest>, s: State, acts: seq<Act>, digest: Digest)
    requires Sound(cfg) && Inv(cfg, suspect, s) && Run(cfg, s, acts).Some? && SafeFor(cfg, among, s, digest)
    ensures SafeFor(cfg, among, Run(cfg, s, acts).value, digest)
    decreases |acts|
  {
    if acts != [] {
      StepKeeps(cfg, suspect, s, acts[0]);
      StepIsSafe(cfg, among, suspect, s, acts[0], digest);
      RunIsSafe(cfg, among, suspect, Next(cfg, s, acts[0]).value, acts[1..], digest);
    }
  }

  /**
  Conservation. Over any passes, each cut off anywhere and run again, beside any
  writers: a digest that had a good file at rest has one in every state after it and
  in everything a crash could fall back to, whatever else of it lies there damaged. So
  it is anywhere the walk goes, and so it is where a lookup goes.
  */
  lemma {:induction false} GoodStaysGood(cfg: Config, among: Where, suspect: set<Digest>, s: State, acts: seq<Act>, digest: Digest)
    requires Sound(cfg) && AtRest(cfg, suspect, s) && Run(cfg, s, acts).Some?
    requires HasGood(cfg, among, s.disk[0], digest)
    ensures Kept(cfg, among, Run(cfg, s, acts).value.disk, digest)
  {
    RunIsSafe(cfg, among, suspect, s, acts, digest);
  }

  /** For a digest that was never suspect, being kept at all is being safe. */
  lemma KeptIsSafe(cfg: Config, among: Where, suspect: set<Digest>, s: State, digest: Digest)
    requires Sound(cfg) && Inv(cfg, suspect, s) && digest !in suspect && Kept(cfg, among, s.disk, digest)
    ensures SafeFor(cfg, among, s, digest)
  {
    assert ImageOk(cfg, suspect, s.disk[|s.disk| - 1]);
    match s.conv
    case Opening(job) =>
      if job.digest == digest {
        assert IsGood(cfg, Live(s.disk), job.src, digest);
        var p :| Counts(cfg, among, p, digest) && IsGood(cfg, s.disk[|s.disk| - 1], p, digest);
      }
    case Unlinking(job) =>
      if job.digest == digest {
        assert cfg.named(DestOfJob(cfg, job)) == Some((digest, job.target));
        assert Counts(cfg, among, DestOfJob(cfg, job), digest);
      }
    case _ =>
  }

  lemma RestHolds(cfg: Config, suspect: set<Digest>, s: State)
    requires AtRest(cfg, suspect, s)
    ensures Inv(cfg, suspect, s)
    ensures forall among, digest | HasGood(cfg, among, s.disk[0], digest) :: SafeFor(cfg, among, s, digest)
  {
  }

  /** Good from the start, or never bad at the start: what a caller can look at before a run. */
  ghost predicate Unharmed(cfg: Config, among: Where, suspect: set<Digest>, s: State, digest: Digest)
    requires |s.disk| == 1
  {
    digest !in suspect || HasGood(cfg, among, s.disk[0], digest)
  }

  /**
  Once kept, always kept. For a digest that had no bad file at the start, or a good one
  beside it: from the moment everything a crash could fall back to holds a good file of
  it, so it stays through every further step of anybody's.
  */
  lemma {:induction false} OnceKept(cfg: Config, among: Where, suspect: set<Digest>, s: State, acts: seq<Act>, more: seq<Act>, digest: Digest)
    requires Sound(cfg) && AtRest(cfg, suspect, s) && Unharmed(cfg, among, suspect, s, digest)
    requires Run(cfg, s, acts).Some? && Kept(cfg, among, Run(cfg, s, acts).value.disk, digest)
    requires Run(cfg, Run(cfg, s, acts).value, more).Some?
    ensures Kept(cfg, among, Run(cfg, Run(cfg, s, acts).value, more).value.disk, digest)
  {
    hide Inv, Next, ConvSafe, AtRest, HasGood;
    var mid := Run(cfg, s, acts).value;
    RestHolds(cfg, suspect, s);
    RunKeeps(cfg, suspect, s, acts);
    if digest !in suspect {
      KeptIsSafe(cfg, among, suspect, mid, digest);
    } else {
      RunIsSafe(cfg, among, suspect, s, acts, digest);
    }
    RunIsSafe(cfg, among, suspect, mid, more, digest);
  }

  // -- answers ----------------------------------------------------------------

  /**
  An `add` or `add_reader` that answered, New or Exists, is answered for by a good file
  where a lookup finds it, for every digest that had no bad file at the start or had a
  good one there beside it.
  */
  lemma {:induction false} AnswerIsTrue(cfg: Config, among: Where, suspect: set<Digest>, s: State, acts: seq<Act>, id: nat)
    requires Sound(cfg) && AtRest(cfg, suspect, s) && Run(cfg, s, acts).Some?
    requires var s' := Run(cfg, s, acts).value;
             && id in s'.writers && s'.writers[id].stage.Done?
             && Unharmed(cfg, among, suspect, s, DigestOf(cfg, s'.writers[id]))
    ensures var s' := Run(cfg, s, acts).value;
            HasGood(cfg, among, Live(s'.disk), DigestOf(cfg, s'.writers[id]))
  {
    var s' := Run(cfg, s, acts).value;
    var digest := DigestOf(cfg, s'.writers[id]);
    if digest !in suspect {
      RunKeeps(cfg, suspect, s, acts);
      var p :| Counts(cfg, OwnPlaces, p, digest) && IsGood(cfg, Live(s'.disk), p, digest);
      assert Counts(cfg, among, p, digest);
    } else {
      GoodStaysGood(cfg, among, suspect, s, acts, digest);
      assert HasGood(cfg, among, s'.disk[|s'.disk| - 1], digest);
    }
  }

  /** A directory flush that took effect leaves one state, and the content is in it. */
  lemma {:induction false} FlushIsSafe(cfg: Config, suspect: set<Digest>, s: State, id: nat)
    requires Sound(cfg) && Inv(cfg, suspect, s) && Next(cfg, s, Write(id, Sync(true))).Some?
    requires DigestOf(cfg, s.writers[id]) !in suspect || SafeFor(cfg, OwnPlaces, s, DigestOf(cfg, s.writers[id]))
    ensures SafeFor(cfg, OwnPlaces, Next(cfg, s, Write(id, Sync(true))).value, DigestOf(cfg, s.writers[id]))
  {
    var done, digest := Next(cfg, s, Write(id, Sync(true))).value, DigestOf(cfg, s.writers[id]);
    if digest !in suspect {
      FlushLeavesOne(cfg, s.disk, s.writers[id]);
      assert WriterOk(cfg, suspect, s.disk, s.writers[id]);
      WriteKeeps(cfg, suspect, s, id, Sync(true));
      KeptIsSafe(cfg, OwnPlaces, suspect, done, digest);
    } else {
      StepIsSafe(cfg, OwnPlaces, suspect, s, Write(id, Sync(true)), digest);
    }
  }

  lemma FlushLeavesOne(cfg: Config, d: Disk, w: Writer)
    requires WriterNext(cfg, d, w, Sync(true)).Some?
    ensures Answered(w) && WriterNext(cfg, d, w, Sync(true)).value.0 == [Live(d)]
  {
  }

  /**
  Durability. Once the directory flush behind an `add` took effect, the content is
  there, where a lookup finds it, in every state of every further run and after any
  crash in it.
  */
  lemma {:induction false} FlushedAnswerLasts(cfg: Config, suspect: set<Digest>, s: State, acts: seq<Act>, id: nat,
                                              more: seq<Act>)
    requires Sound(cfg) && AtRest(cfg, suspect, s) && Run(cfg, s, acts).Some?
    requires var s' := Run(cfg, s, acts).value;
             && id in s'.writers && Unharmed(cfg, OwnPlaces, suspect, s, DigestOf(cfg, s'.writers[id]))
             && Next(cfg, s', Write(id, Sync(true))).Some?
             && Run(cfg, Next(cfg, s', Write(id, Sync(true))).value, more).Some?
    ensures var s' := Run(cfg, s, acts).value;
            var done := Next(cfg, s', Write(id, Sync(true))).value;
            Kept(cfg, OwnPlaces, Run(cfg, done, more).value.disk, DigestOf(cfg, s'.writers[id]))
  {
    var s' := Run(cfg, s, acts).value;
    hide Inv, Next, ConvSafe, AtRest, HasGood;
    var digest := DigestOf(cfg, s'.writers[id]);
    RestHolds(cfg, suspect, s);
    RunKeeps(cfg, suspect, s, acts);
    if digest in suspect {
      RunIsSafe(cfg, OwnPlaces, suspect, s, acts, digest);
    }
    FlushIsSafe(cfg, suspect, s', id);
    StepKeeps(cfg, suspect, s', Write(id, Sync(true)));
    RunIsSafe(cfg, OwnPlaces, suspect, Next(cfg, s', Write(id, Sync(true))).value, more, digest);
  }

  // -- the one way to lose ----------------------------------------------------

  /**
  The steps that lose a digest's last good file: a conversion renames a file that is
  not good over the only good one, or unlinks the only good one as its source.
  */
  ghost predicate Loses(cfg: Config, among: Where, s: State, a: Act, digest: Digest) {
    && a.Convert?
    && match s.conv
       case Writing(job, put) =>
         && job.digest == digest && put.stage.Renaming? && a.op.Rename? && !RightData(cfg, job, put)
         && !(exists p :: p != put.dest && Counts(cfg, among, p, digest) && IsGood(cfg, Live(s.disk), p, digest))
       case Unlinking(job) => job.digest == digest && a.op == Drop(true) && !Elsewhere(cfg, among, Live(s.disk), job.src, digest)
       case _ => false
  }

  /**
  Exactly those steps, of anybody's in any reachable state: a digest that has a good
  file on the live disk has one after the step unless the step is one of these.
  */
  lemma {:induction false} LosesLive(cfg: Config, among: Where, suspect: set<Digest>, s: State, a: Act, digest: Digest)
    requires Sound(cfg) && Inv(cfg, suspect, s) && Next(cfg, s, a).Some? && !a.Crash?
    requires HasGood(cfg, among, Live(s.disk), digest)
    ensures HasGood(cfg, among, Live(Next(cfg, s, a).value.disk), digest) <==> !Loses(cfg, among, s, a, digest)
  {
    match a
    case Call(_, _) =>
    case Write(id, op) =>
      var d' := WriterNext(cfg, s.disk, s.writers[id], op).value.0;
      WriterStep(cfg, suspect, s.disk, s.writers[id], op);
      GentleKeeps(cfg, suspect, s.disk, d', TempOfWriter(s.writers[id]));
    case Convert(op) =>
      match s.conv
      case Idle =>
      case Considering(_) =>
      case Opening(job) => OpeningKeepsGood(cfg, among, suspect, s.disk, job, op, digest);
      case Writing(job, put) => WritingLoses(cfg, among, suspect, s, job, put, op, digest);
      case Unlinking(job) => UnlinkingLoses(cfg, among, s, job, op.gone, digest);
  }

  lemma OpeningKeepsGood(cfg: Config, among: Where, suspect: set<Digest>, d: Disk, job: Job, op: Op, digest: Digest)
    requires Sound(cfg) && WhileOpening(cfg, d, job, op).Some? && HasGood(cfg, among, Live(d), digest)
    requires forall i | 0 <= i < |d| :: ImageOk(cfg, suspect, d[i])
    ensures HasGood(cfg, among, Live(WhileOpening(cfg, d, job, op).value.0), digest)
  {
    if op.Read? {
      assert Gentle(cfg, d, CreateFile(d, op.temp), None);
      GentleKeeps(cfg, suspect, d, CreateFile(d, op.temp), None);
    }
  }

  lemma WritingLoses(cfg: Config, among: Where, suspect: set<Digest>, s: State, job: Job, put: Put, op: Op, digest: Digest)
    requires Sound(cfg) && ConvOk(cfg, suspect, s.disk, s.conv) && s.conv == Writing(job, put)
    requires PutNext(s.disk, put, op).Some? && HasGood(cfg, among, Live(s.disk), digest)
    ensures HasGood(cfg, among, Live(PutNext(s.disk, put, op).value.0), digest) <==> !Loses(cfg, among, s, Convert(op), digest)
  {
    var d := s.disk;
    var d' := PutNext(d, put, op).value.0;
    PutStep(cfg, d, put, op);
    if Loses(cfg, among, s, Convert(op), digest) {
      assert forall p :: IsGood(cfg, Live(d'), p, digest) ==> p == put.dest || IsGood(cfg, Live(d), p, digest);
    } else if put.stage.Renaming? && op.Rename? && job.digest == digest && RightData(cfg, job, put) {
      assert Counts(cfg, among, put.dest, digest) && IsGood(cfg, Live(d'), put.dest, digest);
    } else {
      var p :| Counts(cfg, among, p, digest) && IsGood(cfg, Live(d), p, digest) && (put.stage.Renaming? && op.Rename? ==> p != put.dest);
      assert IsGood(cfg, Live(d'), p, digest);
    }
  }

  lemma UnlinkingLoses(cfg: Config, among: Where, s: State, job: Job, gone: bool, digest: Digest)
    requires s.conv == Unlinking(job) && cfg.named(job.src) == Some((job.digest, job.from))
    requires HasGood(cfg, among, Live(s.disk), digest)
    ensures HasGood(cfg, among, Live(if gone then Unlink(s.disk, job.src) else s.disk), digest)
            <==> !Loses(cfg, among, s, Convert(Drop(gone)), digest)
  {
    if gone {
      var d' := Unlink(s.disk, job.src);
      if Loses(cfg, among, s, Convert(Drop(gone)), digest) {
        assert forall p :: IsGood(cfg, Live(d'), p, digest) ==> p != job.src && IsGood(cfg, Live(s.disk), p, digest);
      } else {
        var p :| Counts(cfg, among, p, digest) && IsGood(cfg, Live(s.disk), p, digest) && p != job.src;
        assert IsGood(cfg, Live(d'), p, digest);
      }
    }
  }

  /** No step but a crash brings back a directory state that is not behind or before it. */
  lemma StepExtends(cfg: Config, suspect: set<Digest>, s: State, a: Act)
    requires Sound(cfg) && Inv(cfg, suspect, s) && Next(cfg, s, a).Some? && !a.Crash?
    ensures var d' := Next(cfg, s, a).value.disk;
            forall i | 0 <= i < |d'| :: d'[i] in s.disk || d'[i] == Live(d')
  {
    match a
    case Call(_, _) =>
    case Write(id, op) => WriterStep(cfg, suspect, s.disk, s.writers[id], op);
    case Convert(op) => if s.conv.Writing? { PutStep(cfg, s.disk, s.conv.put, op); }
  }

  /**
  The same for everything a crash could fall back to: what is kept stays kept, unless
  the step is one of these. A crash itself loses nothing that is kept.
  */
  lemma {:induction false} LosesExactly(cfg: Config, among: Where, suspect: set<Digest>, s: State, a: Act, digest: Digest)
    requires Sound(cfg) && Inv(cfg, suspect, s) && Next(cfg, s, a).Some? && Kept(cfg, among, s.disk, digest)
    ensures Kept(cfg, among, Next(cfg, s, a).value.disk, digest) <==> !Loses(cfg, among, s, a, digest)
  {
    match a
    case Crash(back, found) =>
      var p :| Counts(cfg, among, p, digest) && IsGood(cfg, s.disk[back], p, digest);
      assert IsGood(cfg, found, p, digest);
    case _ =>
      var d' := Next(cfg, s, a).value.disk;
      assert HasGood(cfg, among, s.disk[|s.disk| - 1], digest);
      LosesLive(cfg, among, suspect, s, a, digest);
      StepExtends(cfg, suspect, s, a);
      assert HasGood(cfg, among, Live(d'), digest) == HasGood(cfg, among, d'[|d'| - 1], digest);
      if HasGood(cfg, among, Live(d'), digest) {
        KeptStep(cfg, among, s.disk, d', digest);
      }
  }
}
