/** What every step of every run keeps. */
module RunProofs {
  import opened Wrappers
  import opened Digests
  import opened Layouts
  import opened Disks
  import opened Runs

  /** What a writer may do to a disk: its own temporary file aside, entries only ever become good. */
  ghost predicate Gentle(cfg: Config, d: Disk, d': Disk, own: Option<Path>) {
    && (forall i | 0 <= i < |d'| :: d'[i] in d || d'[i] == Live(d'))
    && (forall p | p in Live(d) && cfg.temp(p) && own != Some(p) :: p in Live(d') && Live(d')[p] == Live(d)[p])
    && (forall p | p in Live(d) && cfg.named(p).Some? :: p in Live(d'))
    && (forall p | p in Live(d') && cfg.named(p).Some? ::
          || (p in Live(d) && Live(d')[p] == Live(d)[p])
          || IsGood(cfg, Live(d'), p, cfg.named(p).value.0))
  }

  /** One operation on a temporary file, and the one file it may touch besides. */
  lemma PutStep(cfg: Config, d: Disk, put: Put, op: Op)
    requires Sound(cfg) && PutOk(cfg, d, put) && cfg.named(put.dest).Some? && PutNext(d, put, op).Some?
    ensures var (d', put') := PutNext(d, put, op).value;
            && PutOk(cfg, d', put') && put' == put.(stage := put'.stage)
            && (Holds(put') ==> Holds(put))
            && (forall i | 0 <= i < |d'| :: d'[i] in d || d'[i] == Live(d'))
            && (forall p | p != put.temp && p != put.dest :: p in Live(d) <==> p in Live(d'))
            && (forall p | p != put.temp && p != put.dest && p in Live(d) :: Live(d')[p] == Live(d)[p])
            && (if put.stage.Renaming? && op.Rename?
                then put'.stage.Syncing? && put.dest in Live(d') && Live(d')[put.dest] == Blob(put.data, true)
                else (put.dest in Live(d) <==> put.dest in Live(d'))
                     && (put.dest in Live(d) ==> Live(d')[put.dest] == Live(d)[put.dest])
                     && (put'.stage.Syncing? ==> put.stage.Syncing?))
  {
  }

  lemma GentleKeeps(cfg: Config, suspect: set<Digest>, d: Disk, d': Disk, own: Option<Path>)
    requires Gentle(cfg, d, d', own) && forall i | 0 <= i < |d| :: ImageOk(cfg, suspect, d[i])
    ensures forall i | 0 <= i < |d'| :: ImageOk(cfg, suspect, d'[i])
    ensures forall p, digest | IsGood(cfg, Live(d), p, digest) :: IsGood(cfg, Live(d'), p, digest)
    ensures forall among, digest | HasGood(cfg, among, Live(d), digest) :: HasGood(cfg, among, Live(d'), digest)
  {
    assert ImageOk(cfg, suspect, d[|d| - 1]);
    assert ImageOk(cfg, suspect, Live(d'));
    forall p, digest | IsGood(cfg, Live(d), p, digest)
      ensures IsGood(cfg, Live(d'), p, digest)
    {
    }
    forall among, digest | HasGood(cfg, among, Live(d), digest)
      ensures HasGood(cfg, among, Live(d'), digest)
    {
      var p :| Counts(cfg, among, p, digest) && IsGood(cfg, Live(d), p, digest);
      assert IsGood(cfg, Live(d'), p, digest);
    }
  }

  /** What one step of a writer owes everybody. */
  ghost predicate WriterStepOk(cfg: Config, suspect: set<Digest>, d: Disk, w: Writer, d': Disk, w': Writer) {
    && Gentle(cfg, d, d', TempOfWriter(w)) && WriterOk(cfg, suspect, d', w')
    && (TempOfWriter(w').Some? ==> TempOfWriter(w') == TempOfWriter(w) || TempOfWriter(w').value !in Live(d))
  }

  lemma WriterStep(cfg: Config, suspect: set<Digest>, d: Disk, w: Writer, op: Op)
    requires Sound(cfg) && WriterOk(cfg, suspect, d, w) && WriterNext(cfg, d, w, op).Some?
    requires forall i | 0 <= i < |d| :: ImageOk(cfg, suspect, d[i])
    ensures var (d', w') := WriterNext(cfg, d, w, op).value; WriterStepOk(cfg, suspect, d, w, d', w')
  {
    match w.stage
    case Putting(put) => PuttingStep(cfg, suspect, d, w, put, op);
    case Looking(left, held) => LookingStep(cfg, suspect, d, w, left, held, op);
    case Creating => CreatingStep(cfg, suspect, d, w, op);
    case Comparing => ComparingStep(cfg, suspect, d, w, op);
    case Leaving(temp) => LeavingStep(cfg, suspect, d, w, temp, op.gone);
  }

  lemma PuttingStep(cfg: Config, suspect: set<Digest>, d: Disk, w: Writer, put: Put, op: Op)
    requires Sound(cfg) && WriterOk(cfg, suspect, d, w) && w.stage == Putting(put)
    requires WhilePutting(cfg, d, w, put, op).Some? && forall i | 0 <= i < |d| :: ImageOk(cfg, suspect, d[i])
    ensures var (d', w') := WhilePutting(cfg, d, w, put, op).value; WriterStepOk(cfg, suspect, d, w, d', w')
  {
    if !op.Look? {
      hide PutNext, Gentle, ImageOk;
      var (d', put') := PutNext(d, put, op).value;
      PutIsGentle(cfg, d, put, op);
      GentleKeeps(cfg, suspect, d, d', TempOfWriter(w));
      PutKeeps(cfg, d, put, op);
      PutResult(cfg, suspect, d', w, put, put');
    }
  }

  lemma PutKeeps(cfg: Config, d: Disk, put: Put, op: Op)
    requires Sound(cfg) && PutOk(cfg, d, put) && PutNext(d, put, op).Some? && cfg.named(put.dest).Some?
    requires cfg.good(cfg.named(put.dest).value.1, put.data, cfg.named(put.dest).value.0)
    ensures var (d', put') := PutNext(d, put, op).value;
            && PutOk(cfg, d', put') && put' == put.(stage := put'.stage) && (Holds(put') ==> Holds(put))
            && (put'.stage.Syncing? ==> IsGood(cfg, Live(d'), put.dest, cfg.named(put.dest).value.0))
            && (put'.stage.Placed? ==> put.stage.Syncing? && Live(d') == Live(d))
  {
    PutStep(cfg, d, put, op);
  }

  /** Where a put has come to is where its writer has. */
  lemma PutResult(cfg: Config, suspect: set<Digest>, d: Disk, w: Writer, put: Put, put': Put)
    requires w.stage == Putting(put) && put' == put.(stage := put'.stage)
    requires cfg.fits(DigestOf(cfg, w)) && put.dest == DestOf(cfg, w) && DataOf(cfg, w) == Some(put.data)
    requires PutOk(cfg, d, put')
    requires put'.stage.Syncing? || put'.stage.Placed? ==>
               DigestOf(cfg, w) !in suspect ==> HasGood(cfg, OwnPlaces, Live(d), DigestOf(cfg, w))
    ensures WriterOk(cfg, suspect, d, w.(stage := AfterPut(put')))
  {
  }

  /** Placing a good file is gentle. */
  lemma PutIsGentle(cfg: Config, d: Disk, put: Put, op: Op)
    requires Sound(cfg) && PutOk(cfg, d, put) && PutNext(d, put, op).Some?
    requires cfg.named(put.dest).Some? && cfg.good(cfg.named(put.dest).value.1, put.data, cfg.named(put.dest).value.0)
    ensures Gentle(cfg, d, PutNext(d, put, op).value.0, if Holds(put) then Some(put.temp) else None)
  {
    PutStep(cfg, d, put, op);
    var d' := PutNext(d, put, op).value.0;
    if put.stage.Renaming? && op.Rename? {
      assert IsGood(cfg, Live(d'), put.dest, cfg.named(put.dest).value.0);
    }
  }

  lemma RemoveIsGentle(cfg: Config, d: Disk, temp: Path, gone: bool)
    requires Sound(cfg) && cfg.temp(temp)
    ensures Gentle(cfg, d, Remove(d, temp, gone), Some(temp))
  {
  }

  lemma LookingStep(cfg: Config, suspect: set<Digest>, d: Disk, w: Writer, left: seq<Form>, held: Option<Put>, op: Op)
    requires Sound(cfg) && WriterOk(cfg, suspect, d, w) && w.stage == Looking(left, held)
    requires WhileLooking(cfg, d, w, left, held, op).Some? && forall i | 0 <= i < |d| :: ImageOk(cfg, suspect, d[i])
    ensures var (d', w') := WhileLooking(cfg, d, w, left, held, op).value; WriterStepOk(cfg, suspect, d, w, d', w')
  {
    var (d', w') := WhileLooking(cfg, d, w, left, held, op).value;
    hide ImageOk, PutOk, Sound;
    if op.Look? {
      if left != [] {
        Found(cfg, suspect, d, w, left[0]);
      }
      assert WriterOk(cfg, suspect, d, w');
    } else if held.Some? {
      RemoveIsGentle(cfg, d, held.value.temp, op.gone);
    }
  }

  lemma CreatingStep(cfg: Config, suspect: set<Digest>, d: Disk, w: Writer, op: Op)
    requires Sound(cfg) && WriterOk(cfg, suspect, d, w) && w.stage == Creating
    requires WhileCreating(cfg, d, w, op).Some? && forall i | 0 <= i < |d| :: ImageOk(cfg, suspect, d[i])
    ensures var (d', w') := WhileCreating(cfg, d, w, op).value; WriterStepOk(cfg, suspect, d, w, d', w')
  {
  }

  lemma LeavingStep(cfg: Config, suspect: set<Digest>, d: Disk, w: Writer, temp: Path, gone: bool)
    requires Sound(cfg) && WriterOk(cfg, suspect, d, w) && w.stage == Leaving(temp)
    requires forall i | 0 <= i < |d| :: ImageOk(cfg, suspect, d[i])
    ensures WriterStepOk(cfg, suspect, d, w, Remove(d, temp, gone), w.(stage := Done(Exists)))
  {
    RemoveIsGentle(cfg, d, temp, gone);
    GentleKeeps(cfg, suspect, d, Remove(d, temp, gone), Some(temp));
  }

  lemma ComparingStep(cfg: Config, suspect: set<Digest>, d: Disk, w: Writer, op: Op)
    requires Sound(cfg) && WriterOk(cfg, suspect, d, w) && w.stage == Comparing
    requires WhileComparing(cfg, d, w, op).Some? && forall i | 0 <= i < |d| :: ImageOk(cfg, suspect, d[i])
    ensures var (d', w') := WhileComparing(cfg, d, w, op).value; WriterStepOk(cfg, suspect, d, w, d', w')
  {
    var w' := WhileComparing(cfg, d, w, op).value.1;
    assert ImageOk(cfg, suspect, Live(d));
    if w'.stage.Done? {
      assert IsGood(cfg, Live(d), DestOf(cfg, w), DigestOf(cfg, w));
    }
  }

  /** An entry's name that is taken is taken by a good entry, unless its digest is suspect. */
  lemma Found(cfg: Config, suspect: set<Digest>, d: Disk, w: Writer, form: Form)
    requires Sound(cfg) && cfg.fits(DigestOf(cfg, w)) && ImageOk(cfg, suspect, d[|d| - 1])
    ensures cfg.place(DigestOf(cfg, w), form) in Live(d) && DigestOf(cfg, w) !in suspect ==>
              HasGood(cfg, OwnPlaces, Live(d), DigestOf(cfg, w))
  {
    var p := cfg.place(DigestOf(cfg, w), form);
    if p in Live(d) && DigestOf(cfg, w) !in suspect {
      assert IsGood(cfg, Live(d), p, DigestOf(cfg, w));
    }
  }

  // -- the conversion -------------------------------------------------------

  /** What one step of the conversion owes everybody. */
  ghost predicate ConvStepOk(cfg: Config, suspect: set<Digest>, d: Disk, c: Conv, d': Disk, c': Conv) {
    && (forall i | 0 <= i < |d'| :: ImageOk(cfg, suspect, d'[i]))
    && (forall p | p in Live(d) && cfg.temp(p) && TempOfConv(c) != Some(p) :: p in Live(d') && Live(d')[p] == Live(d)[p])
    && (TempOfConv(c').Some? ==> TempOfConv(c') == TempOfConv(c) || TempOfConv(c').value !in Live(d))
    && (forall digest | digest !in suspect && HasGood(cfg, OwnPlaces, Live(d), digest) :: HasGood(cfg, OwnPlaces, Live(d'), digest))
    && ConvOk(cfg, suspect, d', c')
  }

  lemma ConvStep(cfg: Config, suspect: set<Digest>, d: Disk, c: Conv, op: Op)
    requires Sound(cfg) && ConvOk(cfg, suspect, d, c) && ConvNext(cfg, d, c, op).Some?
    requires forall i | 0 <= i < |d| :: ImageOk(cfg, suspect, d[i])
    ensures var (d', c') := ConvNext(cfg, d, c, op).value; ConvStepOk(cfg, suspect, d, c, d', c')
  {
    match c
    case Idle =>
    case Considering(job) => ConsideringStep(cfg, suspect, d, job, op);
    case Opening(job) => OpeningStep(cfg, suspect, d, job, op);
    case Writing(job, put) => WritingStep(cfg, suspect, d, job, put, op);
    case Unlinking(job) => UnlinkingStep(cfg, suspect, d, job, op);
  }

  lemma ConsideringStep(cfg: Config, suspect: set<Digest>, d: Disk, job: Job, op: Op)
    requires Sound(cfg) && ConvOk(cfg, suspect, d, Considering(job)) && WhileConsidering(cfg, d, job, op).Some?
    requires forall i | 0 <= i < |d| :: ImageOk(cfg, suspect, d[i])
    ensures var (d', c') := WhileConsidering(cfg, d, job, op).value;
            ConvStepOk(cfg, suspect, d, Considering(job), d', c')
  {
    var c' := WhileConsidering(cfg, d, job, op).value.1;
    assert ImageOk(cfg, suspect, Live(d));
    if c'.Unlinking? {
      assert IsGood(cfg, Live(d), DestOfJob(cfg, job), job.digest);
    }
  }

  lemma OpeningStep(cfg: Config, suspect: set<Digest>, d: Disk, job: Job, op: Op)
    requires Sound(cfg) && ConvOk(cfg, suspect, d, Opening(job)) && WhileOpening(cfg, d, job, op).Some?
    requires forall i | 0 <= i < |d| :: ImageOk(cfg, suspect, d[i])
    ensures var (d', c') := WhileOpening(cfg, d, job, op).value; ConvStepOk(cfg, suspect, d, Opening(job), d', c')
  {
    assert ImageOk(cfg, suspect, Live(d));
    if op.Read? {
      var d' := CreateFile(d, op.temp);
      assert Gentle(cfg, d, d', None);
      GentleKeeps(cfg, suspect, d, d', None);
      assert job.digest !in suspect ==> IsGood(cfg, Live(d), job.src, job.digest);
    }
  }

  lemma WritingStep(cfg: Config, suspect: set<Digest>, d: Disk, job: Job, put: Put, op: Op)
    requires Sound(cfg) && ConvOk(cfg, suspect, d, Writing(job, put)) && WhileWriting(d, job, put, op).Some?
    requires forall i | 0 <= i < |d| :: ImageOk(cfg, suspect, d[i])
    ensures var (d', c') := WhileWriting(d, job, put, op).value; ConvStepOk(cfg, suspect, d, Writing(job, put), d', c')
  {
    var (d', put') := PutNext(d, put, op).value;
    PutStep(cfg, d, put, op);
    assert ImageOk(cfg, suspect, d[|d| - 1]);
    assert RightData(cfg, job, put) && put'.stage.Syncing? ==> IsGood(cfg, Live(d'), put.dest, job.digest);
    assert ImageOk(cfg, suspect, Live(d'));
    forall digest | digest !in suspect && HasGood(cfg, OwnPlaces, Live(d), digest)
      ensures HasGood(cfg, OwnPlaces, Live(d'), digest)
    {
      var p :| Counts(cfg, OwnPlaces, p, digest) && IsGood(cfg, Live(d), p, digest);
      assert IsGood(cfg, Live(d'), p, digest);
    }
    WritingResult(cfg, suspect, d, job, put, op);
  }

  lemma WritingResult(cfg: Config, suspect: set<Digest>, d: Disk, job: Job, put: Put, op: Op)
    requires Sound(cfg) && ConvOk(cfg, suspect, d, Writing(job, put)) && PutNext(d, put, op).Some?
    ensures var (d', put') := PutNext(d, put, op).value; ConvOk(cfg, suspect, d', AfterWriting(job, put'))
  {
    var (d', put') := PutNext(d, put, op).value;
    PutStep(cfg, d, put, op);
    if put'.stage.Lost? {
      assert IsGood(cfg, Live(d'), put.dest, job.digest);
    }
    if put'.stage.Placed? && RightData(cfg, job, put) {
      assert IsGood(cfg, Live(d'), put.dest, job.digest);
    }
  }

  lemma UnlinkingStep(cfg: Config, suspect: set<Digest>, d: Disk, job: Job, op: Op)
    requires Sound(cfg) && ConvOk(cfg, suspect, d, Unlinking(job)) && op.Drop?
    requires forall i | 0 <= i < |d| :: ImageOk(cfg, suspect, d[i])
    ensures ConvStepOk(cfg, suspect, d, Unlinking(job), if op.gone then Unlink(d, job.src) else d, Idle)
  {
    if op.gone {
      var d' := Unlink(d, job.src);
      assert ImageOk(cfg, suspect, d[|d| - 1]);
      assert ImageOk(cfg, suspect, Live(d'));
      forall digest | digest !in suspect && HasGood(cfg, OwnPlaces, Live(d), digest)
        ensures HasGood(cfg, OwnPlaces, Live(d'), digest)
      {
        var kept :| Counts(cfg, OwnPlaces, kept, digest) && IsGood(cfg, Live(d), kept, digest);
        var p := if digest == job.digest then DestOfJob(cfg, job) else kept;
        assert IsGood(cfg, Live(d'), p, digest);
      }
    }
  }
}
