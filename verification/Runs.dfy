/**
Any number of writers, one conversion pass at a time, and crashes, step by step.

Every choice, of who moves, what the source of randomness hands out, where an
operation fails and what a crash leaves, is in the list of actions, so a run is a
list of actions and every property here is about all lists.
*/
module Runs {
  import opened Wrappers
  import opened Frames
  import opened Digests
  import opened Layouts
  import opened Forms
  import opened Disks
  import W = Walks

  /** All that a run needs to know of names, forms and codecs. */
  datatype Config = Config(
    named: Path -> Option<(Digest, Form)>,
    place: (Digest, Form) -> Path,
    fits: Digest -> bool,
    temp: Path -> bool,
    hash: Bytes -> Digest,
    good: (Form, Bytes, Digest) -> bool,
    encode: (Bytes, Form, Bytes) -> Option<Bytes>,
    repack: (Bytes, Form, Form, Bytes) -> Option<Bytes>)

  /** And all it relies on: names read back, encoding is right, repacking preserves meaning. */
  ghost predicate Sound(cfg: Config) {
    && (forall d, f | cfg.fits(d) :: cfg.named(cfg.place(d, f)) == Some((d, f)))
    && (forall p | cfg.temp(p) :: cfg.named(p).None?)
    && (forall n, f, c | cfg.encode(n, f, c).Some? :: cfg.good(f, cfg.encode(n, f, c).value, cfg.hash(c)))
    && (forall n, f, t, b, d | cfg.repack(n, f, t, b).Some? ::
          cfg.good(t, cfg.repack(n, f, t, b).value, d) == cfg.good(f, b, d))
  }

  /** The store as it is: this layout, this codec, this key. */
  function ConfigOf(layout: Layout, codec: Codec, key: Option<Key>): Config {
    Config(
      p => if W.Yields(W.OnlyEntries, layout, p) then FileOf(layout, p) else None,
      (d: Digest, f: Form) => if layout.Shard(d).Some? then Place(layout, d, f) else [],
      (d: Digest) => layout.Shard(d).Some?,
      p => IsTempPath(p),
      codec.hash,
      (f: Form, b: Bytes, d: Digest) => Good(codec, key, f, b, d),
      (n, f, c) =>
        if |n| == PREFIX && Encode(codec, key, n, f, c).Ok? then Some(Encode(codec, key, n, f, c).value) else None,
      (n, f, t, b) =>
        if |n| == PREFIX && Repack(codec, key, n, f, t, b).Ok? then Some(Repack(codec, key, n, f, t, b).value) else None)
  }

  /** Every law a run relies on holds of the real names, forms and frames. */
  lemma {:induction false} ConfigIsSound(layout: Layout, codec: Codec, key: Option<Key>)
    requires layout.Valid() && Lawful(codec)
    ensures Sound(ConfigOf(layout, codec, key))
  {
    var cfg := ConfigOf(layout, codec, key);
    forall d, f | cfg.fits(d)
      ensures cfg.named(cfg.place(d, f)) == Some((d, f))
    {
      PlaceNames(layout, d, f);
      W.PlaceIsEntry(layout, d, f);
    }
    forall p | cfg.temp(p)
      ensures cfg.named(p).None?
    {
      TempNamesNothing(layout, p);
    }
    forall n, f, c | cfg.encode(n, f, c).Some?
      ensures cfg.good(f, cfg.encode(n, f, c).value, cfg.hash(c))
    {
      EncodeDecode(codec, key, n, f, c);
    }
    forall n, f, t, b, d | cfg.repack(n, f, t, b).Some?
      ensures cfg.good(t, cfg.repack(n, f, t, b).value, d) == cfg.good(f, b, d)
    {
      RepackGood(codec, key, n, f, t, b, d);
    }
  }

  // -- placing a temporary file -------------------------------------------

  datatype Stage =
    | Filling(done: nat)
    | Checking
    | Renaming
    | Syncing
    | Losing
    | Placed
    | Lost
    | Broken

  /** One temporary file on its way to its name. */
  datatype Put = Put(temp: Path, dest: Path, data: Bytes, stage: Stage)

  datatype Op =
    | Look
    | Create(temp: Path)
    | More(upto: nat)
    | Flush
    | Check
    | Rename
    | Refuse
    | Sync(durable: bool)
    | Drop(gone: bool)
    | Compare
    | Start(src: Path, target: Form)
    | Read(nonce: Bytes, temp: Path)
    | Fail(gone: bool)

  /** The temporary file removes itself, or is left behind when even that fails. */
  function Remove(d: Disk, temp: Path, gone: bool): Disk { if gone then Unlink(d, temp) else d }

  /** Flush the file, look at the name, rename, flush the directory: in this order. */
  function PutNext(d: Disk, put: Put, op: Op): Option<(Disk, Put)> {
    match (put.stage, op)
    case (Filling(done), More(upto)) =>
      if done < upto <= |put.data| then
        Some((WriteFile(d, put.temp, put.data[..upto]), put.(stage := Filling(upto))))
      else None
    case (Filling(done), Flush) =>
      if done == |put.data| && put.temp in Live(d) then Some((FlushFile(d, put.temp), put.(stage := Checking)))
      else None
    case (Checking, Check) => Some((d, put.(stage := if put.dest in Live(d) then Losing else Renaming)))
    case (Renaming, Rename) =>
      if put.temp in Live(d) then Some((Move(d, put.temp, put.dest), put.(stage := Syncing))) else None
    case (Renaming, Refuse) => if put.dest in Live(d) then Some((d, put.(stage := Losing))) else None
    case (Syncing, Sync(durable)) => Some((SyncDir(d, durable), put.(stage := Placed)))
    case (Losing, Drop(gone)) => Some((Remove(d, put.temp, gone), put.(stage := Lost)))
    case (Filling(_), Fail(gone)) => Some((Remove(d, put.temp, gone), put.(stage := Broken)))
    case (Checking, Fail(gone)) => Some((Remove(d, put.temp, gone), put.(stage := Broken)))
    case (Renaming, Fail(gone)) => Some((Remove(d, put.temp, gone), put.(stage := Broken)))
    case _ => None
  }

  // -- writers ------------------------------------------------------------

  datatype Status = New | Exists

  datatype WriterStage =
    | Looking(left: seq<Form>, held: Option<Put>)
    | Creating
    | Putting(put: Put)
    | Leaving(temp: Path)
    | Comparing
    | Done(status: Status)
    | GaveUp

  /** One `add`, or with `streaming` one `add_reader`, which learns the digest only by writing. */
  datatype Writer = Writer(content: Bytes, nonce: Bytes, form: Form, first: Form, streaming: bool, looked: bool, stage: WriterStage)

  function DigestOf(cfg: Config, w: Writer): Digest { cfg.hash(w.content) }

  function DestOf(cfg: Config, w: Writer): Path { cfg.place(DigestOf(cfg, w), w.form) }

  function DataOf(cfg: Config, w: Writer): Option<Bytes> { cfg.encode(w.nonce, w.form, w.content) }

  /** Where each call starts. */
  function FirstStage(w: Writer): WriterStage {
    if w.streaming then Creating else Looking(w.first.WithOthersAfter(), None)
  }

  function WriterNext(cfg: Config, d: Disk, w: Writer, op: Op): Option<(Disk, Writer)> {
    match w.stage
    case Looking(left, held) => WhileLooking(cfg, d, w, left, held, op)
    case Creating => WhileCreating(cfg, d, w, op)
    case Putting(put) => WhilePutting(cfg, d, w, put, op)
    case Leaving(temp) => if op.Drop? then Some((Remove(d, temp, op.gone), w.(stage := Done(Exists)))) else None
    case Comparing => WhileComparing(cfg, d, w, op)
    case _ => None
  }

  /** One name of the three at a time; a hit ends the call, three misses start or resume the write. */
  function WhileLooking(cfg: Config, d: Disk, w: Writer, left: seq<Form>, held: Option<Put>, op: Op): Option<(Disk, Writer)> {
    match op
    case Look =>
      if left == [] then
        Some((d, w.(stage := if held.None? then Creating else Putting(held.value))))
      else if cfg.place(DigestOf(cfg, w), left[0]) in Live(d) then
        Some((d, w.(stage := if held.None? then Done(Exists) else Leaving(held.value.temp))))
      else Some((d, w.(stage := Looking(left[1..], held))))
    case Fail(gone) => Some((if held.Some? then Remove(d, held.value.temp, gone) else d, w.(stage := GaveUp)))
    case _ => None
  }

  function WhileCreating(cfg: Config, d: Disk, w: Writer, op: Op): Option<(Disk, Writer)> {
    match op
    case Create(temp) =>
      if cfg.temp(temp) && temp !in Live(d) && DataOf(cfg, w).Some? then
        Some((CreateFile(d, temp), w.(stage := Putting(Put(temp, DestOf(cfg, w), DataOf(cfg, w).value, Filling(0))))))
      else None
    case Fail(_) => Some((d, w.(stage := GaveUp)))
    case _ => None
  }

  /** A streaming call looks the digest up once everything is written and before it is flushed. */
  function WhilePutting(cfg: Config, d: Disk, w: Writer, put: Put, op: Op): Option<(Disk, Writer)> {
    if op.Look? then
      if w.streaming && !w.looked && put.stage == Filling(|put.data|) then
        Some((d, w.(looked := true, stage := Looking(w.first.WithOthersAfter(), Some(put)))))
      else None
    else if op.Flush? && w.streaming && !w.looked then None
    else match PutNext(d, put, op)
      case None => None
      case Some((d', put')) => Some((d', w.(stage := AfterPut(put'))))
  }

  function WhileComparing(cfg: Config, d: Disk, w: Writer, op: Op): Option<(Disk, Writer)> {
    match op
    case Compare =>
      var dest := DestOf(cfg, w);
      var same := dest in Live(d) && cfg.good(w.form, Live(d)[dest].bytes, DigestOf(cfg, w));
      Some((d, w.(stage := if same then Done(New) else GaveUp)))
    case Fail(_) => Some((d, w.(stage := GaveUp)))
    case _ => None
  }

  /** A lost race is answered by comparing what lies there, and still reports New. */
  function AfterPut(put: Put): WriterStage {
    match put.stage
    case Placed => Done(New)
    case Lost => Comparing
    case Broken => GaveUp
    case _ => Putting(put)
  }

  // -- the conversion pass ------------------------------------------------

  /** One entry being rewritten. */
  datatype Job = Job(src: Path, digest: Digest, from: Form, target: Form)

  datatype Conv =
    | Idle
    | Considering(job: Job)
    | Opening(job: Job)
    | Writing(job: Job, put: Put)
    | Unlinking(job: Job)

  /** What the four passes convert: compress, decompress, encrypt, decrypt. */
  predicate Planned(from: Form, target: Form) {
    || (from == Raw && target == Zstd) || (from == Zstd && target == Raw)
    || (from != Enc && target == Enc) || (from == Enc && target == Zstd)
  }

  function DestOfJob(cfg: Config, job: Job): Path { cfg.place(job.digest, job.target) }

  function ConvNext(cfg: Config, d: Disk, c: Conv, op: Op): Option<(Disk, Conv)> {
    match c
    case Idle => WhileIdle(cfg, d, op)
    case Considering(job) => WhileConsidering(cfg, d, job, op)
    case Opening(job) => WhileOpening(cfg, d, job, op)
    case Writing(job, put) => WhileWriting(d, job, put, op)
    case Unlinking(job) => if op.Drop? then Some((if op.gone then Unlink(d, job.src) else d, Idle)) else None
  }

  function WhileIdle(cfg: Config, d: Disk, op: Op): Option<(Disk, Conv)> {
    if !op.Start? then None
    else
      var named := cfg.named(op.src);
      if op.src in Live(d) && named.Some? && Planned(named.value.1, op.target) && cfg.fits(named.value.0) then
        Some((d, Considering(Job(op.src, named.value.0, named.value.1, op.target))))
      else None
  }

  /** A destination that is taken is compared, not trusted: only the content itself lets the old name go. */
  function WhileConsidering(cfg: Config, d: Disk, job: Job, op: Op): Option<(Disk, Conv)> {
    var dest := DestOfJob(cfg, job);
    match op
    case Look =>
      if dest !in Live(d) then Some((d, Opening(job)))
      else if cfg.good(job.target, Live(d)[dest].bytes, job.digest) then Some((d, Unlinking(job)))
      else Some((d, Idle))
    case Fail(_) => Some((d, Idle))
    case _ => None
  }

  function WhileOpening(cfg: Config, d: Disk, job: Job, op: Op): Option<(Disk, Conv)> {
    match op
    case Read(nonce, temp) =>
      if job.src !in Live(d) || !cfg.temp(temp) || temp in Live(d) then None
      else
        (match cfg.repack(nonce, job.from, job.target, Live(d)[job.src].bytes)
         case None => None
         case Some(out) => Some((CreateFile(d, temp), Writing(job, Put(temp, DestOfJob(cfg, job), out, Filling(0))))))
    case Fail(_) => Some((d, Idle))
    case _ => None
  }

  function WhileWriting(d: Disk, job: Job, put: Put, op: Op): Option<(Disk, Conv)> {
    match PutNext(d, put, op)
    case None => None
    case Some((d', put')) => Some((d', AfterWriting(job, put')))
  }

  /** Whether the file was renamed or found its name taken is not asked: the old name goes either way. */
  function AfterWriting(job: Job, put: Put): Conv {
    match put.stage
    case Placed => Unlinking(job)
    case Lost => Unlinking(job)
    case Broken => Idle
    case _ => Writing(job, put)
  }

  // -- runs ---------------------------------------------------------------

  datatype State = State(disk: Disk, writers: map<nat, Writer>, conv: Conv)

  datatype Act =
    | Call(id: nat, writer: Writer)
    | Write(id: nat, op: Op)
    | Convert(op: Op)
    | Crash(at: nat, found: Image)

  ghost function Next(cfg: Config, s: State, a: Act): Option<State> {
    match a
    case Call(id, writer) =>
      if id !in s.writers && cfg.fits(DigestOf(cfg, writer)) && !writer.looked && writer.stage == FirstStage(writer) then
        Some(s.(writers := s.writers[id := writer]))
      else None
    case Write(id, op) =>
      if id !in s.writers then None
      else (match WriterNext(cfg, s.disk, s.writers[id], op)
            case None => None
            case Some((d, w)) => Some(s.(disk := d, writers := s.writers[id := w])))
    case Convert(op) =>
      (match ConvNext(cfg, s.disk, s.conv, op)
       case None => None
       case Some((d, c)) => Some(s.(disk := d, conv := c)))
    case Crash(at, found) =>
      if at < |s.disk| && Survives(s.disk[at], found) then Some(State([found], map[], Idle)) else None
  }

  ghost function Run(cfg: Config, s: State, acts: seq<Act>): Option<State>
    decreases |acts|
  {
    if acts == [] then Some(s)
    else match Next(cfg, s, acts[0])
      case None => None
      case Some(s') => Run(cfg, s', acts[1..])
  }

  // -- what a run leaves open ---------------------------------------------

  /** A crash may come in any state and fall back to any directory state since the last durable one. */
  lemma AnyCrash(cfg: Config, s: State, at: nat, found: Image)
    requires at < |s.disk| && Survives(s.disk[at], found)
    ensures Next(cfg, s, Crash(at, found)) == Some(State([found], map[], Idle))
  {
  }

  /** A call of either kind may come at any time, and a conversion of any entry that is there. */
  lemma AnyStart(cfg: Config, s: State, id: nat, w: Writer, src: Path, target: Form)
    ensures id !in s.writers && cfg.fits(cfg.hash(w.content)) && !w.looked
            && w.stage == (if w.streaming then Creating else Looking(w.first.WithOthersAfter(), None)) ==>
              Next(cfg, s, Call(id, w)) == Some(s.(writers := s.writers[id := w]))
    ensures var named := cfg.named(src);
            s.conv.Idle? && src in Live(s.disk) && named.Some? && Planned(named.value.1, target) && cfg.fits(named.value.0) ==>
              Next(cfg, s, Convert(Start(src, target)))
              == Some(s.(conv := Considering(Job(src, named.value.0, named.value.1, target))))
  {
  }

  /**
  Whatever can happen to a file on its way to its name may: it is written in any pieces,
  fails before its rename and is left behind or not, is renamed over what came under
  its name meanwhile or refused because of it, and its directory is flushed or not.
  */
  lemma AnyTrouble(d: Disk, put: Put, upto: nat, yes: bool)
    ensures put.stage.Filling? && put.stage.done < upto <= |put.data| ==>
              PutNext(d, put, More(upto)) == Some((WriteFile(d, put.temp, put.data[..upto]), put.(stage := Filling(upto))))
    ensures put.stage.Filling? || put.stage.Checking? || put.stage.Renaming? ==>
              PutNext(d, put, Fail(yes)) == Some((if yes then Unlink(d, put.temp) else d, put.(stage := Broken)))
    ensures put.stage.Renaming? && put.temp in Live(d) ==>
              PutNext(d, put, Rename) == Some((Move(d, put.temp, put.dest), put.(stage := Syncing)))
    ensures put.stage.Renaming? && put.dest in Live(d) ==> PutNext(d, put, Refuse) == Some((d, put.(stage := Losing)))
    ensures put.stage.Syncing? ==> PutNext(d, put, Sync(yes)) == Some((if yes then [Live(d)] else d, put.(stage := Placed)))
    ensures put.stage.Losing? ==> PutNext(d, put, Op.Drop(yes)) == Some((if yes then Unlink(d, put.temp) else d, put.(stage := Lost)))
  {
  }

  // -- what holds in every state ------------------------------------------

  ghost predicate IsGood(cfg: Config, image: Image, p: Path, digest: Digest) {
    && p in image && image[p].flushed
    && var named := cfg.named(p);
       named.Some? && named.value.0 == digest && cfg.good(named.value.1, image[p].bytes, digest)
  }

  /** Where a good entry is asked for: anywhere the walk goes, or where a lookup by digest goes. */
  datatype Where = Anywhere | OwnPlaces

  ghost predicate Counts(cfg: Config, among: Where, p: Path, digest: Digest) {
    among.OwnPlaces? ==> exists f: Form :: p == cfg.place(digest, f)
  }

  ghost predicate HasGood(cfg: Config, among: Where, image: Image, digest: Digest) {
    exists p :: Counts(cfg, among, p, digest) && IsGood(cfg, image, p, digest)
  }

  ghost predicate Elsewhere(cfg: Config, among: Where, image: Image, src: Path, digest: Digest) {
    exists p :: p != src && Counts(cfg, among, p, digest) && IsGood(cfg, image, p, digest)
  }

  /** Every file under an entry's name is flushed, and good unless its digest was suspect from the start. */
  ghost predicate ImageOk(cfg: Config, suspect: set<Digest>, image: Image) {
    forall p | p in image && cfg.named(p).Some? ::
      image[p].flushed && (cfg.named(p).value.0 !in suspect ==> IsGood(cfg, image, p, cfg.named(p).value.0))
  }

  /** A temporary file that is still a writer's own. */
  predicate Holds(put: Put) {
    put.stage.Filling? || put.stage.Checking? || put.stage.Renaming? || put.stage.Losing?
  }

  ghost predicate PutOk(cfg: Config, d: Disk, put: Put) {
    && (Holds(put) ==> cfg.temp(put.temp) && put.temp in Live(d))
    && (put.stage.Filling? ==> put.stage.done <= |put.data| && Live(d)[put.temp].bytes == put.data[..put.stage.done])
    && (put.stage.Checking? || put.stage.Renaming? ==> Live(d)[put.temp] == Blob(put.data, true))
  }

  function PutOfWriter(w: Writer): Option<Put> {
    match w.stage
    case Putting(put) => Some(put)
    case Looking(_, put) => put
    case _ => None
  }

  function TempOfWriter(w: Writer): Option<Path> {
    match w.stage
    case Leaving(temp) => Some(temp)
    case _ =>
      match PutOfWriter(w)
      case Some(put) => if Holds(put) then Some(put.temp) else None
      case None => None
  }

  function TempOfConv(c: Conv): Option<Path> {
    if c.Writing? && Holds(c.put) then Some(c.put.temp) else None
  }

  ghost predicate WriterOk(cfg: Config, suspect: set<Digest>, d: Disk, w: Writer) {
    && cfg.fits(DigestOf(cfg, w))
    && (TempOfWriter(w).Some? ==> cfg.temp(TempOfWriter(w).value) && TempOfWriter(w).value in Live(d))
    && (PutOfWriter(w).Some? ==>
          var put := PutOfWriter(w).value;
          && put.dest == DestOf(cfg, w) && DataOf(cfg, w) == Some(put.data)
          && PutOk(cfg, d, put) && (w.stage.Looking? ==> Holds(put)))
    && (Answered(w) && DigestOf(cfg, w) !in suspect ==> HasGood(cfg, OwnPlaces, Live(d), DigestOf(cfg, w)))
  }

  /** The call has its answer, or will have it once it has cleaned up after itself. */
  predicate Answered(w: Writer) {
    w.stage.Done? || w.stage.Leaving? || (w.stage.Putting? && w.stage.put.stage.Syncing?)
  }

  function JobOf(c: Conv): Option<Job> {
    match c
    case Idle => None
    case Considering(job) => Some(job)
    case Opening(job) => Some(job)
    case Writing(job, _) => Some(job)
    case Unlinking(job) => Some(job)
  }

  ghost predicate ConvOk(cfg: Config, suspect: set<Digest>, d: Disk, c: Conv) {
    && (JobOf(c).Some? ==>
          var job := JobOf(c).value;
          && cfg.named(job.src) == Some((job.digest, job.from)) && job.src in Live(d)
          && job.from != job.target && cfg.fits(job.digest))
    && (c.Opening? ==> DestOk(cfg, d, c.job))
    && (c.Unlinking? && c.job.digest !in suspect ==> IsGood(cfg, Live(d), DestOfJob(cfg, c.job), c.job.digest))
    && (c.Writing? ==>
          && PutOk(cfg, d, c.put) && c.put.dest == DestOfJob(cfg, c.job)
          && !c.put.stage.Placed? && !c.put.stage.Lost? && !c.put.stage.Broken?
          && (c.job.digest !in suspect ==> RightData(cfg, c.job, c.put))
          && (!c.put.stage.Syncing? ==> DestOk(cfg, d, c.job))
          && (c.put.stage.Losing? ==> c.put.dest in Live(d))
          && (c.put.stage.Syncing? && RightData(cfg, c.job, c.put) ==> IsGood(cfg, Live(d), c.put.dest, c.job.digest)))
  }

  /** What a conversion is about to place is good. */
  predicate RightData(cfg: Config, job: Job, put: Put) { cfg.good(job.target, put.data, job.digest) }

  /** Whatever appeared under a conversion's destination since it was seen free is another writer's good file. */
  ghost predicate DestOk(cfg: Config, d: Disk, job: Job) {
    DestOfJob(cfg, job) in Live(d) ==> IsGood(cfg, Live(d), DestOfJob(cfg, job), job.digest)
  }

  ghost predicate TempsApart(s: State) {
    && (forall i, j | i in s.writers && j in s.writers && i != j && TempOfWriter(s.writers[i]).Some? ::
          TempOfWriter(s.writers[i]) != TempOfWriter(s.writers[j]))
    && (forall i | i in s.writers && TempOfWriter(s.writers[i]).Some? :: TempOfWriter(s.writers[i]) != TempOfConv(s.conv))
  }

  ghost predicate Inv(cfg: Config, suspect: set<Digest>, s: State) {
    && (forall i | 0 <= i < |s.disk| :: ImageOk(cfg, suspect, s.disk[i]))
    && (forall i | i in s.writers :: WriterOk(cfg, suspect, s.disk, s.writers[i]))
    && ConvOk(cfg, suspect, s.disk, s.conv)
    && TempsApart(s)
  }
}
