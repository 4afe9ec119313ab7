/**
A key change, step by step, cut off anywhere and started again.

Every sealed file the walk yields, set-aside ones included, is probed with the new
key; one the new key does not open is read whole under the old key, sealed again into
a temporary file and renamed onto its own name.
*/
module KeyChange {
  import opened Wrappers
  import opened Frames
  import opened Layouts
  import opened Forms
  import opened Disks
  import W = Walks

  /** All a key change needs of names and seals. */
  datatype Rekey = Rekey(
    isSealed: Path -> bool,
    temp: Path -> bool,
    underOld: Bytes -> Option<Bytes>,
    underNew: Bytes -> Option<Bytes>,
    probe: Bytes -> Result<bool, Error>,
    copy: (Bytes, Bytes) -> Result<Bytes, Error>)

  ghost predicate Sound(k: Rekey) {
    && (forall p | k.temp(p) :: !k.isSealed(p))
    && (forall n, b | k.copy(n, b).Ok? :: k.underOld(b).Some? && k.underNew(k.copy(n, b).value) == k.underOld(b))
    && (forall b | k.underNew(b).Some? :: k.probe(b) == Ok(true))
    && (forall b | k.probe(b) == Ok(true) :: k.underOld(b).None?)
    && (forall b | k.probe(b).Err? :: Recoverable(k.probe(b).error))
    && (forall n, b | k.copy(n, b).Err? && !Recoverable(k.copy(n, b).error) :: k.underOld(b).None?)
  }

  /** What a file holds under whichever of the two keys opens it whole. */
  function Held(k: Rekey, b: Bytes): Option<Bytes> { if k.underNew(b).Some? then k.underNew(b) else k.underOld(b) }

  // -- the real keys and frames -------------------------------------------

  /** Everything under a key, or nothing. */
  function Whole(key: Key, b: Bytes): Option<Bytes> {
    if ReadAll(key, b).end == Clean then Some(ReadAll(key, b).text) else None
  }

  /** Whether a key opens a file, settled by its first chunk. */
  function Probe(key: Key, b: Bytes): Result<bool, Error> {
    if FirstChunkOpens(key, b) then Ok(true)
    else match ReadAll(key, b).end
      case Failed(Unsealable) => Ok(false)
      case Failed(reason) => Err(CrateError(reason))
      case Clean => Ok(true)
  }

  /** Two keys never both open a file, not even its first chunk. */
  lemma {:induction false} KeysApart(oldKey: Key, newKey: Key, b: Bytes)
    requires oldKey != newKey
    ensures Probe(newKey, b) == Ok(true) ==> Whole(oldKey, b).None?
    ensures Whole(newKey, b).Some? ==> Probe(newKey, b) == Ok(true)
    ensures Probe(newKey, b).Err? ==> Recoverable(Probe(newKey, b).error)
  {
    FirstChunk(newKey, oldKey, b);
  }

  /** Unseal under the old key, seal under the new one. */
  function Copied(oldKey: Key, newKey: Key, nonce: Bytes, b: Bytes): Result<Bytes, Error> {
    match Payload(Some(oldKey), Enc, b)
    case Err(error) => Err(error)
    case Ok(text) => if |nonce| == PREFIX then Wrap(Some(newKey), nonce, Enc, text) else Err(Io)
  }

  /** What the old key makes of a file: it can be moved, or the reason it cannot. */
  function Movable(oldKey: Key, b: Bytes): (r: Result<bool, Error>)
    ensures r.Ok? ==> r == Ok(true)
  {
    match Payload(Some(oldKey), Enc, b)
    case Err(error) => Err(error)
    case Ok(_) => Ok(true)
  }

  /** What the old key opens whole can be sealed again, whatever nonce is drawn. */
  lemma MovableCopies(oldKey: Key, newKey: Key, nonce: Bytes, b: Bytes) returns (copy: Bytes)
    requires Movable(oldKey, b).Ok? && |nonce| == PREFIX
    ensures Copied(oldKey, newKey, nonce, b) == Ok(copy)
  {
    ExactImage(oldKey, b, ReadAll(oldKey, b).text);
    copy := Frame(newKey, nonce, ReadAll(oldKey, b).text);
  }

  /** What resealing a file comes to where nothing but its bytes can stand in the way: whether it was moved. */
  function Resealed(oldKey: Key, newKey: Key, b: Bytes): Result<bool, Error> {
    match Probe(newKey, b)
    case Err(error) => Err(error)
    case Ok(true) => Ok(false)
    case Ok(false) => Movable(oldKey, b)
  }

  /** What a probe says, told from the bytes: the first chunk opens, it does not, or the frame is of another version. */
  lemma {:induction false} ProbeExact(key: Key, b: Bytes)
    ensures Probe(key, b) == Ok(true) <==> FirstChunkOpens(key, b)
    ensures Probe(key, b) == Ok(false) <==> !FirstChunkOpens(key, b) && !OtherVersion(b)
    ensures Probe(key, b).Err? <==> OtherVersion(b)
    ensures OtherVersion(b) ==> Probe(key, b) == Err(FrameVersion(b[4]))
  {
    FirstChunk(key, key, b);
    HeadDecides(key, b);
    EndingDiscipline(key, key, b);
  }

  /** What a key opens whole is a frame of its own. */
  lemma {:induction false} WholeExact(key: Key, b: Bytes, payload: Bytes)
    ensures Whole(key, b) == Some(payload) <==> IsFrame(key, b, payload)
  {
    ExactImage(key, b, payload);
    assert ReadAll(key, b) == Reading(ReadAll(key, b).text, ReadAll(key, b).end);
  }

  /**
  What resealing a file comes to, told from the bytes: it is moved if the new key does
  not open its first chunk and the old one opens it whole, of any length; it stays if
  the new key opens the first chunk; anything else fails. No later run mends a first
  chunk that neither key opens, or damage behind one that the old key does.
  */
  lemma {:induction false} ResealedExactly(oldKey: Key, newKey: Key, b: Bytes)
    ensures var r := Resealed(oldKey, newKey, b);
            && (r == Ok(true) <==> Probe(newKey, b) == Ok(false) && Whole(oldKey, b).Some?)
            && (r == Ok(false) <==> FirstChunkOpens(newKey, b))
            && (r.Err? <==> OtherVersion(b) || (!FirstChunkOpens(newKey, b) && Whole(oldKey, b).None?))
            && (r.Err? && Recoverable(r.error) <==>
                  OtherVersion(b) || (!FirstChunkOpens(newKey, b) && ReadAll(oldKey, b).end == Failed(Frames.TooManyChunks)))
            && (OtherVersion(b) ==> r == Err(FrameVersion(b[4])))
            && (r.Err? && !OtherVersion(b) ==> Payload(Some(oldKey), Enc, b) == Err(r.error))
  {
    ProbeExact(newKey, b);
    PayloadExact(Some(oldKey), b, ReadAll(oldKey, b).text);
    WholeExact(oldKey, b, ReadAll(oldKey, b).text);
    HeadDecides(oldKey, b);
    hide Probe, ReadAll, FirstChunkOpens, OtherVersion, IsFrame;
  }

  /** The files a key change is about: sealed ones its walk yields, entries and set-aside ones alike. */
  predicate IsSealed(layout: Layout, p: Path) {
    W.Yields(W.All, layout, p) && W.Wants(W.All, layout, p[|p| - 1]).value.1 == Enc
  }

  /** Spelt out: outside the temporary directory, and by its name sealed, set aside or not. */
  lemma {:induction false} SealedExactly(layout: Layout, p: Path)
    requires layout.Valid() && p != []
    ensures var name := p[|p| - 1];
            IsSealed(layout, p) <==>
            && (|p| == 1 || p[0] != "tmp")
            && ((layout.ParseName(name).Some? && layout.ParseName(name).value.1 == Enc)
                || (layout.ParseQuarantined(name).Some? && layout.ParseQuarantined(name).value.1 == Enc))
  {
    EntryOrQuarantined(layout, p[|p| - 1]);
    hide Layout.ParseName, Layout.ParseQuarantined;
  }

  function RekeyOf(layout: Layout, oldKey: Key, newKey: Key): Rekey {
    Rekey(
      p => IsSealed(layout, p),
      p => IsTempPath(p),
      b => Whole(oldKey, b),
      b => Whole(newKey, b),
      b => Probe(newKey, b),
      (n, b) => Copied(oldKey, newKey, n, b))
  }

  /** Every law a key change relies on holds of real names and frames, for two different keys. */
  lemma {:induction false} RekeyIsSound(layout: Layout, oldKey: Key, newKey: Key)
    requires layout.Valid() && oldKey != newKey
    ensures Sound(RekeyOf(layout, oldKey, newKey))
  {
    NamesLawful(layout, oldKey, newKey);
    ProbesLawful(layout, oldKey, newKey);
    CopiesLawful(layout, oldKey, newKey);
    hide RekeyOf;
  }

  lemma NamesLawful(layout: Layout, oldKey: Key, newKey: Key)
    requires layout.Valid()
    ensures var k := RekeyOf(layout, oldKey, newKey); forall p | k.temp(p) :: !k.isSealed(p)
  {
    hide Whole, Probe, Copied, W.Wants;
  }

  lemma ProbesLawful(layout: Layout, oldKey: Key, newKey: Key)
    requires oldKey != newKey
    ensures var k := RekeyOf(layout, oldKey, newKey);
            && (forall b | k.underNew(b).Some? :: k.probe(b) == Ok(true))
            && (forall b | k.probe(b) == Ok(true) :: k.underOld(b).None?)
            && (forall b | k.probe(b).Err? :: Recoverable(k.probe(b).error))
  {
    hide Whole, Probe, Copied, IsTempPath, IsSealed;
    forall b: Bytes
      ensures Whole(newKey, b).Some? ==> Probe(newKey, b) == Ok(true)
      ensures Probe(newKey, b) == Ok(true) ==> Whole(oldKey, b).None?
      ensures Probe(newKey, b).Err? ==> Recoverable(Probe(newKey, b).error)
    {
      KeysApart(oldKey, newKey, b);
    }
  }

  lemma CopiesLawful(layout: Layout, oldKey: Key, newKey: Key)
    ensures var k := RekeyOf(layout, oldKey, newKey);
            && (forall n, b | k.copy(n, b).Ok? :: k.underOld(b).Some? && k.underNew(k.copy(n, b).value) == k.underOld(b))
            && (forall n, b | k.copy(n, b).Err? && !Recoverable(k.copy(n, b).error) :: k.underOld(b).None?)
  {
    hide Whole, Probe, Copied, IsTempPath, IsSealed;
    forall n: Bytes, b: Bytes
      ensures var copy := Copied(oldKey, newKey, n, b);
              && (copy.Ok? ==> Whole(oldKey, b).Some? && Whole(newKey, copy.value) == Whole(oldKey, b))
              && (copy.Err? && !Recoverable(copy.error) ==> Whole(oldKey, b).None?)
    {
      CopyMoves(oldKey, newKey, n, b);
    }
  }

  /** A copy holds under the new key what the old one held under the old, and only what the old key does not open is beyond help. */
  lemma {:induction false} CopyMoves(oldKey: Key, newKey: Key, nonce: Bytes, b: Bytes)
    ensures var copy := Copied(oldKey, newKey, nonce, b);
            && (copy.Ok? ==> Whole(oldKey, b).Some? && Whole(newKey, copy.value) == Whole(oldKey, b))
            && (copy.Err? && !Recoverable(copy.error) ==> Whole(oldKey, b).None?)
  {
    if Copied(oldKey, newKey, nonce, b).Ok? {
      RoundTrip(newKey, nonce, ReadAll(oldKey, b).text);
    }
  }

  // -- the machine ----------------------------------------------------------

  datatype PutStage = Filling(done: nat) | Renaming | Syncing

  datatype Put = Put(temp: Path, data: Bytes, stage: PutStage)

  datatype Stage =
    | Off
    | Between
    | Probing(path: Path)
    | Copying(path: Path)
    | Writing(path: Path, put: Put)
    | Over

  /** `todo` is what the walk owes, `settled` what it is through with, `clean` whether nothing recoverable failed. */
  datatype State = State(disk: Disk, stage: Stage, todo: set<Path>, settled: set<Path>, clean: bool)

  datatype Act =
    | Begin
    | Take(path: Path)
    | Ask(fault: bool)
    | Read(nonce: Bytes, temp: Path)
    | Refuse(nonce: Bytes)
    | Fault
    | More(upto: nat)
    | Flush
    | Rename
    | Fail(gone: bool)
    | Sync(durable: bool)
    | Finish
    | Arrive(path: Path, bytes: Bytes)
    | Crash(at: nat, found: Image)

  /** The file at `path` is dealt with; the run goes on. */
  function Settle(s: State, path: Path, ok: bool): State {
    s.(stage := Between, settled := s.settled + {path}, clean := s.clean && ok)
  }

  ghost function Next(k: Rekey, s: State, a: Act): Option<State> {
    match a
    case Arrive(path, bytes) =>
      if path !in Live(s.disk) && !k.temp(path) then Some(s.(disk := Change(s.disk, Live(s.disk)[path := Blob(bytes, true)])))
      else None
    case Crash(at, found) =>
      if at < |s.disk| && Survives(s.disk[at], found) then Some(State([found], Off, {}, {}, false)) else None
    case _ => Step(k, s, a)
  }

  function Step(k: Rekey, s: State, a: Act): Option<State> {
    match s.stage
    case Off => if a.Begin? then Some(Started(s)) else None
    case Over => if a.Begin? then Some(Started(s)) else None
    case Between => StepBetween(k, s, a)
    case Probing(path) => StepProbing(k, s, path, a)
    case Copying(path) => StepCopying(k, s, path, a)
    case Writing(path, put) => StepWriting(k, s, path, put, a)
  }

  function Started(s: State): State { State(s.disk, Between, Live(s.disk).Keys, {}, true) }

  /** The walk hands out anything it has not handed out, and ends when it owes nothing. */
  function StepBetween(k: Rekey, s: State, a: Act): Option<State> {
    match a
    case Take(path) =>
      if path !in Live(s.disk) || path in s.settled then None
      else if k.isSealed(path) then Some(s.(stage := Probing(path)))
      else Some(Settle(s, path, true))
    case Finish => if s.todo <= s.settled then Some(s.(stage := Over)) else None
    case _ => None
  }

  function StepProbing(k: Rekey, s: State, path: Path, a: Act): Option<State> {
    if !a.Ask? || path !in Live(s.disk) then None
    else if a.fault then Some(Settle(s, path, false))
    else match k.probe(Live(s.disk)[path].bytes)
      case Err(error) => Some(Settle(s, path, !Recoverable(error)))
      case Ok(opens) => Some(if opens then Settle(s, path, true) else s.(stage := Copying(path)))
  }

  function StepCopying(k: Rekey, s: State, path: Path, a: Act): Option<State> {
    if path !in Live(s.disk) then None
    else match a
      case Fault => Some(Settle(s, path, false))
      case Refuse(nonce) =>
        var copy := k.copy(nonce, Live(s.disk)[path].bytes);
        if copy.Err? then Some(Settle(s, path, !Recoverable(copy.error))) else None
      case Read(nonce, temp) =>
        var copy := k.copy(nonce, Live(s.disk)[path].bytes);
        if copy.Ok? && k.temp(temp) && temp !in Live(s.disk) then
          Some(s.(disk := CreateFile(s.disk, temp), stage := Writing(path, Put(temp, copy.value, Filling(0)))))
        else None
      case _ => None
  }

  /** Flush, rename onto the file's own name, flush the directory: nothing is looked at in between. */
  function StepWriting(k: Rekey, s: State, path: Path, put: Put, a: Act): Option<State> {
    match (put.stage, a)
    case (Filling(done), More(upto)) =>
      if done < upto <= |put.data| then
        Some(s.(disk := WriteFile(s.disk, put.temp, put.data[..upto]), stage := Writing(path, put.(stage := Filling(upto)))))
      else None
    case (Filling(done), Flush) =>
      if done == |put.data| && put.temp in Live(s.disk) then
        Some(s.(disk := FlushFile(s.disk, put.temp), stage := Writing(path, put.(stage := Renaming))))
      else None
    case (Renaming, Rename) =>
      if put.temp in Live(s.disk) then
        Some(s.(disk := Move(s.disk, put.temp, path), stage := Writing(path, put.(stage := Syncing))))
      else None
    case (Syncing, Sync(durable)) => Some(Settle(s.(disk := SyncDir(s.disk, durable)), path, true))
    case (Filling(_), Fail(gone)) => Some(Settle(Dropped(s, put, gone), path, false))
    case (Renaming, Fail(gone)) => Some(Settle(Dropped(s, put, gone), path, false))
    case _ => None
  }

  function Dropped(s: State, put: Put, gone: bool): State {
    s.(disk := if gone then Unlink(s.disk, put.temp) else s.disk)
  }

  ghost function Run(k: Rekey, s: State, acts: seq<Act>): Option<State>
    decreases |acts|
  {
    if acts == [] then Some(s)
    else match Next(k, s, acts[0])
      case None => None
      case Some(s') => Run(k, s', acts[1..])
  }

  /**
  Whatever can happen in a key change may: a file arrives, the power goes and any
  directory state since the last durable one comes back, a probe, a read or a write
  fails; and of a write, the temporary file is left behind or the directory not flushed.
  */
  lemma AnyTrouble(k: Rekey, s: State, path: Path, bytes: Bytes, at: nat, found: Image, yes: bool)
    ensures path !in Live(s.disk) && !k.temp(path) ==>
              Next(k, s, Arrive(path, bytes)) == Some(s.(disk := Change(s.disk, Live(s.disk)[path := Blob(bytes, true)])))
    ensures at < |s.disk| && Survives(s.disk[at], found) ==> Next(k, s, Crash(at, found)) == Some(State([found], Off, {}, {}, false))
    ensures s.stage == Between && path in Live(s.disk) && path !in s.settled && k.isSealed(path) ==>
              Next(k, s, Take(path)) == Some(s.(stage := Probing(path)))
    ensures s.stage == Probing(path) && path in Live(s.disk) ==> Next(k, s, Ask(true)) == Some(Settle(s, path, false))
    ensures s.stage == Copying(path) && path in Live(s.disk) ==> Next(k, s, Fault) == Some(Settle(s, path, false))
  {
    hide Survives;
  }

  lemma AnyTroubleWriting(k: Rekey, s: State, path: Path, put: Put, yes: bool)
    requires s.stage == Writing(path, put)
    ensures !put.stage.Syncing? ==>
              Step(k, s, Fail(yes)) == Some(Settle(s.(disk := if yes then Unlink(s.disk, put.temp) else s.disk), path, false))
    ensures put.stage.Syncing? ==>
              Step(k, s, Sync(yes)) == Some(Settle(s.(disk := if yes then [Live(s.disk)] else s.disk), path, true))
  {
  }

  /** Something went wrong that a later run may mend. */
  predicate Trouble(k: Rekey, s: State, a: Act) {
    match (s.stage, a)
    case (Probing(path), Ask(fault)) =>
      fault || (path in Live(s.disk) && k.probe(Live(s.disk)[path].bytes).Err? && Recoverable(k.probe(Live(s.disk)[path].bytes).error))
    case (Copying(path), Refuse(nonce)) =>
      path in Live(s.disk) && k.copy(nonce, Live(s.disk)[path].bytes).Err? && Recoverable(k.copy(nonce, Live(s.disk)[path].bytes).error)
    case (_, Fault) => true
    case (_, Fail(_)) => true
    case _ => false
  }

  /** A pass begins clean and stays so exactly until such a step, and no file has its turn twice in it. */
  lemma CleanExactly(k: Rekey, s: State, a: Act)
    requires Step(k, s, a).Some?
    ensures a.Begin? ==> Step(k, s, a).value.clean && Step(k, s, a).value.settled == {}
    ensures !a.Begin? ==> (Step(k, s, a).value.clean <==> s.clean && !Trouble(k, s, a)) && s.settled <= Step(k, s, a).value.settled
    ensures a.Take? ==> a.path !in s.settled
  {
  }

  // -- what holds in every state ------------------------------------------

  /** Every sealed file that opened at the start is there, opens, and holds what it held. */
  ghost predicate Keeps(k: Rekey, base: Image, image: Image) {
    forall p | p in base && k.isSealed(p) && Held(k, base[p].bytes).Some? ::
      p in image && image[p].flushed && Held(k, image[p].bytes) == Held(k, base[p].bytes)
  }

  /** Nothing is left for the old key in this file. */
  ghost predicate Moved(k: Rekey, b: Bytes) { k.underOld(b).None? }

  ghost predicate StageOk(k: Rekey, s: State) {
    match s.stage
    case Probing(path) => path in Live(s.disk) && k.isSealed(path)
    case Copying(path) => path in Live(s.disk) && k.isSealed(path) && k.probe(Live(s.disk)[path].bytes) == Ok(false)
    case Writing(path, put) =>
      && path in Live(s.disk) && k.isSealed(path)
      && if put.stage.Syncing? then Moved(k, Live(s.disk)[path].bytes)
         else
           && k.probe(Live(s.disk)[path].bytes) == Ok(false)
           && k.temp(put.temp) && put.temp in Live(s.disk)
           && k.underOld(Live(s.disk)[path].bytes).Some? && k.underNew(put.data) == k.underOld(Live(s.disk)[path].bytes)
           && (put.stage.Renaming? ==> Live(s.disk)[put.temp] == Blob(put.data, true))
           && (put.stage.Filling? ==> put.stage.done <= |put.data| && Live(s.disk)[put.temp].bytes == put.data[..put.stage.done])
    case _ => true
  }

  ghost predicate Inv(k: Rekey, base: Image, s: State) {
    && (forall i | 0 <= i < |s.disk| :: Keeps(k, base, s.disk[i]))
    && StageOk(k, s)
    && (s.clean ==> forall p | p in s.settled && k.isSealed(p) :: p in Live(s.disk) && Moved(k, Live(s.disk)[p].bytes))
    && (s.stage.Over? ==> s.todo <= s.settled)
    && (!s.stage.Off? ==> forall p | p in base && k.isSealed(p) && Held(k, base[p].bytes).Some? :: p in s.todo)
  }

  // -- every step keeps it --------------------------------------------------

  /** What no step of a pass does to a sealed file, except onto the one it is rewriting. */
  ghost predicate Gentle(k: Rekey, d: Disk, d': Disk, path: Option<Path>) {
    && (forall i | 0 <= i < |d'| :: d'[i] in d || d'[i] == Live(d'))
    && (forall p {:trigger Live(d')[p]} {:trigger k.isSealed(p)} | p in Live(d) && k.isSealed(p) && path != Some(p) ::
          p in Live(d') && Live(d')[p] == Live(d)[p])
  }

  lemma GentleKeeps(k: Rekey, base: Image, s: State, d': Disk, path: Option<Path>)
    requires Inv(k, base, s) && Gentle(k, s.disk, d', path)
    requires path.Some? ==>
               && path.value in Live(s.disk) && path.value in Live(d') && Live(d')[path.value].flushed
               && Held(k, Live(d')[path.value].bytes) == Held(k, Live(s.disk)[path.value].bytes)
               && Moved(k, Live(d')[path.value].bytes)
    ensures forall i | 0 <= i < |d'| :: Keeps(k, base, d'[i])
    ensures s.clean ==> forall p | p in s.settled && k.isSealed(p) :: p in Live(d') && Moved(k, Live(d')[p].bytes)
  {
    assert Keeps(k, base, s.disk[|s.disk| - 1]);
  }

  lemma ArriveKeeps(k: Rekey, base: Image, s: State, path: Path, bytes: Bytes)
    requires Sound(k) && Inv(k, base, s) && path !in Live(s.disk) && !k.temp(path)
    ensures Inv(k, base, Next(k, s, Arrive(path, bytes)).value)
  {
    var s' := Next(k, s, Arrive(path, bytes)).value;
    GentleKeeps(k, base, s, s'.disk, None);
  }

  lemma CrashKeeps(k: Rekey, base: Image, s: State, at: nat, found: Image)
    requires Inv(k, base, s) && at < |s.disk| && Survives(s.disk[at], found)
    ensures Inv(k, base, State([found], Off, {}, {}, false))
  {
    assert Keeps(k, base, s.disk[at]);
  }

  lemma ProbingKeeps(k: Rekey, base: Image, s: State, a: Act)
    requires Sound(k) && Inv(k, base, s) && s.stage.Probing? && Step(k, s, a).Some?
    ensures Inv(k, base, Step(k, s, a).value)
  {
  }

  lemma CopyingKeeps(k: Rekey, base: Image, s: State, a: Act)
    requires Sound(k) && Inv(k, base, s) && s.stage.Copying? && Step(k, s, a).Some?
    ensures Inv(k, base, Step(k, s, a).value)
  {
    if a.Read? {
      var s' := Step(k, s, a).value;
      GentleKeeps(k, base, s, s'.disk, None);
      assert s'.stage.put.data[..0] == [];
    }
  }

  lemma WritingKeeps(k: Rekey, base: Image, s: State, a: Act)
    requires Sound(k) && Inv(k, base, s) && s.stage.Writing? && Step(k, s, a).Some?
    ensures Inv(k, base, Step(k, s, a).value)
  {
    var s' := Step(k, s, a).value;
    if a.Rename? {
      RenameKeeps(k, base, s, s'.disk);
    } else if a.Flush? {
      assert s.stage.put.data[..|s.stage.put.data|] == s.stage.put.data;
      GentleKeeps(k, base, s, s'.disk, None);
    } else {
      GentleKeeps(k, base, s, s'.disk, None);
    }
  }

  /** The one step that touches a sealed file: what was under the old key is under the new one. */
  lemma RenameKeeps(k: Rekey, base: Image, s: State, d': Disk)
    requires Sound(k) && Inv(k, base, s) && s.stage.Writing? && s.stage.put.stage.Renaming?
    requires d' == Move(s.disk, s.stage.put.temp, s.stage.path)
    ensures forall i | 0 <= i < |d'| :: Keeps(k, base, d'[i])
    ensures s.clean ==> forall p | p in s.settled && k.isSealed(p) :: p in Live(d') && Moved(k, Live(d')[p].bytes)
    ensures Moved(k, Live(d')[s.stage.path].bytes)
  {
    var path, data := s.stage.path, s.stage.put.data;
    assert Live(d')[path] == Blob(data, true);
    assert k.probe(data) == Ok(true) && k.underNew(Live(s.disk)[path].bytes).None?;
    GentleKeeps(k, base, s, d', Some(path));
  }

  lemma BeginKeeps(k: Rekey, base: Image, s: State)
    requires Inv(k, base, s)
    ensures Inv(k, base, Started(s))
  {
    assert Keeps(k, base, s.disk[|s.disk| - 1]);
  }

  lemma BetweenKeeps(k: Rekey, base: Image, s: State, a: Act)
    requires Inv(k, base, s) && s.stage.Between? && Step(k, s, a).Some?
    ensures Inv(k, base, Step(k, s, a).value)
  {
  }

  lemma PassKeeps(k: Rekey, base: Image, s: State, a: Act)
    requires Sound(k) && Inv(k, base, s) && Step(k, s, a).Some?
    ensures Inv(k, base, Step(k, s, a).value)
  {
    match s.stage
    case Off => BeginKeeps(k, base, s);
    case Over => BeginKeeps(k, base, s);
    case Between => BetweenKeeps(k, base, s, a);
    case Probing(_) => ProbingKeeps(k, base, s, a);
    case Copying(_) => CopyingKeeps(k, base, s, a);
    case Writing(_, _) => WritingKeeps(k, base, s, a);
  }

  lemma StepKeeps(k: Rekey, base: Image, s: State, a: Act)
    requires Sound(k) && Inv(k, base, s) && Next(k, s, a).Some?
    ensures Inv(k, base, Next(k, s, a).value)
  {
    match a
    case Arrive(path, bytes) => ArriveKeeps(k, base, s, path, bytes);
    case Crash(at, found) => CrashKeeps(k, base, s, at, found);
    case _ => PassKeeps(k, base, s, a);
  }

  lemma {:induction false} RunKeeps(k: Rekey, base: Image, s: State, acts: seq<Act>)
    requires Sound(k) && Inv(k, base, s) && Run(k, s, acts).Some?
    ensures Inv(k, base, Run(k, s, acts).value)
    decreases |acts|
  {
    if acts != [] {
      StepKeeps(k, base, s, acts[0]);
      RunKeeps(k, base, Next(k, s, acts[0]).value, acts[1..]);
    }
  }

  // -- the theorems ---------------------------------------------------------

  /** Before a key change: no pass under way, and every sealed file flushed. */
  ghost predicate AtRest(k: Rekey, s: State) {
    && |s.disk| == 1 && s.stage == Off && !s.clean
    && forall p | p in s.disk[0] && k.isSealed(p) :: s.disk[0][p].flushed
  }

  /**
  Resumability. Over any number of passes, each cut off anywhere and started again,
  beside any arrivals: a sealed file that one of the two keys opened whole at the
  start is, in every state and in everything a crash could fall back to, under the
  same name, and one of the two keys opens it whole and finds the same payload.
  */
  lemma {:induction false} NothingIsLost(k: Rekey, s: State, acts: seq<Act>, at: nat, p: Path)
    requires Sound(k) && AtRest(k, s) && Run(k, s, acts).Some? && at < |Run(k, s, acts).value.disk|
    requires p in s.disk[0] && k.isSealed(p) && Held(k, s.disk[0][p].bytes).Some?
    ensures var image := Run(k, s, acts).value.disk[at];
            && p in image && image[p].flushed
            && (k.underNew(image[p].bytes) == Held(k, s.disk[0][p].bytes)
                || k.underOld(image[p].bytes) == Held(k, s.disk[0][p].bytes))
  {
    RunKeeps(k, s.disk[0], s, acts);
    assert Keeps(k, s.disk[0], Run(k, s, acts).value.disk[at]);
  }

  /**
  Completion. When a pass ends with nothing recoverable failed, the old key opens
  whole nothing the walk yielded, and whatever either key opened whole at the start
  opens whole under the new one, with the payload it had.
  */
  lemma {:induction false} FinishedMeansMoved(k: Rekey, s: State, acts: seq<Act>, p: Path)
    requires Sound(k) && AtRest(k, s) && Run(k, s, acts).Some? && k.isSealed(p)
    requires var s' := Run(k, s, acts).value;
             s'.stage == Over && s'.clean && (p in s'.todo || (p in s.disk[0] && Held(k, s.disk[0][p].bytes).Some?))
    ensures var live := Live(Run(k, s, acts).value.disk);
            && p in live && k.underOld(live[p].bytes).None?
            && (p in s.disk[0] && Held(k, s.disk[0][p].bytes).Some? ==>
                  k.underNew(live[p].bytes) == Held(k, s.disk[0][p].bytes))
  {
    RunKeeps(k, s.disk[0], s, acts);
    var s' := Run(k, s, acts).value;
    assert Keeps(k, s.disk[0], s'.disk[|s'.disk| - 1]);
    assert p in s'.settled;
  }

  /**
  Idempotence. What the old key no longer opens is never written again: it keeps its
  bytes through every further pass, whatever fails and whatever arrives.
  */
  lemma {:induction false} MovedStays(k: Rekey, base: Image, s: State, acts: seq<Act>, p: Path)
    requires Sound(k) && Inv(k, base, s) && Run(k, s, acts).Some? && (forall a | a in acts :: !a.Crash?)
    requires p in Live(s.disk) && k.isSealed(p) && Moved(k, Live(s.disk)[p].bytes)
    ensures var live := Live(Run(k, s, acts).value.disk);
            p in live && live[p] == Live(s.disk)[p]
    decreases |acts|
  {
    if acts != [] {
      StepKeeps(k, base, s, acts[0]);
      MovedStep(k, base, s, acts[0], p);
      MovedStays(k, base, Next(k, s, acts[0]).value, acts[1..], p);
    }
  }

  lemma MovedStep(k: Rekey, base: Image, s: State, a: Act, p: Path)
    requires Sound(k) && Inv(k, base, s) && Next(k, s, a).Some? && !a.Crash?
    requires p in Live(s.disk) && k.isSealed(p) && Moved(k, Live(s.disk)[p].bytes)
    ensures var live := Live(Next(k, s, a).value.disk);
            p in live && live[p] == Live(s.disk)[p]
  {
    match s.stage
    case Writing(path, put) => if !a.Arrive? { WritingMoves(k, s, path, put, a, p); }
    case _ =>
  }

  lemma WritingMoves(k: Rekey, s: State, path: Path, put: Put, a: Act, p: Path)
    requires Sound(k) && StageOk(k, s) && s.stage == Writing(path, put) && StepWriting(k, s, path, put, a).Some?
    requires p in Live(s.disk) && k.isSealed(p) && Moved(k, Live(s.disk)[p].bytes)
    ensures var live := Live(StepWriting(k, s, path, put, a).value.disk);
            p in live && live[p] == Live(s.disk)[p]
  {
  }

  /** Everything a crash could fall back to holds these bytes under this name, flushed. */
  ghost predicate HeldAs(d: Disk, p: Path, bytes: Bytes) {
    forall i | 0 <= i < |d| :: p in d[i] && d[i][p] == Blob(bytes, true)
  }

  /**
  And once that is durable, crashes change nothing about it: what the old key no longer
  opens, and every directory state behind holds, they hold for ever.
  */
  lemma {:induction false} MovedForGood(k: Rekey, base: Image, s: State, acts: seq<Act>, p: Path, bytes: Bytes)
    requires Sound(k) && Inv(k, base, s) && Run(k, s, acts).Some?
    requires k.isSealed(p) && Moved(k, bytes) && HeldAs(s.disk, p, bytes)
    ensures HeldAs(Run(k, s, acts).value.disk, p, bytes)
    decreases |acts|
  {
    if acts != [] {
      StepKeeps(k, base, s, acts[0]);
      HeldStep(k, base, s, acts[0], p, bytes);
      MovedForGood(k, base, Next(k, s, acts[0]).value, acts[1..], p, bytes);
    }
  }

  lemma HeldStep(k: Rekey, base: Image, s: State, a: Act, p: Path, bytes: Bytes)
    requires Sound(k) && Inv(k, base, s) && Next(k, s, a).Some?
    requires k.isSealed(p) && Moved(k, bytes) && HeldAs(s.disk, p, bytes)
    ensures HeldAs(Next(k, s, a).value.disk, p, bytes)
  {
    if a.Crash? {
      assert p in s.disk[a.at];
    } else {
      assert Live(s.disk) == s.disk[|s.disk| - 1];
      MovedStep(k, base, s, a, p);
      FallsBack(k, s, a);
    }
  }

  /** What a step leaves to fall back to was there before, or is the live state now. */
  lemma FallsBack(k: Rekey, s: State, a: Act)
    requires Next(k, s, a).Some? && !a.Crash?
    ensures var d := Next(k, s, a).value.disk;
            forall i | 0 <= i < |d| :: d[i] in s.disk || d[i] == Live(d)
  {
    hide Survives;
    if s.stage.Writing? && !a.Arrive? {
      WritingFallsBack(k, s, s.stage.path, s.stage.put, a);
    } else {
      hide StepWriting;
    }
  }

  lemma WritingFallsBack(k: Rekey, s: State, path: Path, put: Put, a: Act)
    requires s.stage == Writing(path, put) && StepWriting(k, s, path, put, a).Some?
    ensures var d := StepWriting(k, s, path, put, a).value.disk;
            forall i | 0 <= i < |d| :: d[i] in s.disk || d[i] == Live(d)
  {
  }
}
