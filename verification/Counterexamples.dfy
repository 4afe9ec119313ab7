/**
What the theorems about runs do not promise, with the runs that show it.

A digest whose good file arrives while a conversion of a damaged one is already on its
way can be lost: the conversion looks at its destination before the writer's rename
and renames after it, and what it renames was never held against the digest. And an
add that finds a name taken answers Exists without a look at the bytes.
*/
module Counterexamples {
  import opened Wrappers
  import Aead
  import opened Frames
  import opened Digests
  import opened Layouts
  import opened TempNames
  import opened Forms
  import opened Disks
  import opened Runs
  import opened RunTheorems

  /** A damaged plain file under a name of its digest's, and a writer about to add that very content. */
  datatype Scene = Scene(
    src: Path, bad: Bytes, digest: Digest,
    nonce: Bytes, convTemp: Path, out: Bytes,
    writer: Writer, temp: Path, data: Bytes)

  ghost predicate Staged(cfg: Config, c: Scene) {
    && cfg.named(c.src) == Some((c.digest, Raw)) && !cfg.temp(c.src) && cfg.fits(c.digest)
    && (forall f: Form :: cfg.place(c.digest, f) != c.src)
    && cfg.temp(c.convTemp) && cfg.temp(c.temp) && c.temp != c.convTemp
    && cfg.repack(c.nonce, Raw, Zstd, c.bad) == Some(c.out) && c.out != []
    && !cfg.good(Raw, c.bad, c.digest)
    && DigestOf(cfg, c.writer) == c.digest && DataOf(cfg, c.writer) == Some(c.data) && c.data != []
    && c.writer.form == Zstd && c.writer.first == Raw && !c.writer.streaming && !c.writer.looked
    && c.writer.stage == FirstStage(c.writer)
  }

  /** At rest: only the damaged file is there. */
  function Before(c: Scene): State { State([map[c.src := Blob(c.bad, true)]], map[], Idle) }

  function Dest(cfg: Config, c: Scene): Path { cfg.place(c.digest, Zstd) }

  function Rewrite(c: Scene): Job { Job(c.src, c.digest, Raw, Zstd) }

  function ConvPut(cfg: Config, c: Scene, stage: Stage): Put { Put(c.convTemp, Dest(cfg, c), c.out, stage) }

  function WriterPut(cfg: Config, c: Scene, stage: Stage): Put { Put(c.temp, Dest(cfg, c), c.data, stage) }

  /** One more directory state, with a temporary file of this content in it. */
  function With(d: Disk, temp: Path, bytes: Bytes, flushed: bool): Disk {
    d + [Live(d)[temp := Blob(bytes, flushed)]]
  }

  /** The conversion has written and flushed its file. */
  function Ready(c: Scene): Disk { With(Before(c).disk, c.convTemp, c.out, true) }

  /** The conversion is about to rename, the writer is at this stage. */
  function During(cfg: Config, c: Scene, d: Disk, stage: WriterStage): State {
    State(d, map[0 := c.writer.(stage := stage)], Writing(Rewrite(c), ConvPut(cfg, c, Renaming)))
  }

  ghost predicate Reaches(cfg: Config, s: State, acts: seq<Act>, s': State) { Run(cfg, s, acts) == Some(s') }

  lemma {:induction false} Then(cfg: Config, s: State, acts: seq<Act>, mid: State, a: Act, s': State) returns (more: seq<Act>)
    requires Reaches(cfg, s, acts, mid) && Next(cfg, mid, a) == Some(s')
    ensures more == acts + [a] && Reaches(cfg, s, more, s')
    decreases |acts|
  {
    more := acts + [a];
    if acts == [] {
      assert Run(cfg, s', []) == Some(s');
    } else {
      assert more[1..] == acts[1..] + [a];
      var _ := Then(cfg, Next(cfg, s, acts[0]).value, acts[1..], mid, a, s');
    }
  }

  /** Writing, flushing and looking, as one temporary file goes through them. */
  lemma PutSteps(d: Disk, put: Put)
    requires put.temp !in Live(d) && put.dest !in Live(d) && put.temp != put.dest && put.data != []
    ensures CreateFile(d, put.temp) == With(d, put.temp, [], false)
    ensures PutNext(With(d, put.temp, [], false), put.(stage := Filling(0)), More(|put.data|))
            == Some((With(d, put.temp, put.data, false), put.(stage := Filling(|put.data|))))
    ensures PutNext(With(d, put.temp, put.data, false), put.(stage := Filling(|put.data|)), Flush)
            == Some((With(d, put.temp, put.data, true), put.(stage := Checking)))
    ensures PutNext(With(d, put.temp, put.data, true), put.(stage := Checking), Check)
            == Some((With(d, put.temp, put.data, true), put.(stage := Renaming)))
  {
    assert put.data[..|put.data|] == put.data;
    Overwrite(d, put.temp, Blob([], false), Blob(put.data, false));
    Overwrite(d, put.temp, Blob(put.data, false), Blob(put.data, true));
  }

  lemma Overwrite(d: Disk, temp: Path, b: Blob, b': Blob)
    ensures Touch(With(d, temp, b.bytes, b.flushed), Live(With(d, temp, b.bytes, b.flushed))[temp := b'])
            == With(d, temp, b'.bytes, b'.flushed)
  {
    assert Live(d)[temp := b][temp := b'] == Live(d)[temp := b'];
  }

  lemma ConvLift(cfg: Config, s: State, job: Job, put: Put, op: Op)
    requires s.conv == Writing(job, put) && PutNext(s.disk, put, op).Some?
    ensures var (d', put') := PutNext(s.disk, put, op).value;
            Next(cfg, s, Convert(op)) == Some(s.(disk := d', conv := AfterWriting(job, put')))
  {
  }

  lemma WriterLift(cfg: Config, c: Scene, d: Disk, stage: WriterStage, op: Op, d': Disk, stage': WriterStage)
    requires WriterNext(cfg, d, c.writer.(stage := stage), op) == Some((d', c.writer.(stage := stage')))
    ensures Next(cfg, During(cfg, c, d, stage), Write(0, op)) == Some(During(cfg, c, d', stage'))
  {
    assert map[0 := c.writer.(stage := stage)][0 := c.writer.(stage := stage')] == map[0 := c.writer.(stage := stage')];
  }

  lemma CallLift(cfg: Config, c: Scene, s: State)
    requires Staged(cfg, c) && s.writers == map[]
    ensures Next(cfg, s, Call(0, c.writer)) == Some(s.(writers := map[0 := c.writer.(stage := Looking([Raw, Zstd, Enc], None))]))
  {
    assert FirstStage(c.writer) == Looking([Raw, Zstd, Enc], None);
    assert s.writers[0 := c.writer] == map[0 := c.writer];
  }

  /** None of the digest's own names is taken until the writer's rename. */
  lemma Absent(cfg: Config, c: Scene)
    requires Sound(cfg) && Staged(cfg, c)
    ensures forall f: Form :: cfg.place(c.digest, f) !in Live(Ready(c))
    ensures Dest(cfg, c) != c.convTemp && Dest(cfg, c) != c.temp && c.temp !in Live(Ready(c))
  {
    forall f: Form
      ensures cfg.place(c.digest, f) != c.convTemp && cfg.place(c.digest, f) != c.temp
    {
      assert cfg.named(cfg.place(c.digest, f)).Some? && cfg.named(c.convTemp).None? && cfg.named(c.temp).None?;
    }
  }

  /** The conversion looks at its destination, finds it free, rewrites, and is about to rename. */
  lemma {:induction false} Poise(cfg: Config, c: Scene) returns (acts: seq<Act>)
    requires Sound(cfg) && Staged(cfg, c)
    ensures Reaches(cfg, Before(c), acts, State(Ready(c), map[], Writing(Rewrite(c), ConvPut(cfg, c, Renaming))))
  {
    Absent(cfg, c);
    var s, d := Before(c), Before(c).disk;
    var put := ConvPut(cfg, c, Filling(0));
    PutSteps(d, put);
    assert Reaches(cfg, s, [], s);
    acts := Then(cfg, s, [], s, Convert(Start(c.src, Zstd)), s.(conv := Considering(Rewrite(c))));
    acts := Then(cfg, s, acts, s.(conv := Considering(Rewrite(c))), Convert(Look), s.(conv := Opening(Rewrite(c))));
    var s1 := State(With(d, c.convTemp, [], false), map[], Writing(Rewrite(c), put));
    acts := Then(cfg, s, acts, s.(conv := Opening(Rewrite(c))), Convert(Read(c.nonce, c.convTemp)), s1);
    ConvLift(cfg, s1, Rewrite(c), put, More(|c.out|));
    var s2 := State(With(d, c.convTemp, c.out, false), map[], Writing(Rewrite(c), put.(stage := Filling(|c.out|))));
    acts := Then(cfg, s, acts, s1, Convert(More(|c.out|)), s2);
    ConvLift(cfg, s2, Rewrite(c), put.(stage := Filling(|c.out|)), Flush);
    var s3 := State(Ready(c), map[], Writing(Rewrite(c), put.(stage := Checking)));
    acts := Then(cfg, s, acts, s2, Convert(Flush), s3);
    ConvLift(cfg, s3, Rewrite(c), put.(stage := Checking), Check);
    acts := Then(cfg, s, acts, s3, Convert(Check), State(Ready(c), map[], Writing(Rewrite(c), ConvPut(cfg, c, Renaming))));
  }

  /** The writer looks the digest up and finds it under none of its names. */
  lemma {:induction false} Miss(cfg: Config, c: Scene, acts: seq<Act>) returns (more: seq<Act>)
    requires Sound(cfg) && Staged(cfg, c)
    requires Reaches(cfg, Before(c), acts, State(Ready(c), map[], Writing(Rewrite(c), ConvPut(cfg, c, Renaming))))
    ensures Reaches(cfg, Before(c), more, During(cfg, c, Ready(c), Creating))
  {
    Absent(cfg, c);
    var d := Ready(c);
    var s := State(d, map[], Writing(Rewrite(c), ConvPut(cfg, c, Renaming)));
    CallLift(cfg, c, s);
    more := Then(cfg, Before(c), acts, s, Call(0, c.writer), During(cfg, c, d, Looking([Raw, Zstd, Enc], None)));
    more := LookOn(cfg, c, more, [Raw, Zstd, Enc]);
    assert [Raw, Zstd, Enc][1..] == [Zstd, Enc];
    more := LookOn(cfg, c, more, [Zstd, Enc]);
    assert [Zstd, Enc][1..] == [Enc];
    more := LookOn(cfg, c, more, [Enc]);
    assert [Enc][1..] == [];
    WriterLift(cfg, c, d, Looking([], None), Look, d, Creating);
    more := Then(cfg, Before(c), more, During(cfg, c, d, Looking([], None)), Write(0, Look), During(cfg, c, d, Creating));
  }

  lemma LookOn(cfg: Config, c: Scene, acts: seq<Act>, left: seq<Form>) returns (more: seq<Act>)
    requires Sound(cfg) && Staged(cfg, c) && left != []
    requires Reaches(cfg, Before(c), acts, During(cfg, c, Ready(c), Looking(left, None)))
    ensures Reaches(cfg, Before(c), more, During(cfg, c, Ready(c), Looking(left[1..], None)))
  {
    Absent(cfg, c);
    WriterLift(cfg, c, Ready(c), Looking(left, None), Look, Ready(c), Looking(left[1..], None));
    more := Then(cfg, Before(c), acts, During(cfg, c, Ready(c), Looking(left, None)), Write(0, Look),
                 During(cfg, c, Ready(c), Looking(left[1..], None)));
  }

  /** The writer's file, written, flushed, and its name found free. */
  function Held(c: Scene): Disk { With(Ready(c), c.temp, c.data, true) }

  lemma {:induction false} WriteOut(cfg: Config, c: Scene, acts: seq<Act>) returns (more: seq<Act>)
    requires Sound(cfg) && Staged(cfg, c) && Reaches(cfg, Before(c), acts, During(cfg, c, Ready(c), Creating))
    ensures Reaches(cfg, Before(c), more, During(cfg, c, Held(c), Putting(WriterPut(cfg, c, Renaming))))
  {
    Absent(cfg, c);
    var s, d, put, n := Before(c), Ready(c), WriterPut(cfg, c, Filling(0)), |c.data|;
    PutSteps(d, put);
    var d0, d1 := With(d, c.temp, [], false), With(d, c.temp, c.data, false);
    WriterLift(cfg, c, d, Creating, Create(c.temp), d0, Putting(put));
    more := Then(cfg, s, acts, During(cfg, c, d, Creating), Write(0, Create(c.temp)), During(cfg, c, d0, Putting(put)));
    var put1, put2 := put.(stage := Filling(n)), put.(stage := Checking);
    WriterLift(cfg, c, d0, Putting(put), More(n), d1, Putting(put1));
    more := Then(cfg, s, more, During(cfg, c, d0, Putting(put)), Write(0, More(n)), During(cfg, c, d1, Putting(put1)));
    WriterLift(cfg, c, d1, Putting(put1), Flush, Held(c), Putting(put2));
    more := Then(cfg, s, more, During(cfg, c, d1, Putting(put1)), Write(0, Flush), During(cfg, c, Held(c), Putting(put2)));
    WriterLift(cfg, c, Held(c), Putting(put2), Check, Held(c), Putting(WriterPut(cfg, c, Renaming)));
    more := Then(cfg, s, more, During(cfg, c, Held(c), Putting(put2)), Write(0, Check),
                 During(cfg, c, Held(c), Putting(WriterPut(cfg, c, Renaming))));
  }

  /** The writer has its answer: New, renamed and durable. */
  function Answer(cfg: Config, c: Scene): State {
    During(cfg, c, [Live(Move(Held(c), c.temp, Dest(cfg, c)))], Done(New))
  }

  lemma {:induction false} PlaceIt(cfg: Config, c: Scene, acts: seq<Act>) returns (more: seq<Act>)
    requires Sound(cfg) && Staged(cfg, c)
    requires Reaches(cfg, Before(c), acts, During(cfg, c, Held(c), Putting(WriterPut(cfg, c, Renaming))))
    ensures Reaches(cfg, Before(c), more, Answer(cfg, c))
  {
    var put, put1 := WriterPut(cfg, c, Renaming), WriterPut(cfg, c, Syncing);
    var d := Move(Held(c), c.temp, Dest(cfg, c));
    WriterLift(cfg, c, Held(c), Putting(put), Rename, d, Putting(put1));
    more := Then(cfg, Before(c), acts, During(cfg, c, Held(c), Putting(put)), Write(0, Rename), During(cfg, c, d, Putting(put1)));
    WriterLift(cfg, c, d, Putting(put1), Sync(true), [Live(d)], Done(New));
    more := Then(cfg, Before(c), more, During(cfg, c, d, Putting(put1)), Write(0, Sync(true)), Answer(cfg, c));
  }

  /**
  The property "a digest that has a good file keeps one", claimed of digests that come
  good during a run, is false: from a store at rest the run below gets an `add` its
  durable New, everything a crash could bring back holds the content, and the next
  step of the conversion takes it away.
  */
  lemma {:induction false} LaterGoodCanBeLost(cfg: Config, c: Scene) returns (acts: seq<Act>)
    requires Sound(cfg) && Staged(cfg, c)
    ensures AtRest(cfg, {c.digest}, Before(c))
    ensures Run(cfg, Before(c), acts) == Some(Answer(cfg, c)) && Kept(cfg, OwnPlaces, Answer(cfg, c).disk, c.digest)
    ensures var lost := Next(cfg, Answer(cfg, c), Convert(Rename));
            lost.Some? && !Kept(cfg, Anywhere, lost.value.disk, c.digest)
  {
    acts := Poise(cfg, c);
    acts := Miss(cfg, c, acts);
    acts := WriteOut(cfg, c, acts);
    acts := PlaceIt(cfg, c, acts);
    GoodThenGone(cfg, c);
  }

  lemma GoodThenGone(cfg: Config, c: Scene)
    requires Sound(cfg) && Staged(cfg, c)
    ensures Kept(cfg, OwnPlaces, Answer(cfg, c).disk, c.digest)
    ensures var lost := Next(cfg, Answer(cfg, c), Convert(Rename));
            lost.Some? && !Kept(cfg, Anywhere, lost.value.disk, c.digest)
  {
    Absent(cfg, c);
    var dest, d := Dest(cfg, c), Answer(cfg, c).disk;
    assert cfg.named(dest) == Some((c.digest, Zstd)) && cfg.named(c.convTemp).None?;
    assert Counts(cfg, OwnPlaces, dest, c.digest) && IsGood(cfg, Live(d), dest, c.digest);
    ConvLift(cfg, Answer(cfg, c), Rewrite(c), ConvPut(cfg, c, Renaming), Rename);
    var lost := Move(d, c.convTemp, dest);
    var gone := lost[|lost| - 1];
    assert gone[dest].bytes == c.out && !cfg.good(Zstd, c.out, c.digest);
    assert forall p | p in gone :: p == c.src || p == dest;
    assert !HasGood(cfg, Anywhere, gone, c.digest);
  }

  // -- a damaged entry answers for its content --------------------------------

  /**
  An add looks at names and opens nothing. From any store
  at rest in which one of the digest's three names is taken and nothing good of the
  digest is there, the add answers Exists and writes nothing.
  */
  lemma {:induction false} ExistsTrustsTheName(cfg: Config, suspect: set<Digest>, s: State, writer: Writer, among: Where)
    returns (acts: seq<Act>)
    requires Sound(cfg) && AtRest(cfg, suspect, s) && cfg.fits(DigestOf(cfg, writer))
    requires !writer.streaming && !writer.looked && writer.stage == FirstStage(writer)
    requires exists f: Form :: cfg.place(DigestOf(cfg, writer), f) in s.disk[0]
    requires !HasGood(cfg, among, s.disk[0], DigestOf(cfg, writer))
    ensures Run(cfg, s, acts) == Some(s.(writers := map[0 := writer.(stage := Done(Exists))]))
    ensures var end := Run(cfg, s, acts).value;
            end.disk == s.disk && !HasGood(cfg, among, Live(end.disk), DigestOf(cfg, writer))
  {
    var left := writer.first.WithOthersAfter();
    forall f: Form
      ensures f in left
    {
      AllForms(writer.first, f);
    }
    assert writer.(stage := Looking(left, None)) == writer;
    assert s.writers[0 := writer] == map[0 := writer];
    assert Reaches(cfg, s, [], s);
    acts := Then(cfg, s, [], s, Call(0, writer), Called(s, writer, left));
    acts := LookUntilHit(cfg, s, writer, acts, left);
  }

  lemma AllForms(first: Form, f: Form)
    ensures f in first.WithOthersAfter()
  {
    var forms := first.WithOthersAfter();
    assert forms[0] in forms && forms[1] in forms && forms[2] in forms;
  }

  function Called(s: State, writer: Writer, left: seq<Form>): State {
    s.(writers := map[0 := writer.(stage := Looking(left, None))])
  }

  lemma {:induction false} LookUntilHit(cfg: Config, s: State, writer: Writer, acts: seq<Act>, left: seq<Form>) returns (more: seq<Act>)
    requires Reaches(cfg, s, acts, Called(s, writer, left))
    requires exists f :: f in left && cfg.place(DigestOf(cfg, writer), f) in Live(s.disk)
    ensures Reaches(cfg, s, more, s.(writers := map[0 := writer.(stage := Done(Exists))]))
    decreases |left|
  {
    var looking := writer.(stage := Looking(left, None));
    var stage := if cfg.place(DigestOf(cfg, writer), left[0]) in Live(s.disk) then Done(Exists) else Looking(left[1..], None);
    assert Called(s, writer, left).writers[0 := writer.(stage := stage)] == map[0 := writer.(stage := stage)];
    assert left == [left[0]] + left[1..];
    more := Then(cfg, s, acts, Called(s, writer, left), Write(0, Look), s.(writers := map[0 := writer.(stage := stage)]));
    if stage != Done(Exists) {
      more := LookUntilHit(cfg, s, writer, more, left[1..]);
    }
  }

  // -- such a scene exists -----------------------------------------------------

  function EmptyIsZero(content: Bytes): Digest { if content == [] then "00" else "01" }

  /** A decoder that drops the byte its compressor put in front. */
  function ExampleCodec(): Codec {
    Codec(x => [Aead.Plain(7)] + x, x => if x == [] then None else Some(x[1..]), EmptyIsZero)
  }

  /** A store that shards one level deep. */
  function Example(): Config { ConfigOf(Layout("", 1), ExampleCodec(), None) }

  /** A copy of something else under the name of empty content, outside the shard it belongs in. */
  function ExampleScene(): (c: Scene) {
    var prefix := seq(PREFIX, _ => Aead.Plain(0));
    Scene(
      ["00"], [Aead.Plain(1)], "00",
      prefix, [DIR, TempName(1, 1)], [Aead.Plain(7)] + [Aead.Plain(1)],
      Writer([], prefix, Zstd, Raw, false, false, Looking([Raw, Zstd, Enc], None)),
      [DIR, TempName(1, 2)], [Aead.Plain(7)] + [])
  }

  lemma ExampleNames()
    ensures var cfg, c := Example(), ExampleScene();
            && cfg.named(c.src) == Some((c.digest, Raw)) && cfg.fits(c.digest)
            && forall f: Form :: cfg.place(c.digest, f) != c.src
  {
    NameRoundTrip(Layout("", 1), "00", Raw);
    assert Layout("", 1).FileName("00", Raw) == "00";
  }

  lemma ExampleTemps()
    ensures var cfg, c := Example(), ExampleScene();
            cfg.temp(c.convTemp) && cfg.temp(c.temp) && c.temp != c.convTemp && !cfg.temp(c.src)
  {
    TempNameRoundTrip(1, 1, 1, 2);
    TempNameRoundTrip(1, 2, 1, 1);
  }

  lemma ExampleBytes()
    ensures var cfg, c := Example(), ExampleScene();
            && cfg.repack(c.nonce, Raw, Zstd, c.bad) == Some(c.out) && c.out != []
            && !cfg.good(Raw, c.bad, c.digest)
            && DigestOf(cfg, c.writer) == c.digest && DataOf(cfg, c.writer) == Some(c.data) && c.data != []
  {
  }

  lemma {:induction false} ExampleStaged()
    ensures Sound(Example()) && Staged(Example(), ExampleScene())
  {
    assert Lawful(ExampleCodec());
    ConfigIsSound(Layout("", 1), ExampleCodec(), None);
    ExampleTemps();
    ExampleNames();
    ExampleBytes();
  }

  /** Empty content, added to a store that holds a damaged compressed file under its name and nothing else. */
  lemma {:induction false} ExampleExists() returns (acts: seq<Act>)
    ensures var cfg, writer := Example(), ExampleScene().writer;
            var s := State([map[cfg.place("00", Zstd) := Blob([Aead.Plain(7), Aead.Plain(1)], true)]], map[], Idle);
            && Sound(cfg) && AtRest(cfg, {"00"}, s) && DigestOf(cfg, writer) == "00"
            && Run(cfg, s, acts) == Some(s.(writers := map[0 := writer.(stage := Done(Exists))]))
            && !HasGood(cfg, Anywhere, s.disk[0], "00")
  {
    var cfg, writer := Example(), ExampleScene().writer;
    var p, bad := Example().place("00", Zstd), [Aead.Plain(7), Aead.Plain(1)];
    var s := State([map[p := Blob(bad, true)]], map[], Idle);
    ExampleStaged();
    assert cfg.named(p) == Some(("00", Zstd));
    ExampleBad(bad);
    acts := ExistsTrustsTheName(cfg, {"00"}, s, writer, Anywhere);
  }

  lemma ExampleBad(bad: Bytes)
    requires bad == [Aead.Plain(7), Aead.Plain(1)]
    ensures !Example().good(Zstd, bad, "00")
  {
    assert bad[1..] == [Aead.Plain(1)];
  }
}
