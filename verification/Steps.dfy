/** A call on its own, as a run of the step machines. */
module Steps {
  import opened Wrappers
  import opened Layouts
  import opened Disks
  import opened FileSystems
  import R = Runs
  import K = KeyChange
  import opened TempFiles

  // -- a writer -------------------------------------------------------------

  /** The steps of one writer, one after another. */
  function WriterRun(cfg: R.Config, d: Disk, w: R.Writer, ops: seq<R.Op>): Option<(Disk, R.Writer)>
    decreases |ops|
  {
    if ops == [] then Some((d, w))
    else match R.WriterNext(cfg, d, w, ops[0])
      case None => None
      case Some((d', w')) => WriterRun(cfg, d', w', ops[1..])
  }

  /** From one stage of a call to another. */
  ghost predicate Writes(cfg: R.Config, d: Disk, w: R.Writer, ops: seq<R.Op>, d': Disk, stage: R.WriterStage) {
    WriterRun(cfg, d, w, ops) == Some((d', w.(stage := stage)))
  }

  lemma {:induction false} WritesThen(cfg: R.Config, d: Disk, w: R.Writer, ops: seq<R.Op>, mid: Disk, at: R.WriterStage,
                                      more: seq<R.Op>, d': Disk, stage: R.WriterStage)
    requires Writes(cfg, d, w, ops, mid, at) && Writes(cfg, mid, w.(stage := at), more, d', stage)
    ensures Writes(cfg, d, w, ops + more, d', stage)
    decreases |ops|
  {
    if ops == [] {
      assert [] + more == more;
    } else {
      var (d1, w1) := R.WriterNext(cfg, d, w, ops[0]).value;
      assert (ops + more)[0] == ops[0] && (ops + more)[1..] == ops[1..] + more;
      WritesTail(cfg, d1, w1, ops[1..], mid, w.(stage := at), more, d', w.(stage := stage));
    }
  }

  lemma {:induction false} WritesTail(cfg: R.Config, d: Disk, w: R.Writer, ops: seq<R.Op>, mid: Disk, at: R.Writer,
                                      more: seq<R.Op>, d': Disk, w': R.Writer)
    requires WriterRun(cfg, d, w, ops) == Some((mid, at)) && WriterRun(cfg, mid, at, more) == Some((d', w'))
    ensures WriterRun(cfg, d, w, ops + more) == Some((d', w'))
    decreases |ops|
  {
    if ops == [] {
      assert [] + more == more;
    } else {
      var (d1, w1) := R.WriterNext(cfg, d, w, ops[0]).value;
      assert (ops + more)[0] == ops[0] && (ops + more)[1..] == ops[1..] + more;
      WritesTail(cfg, d1, w1, ops[1..], mid, at, more, d', w');
    }
  }

  lemma WritesOne(cfg: R.Config, d: Disk, w: R.Writer, op: R.Op, d': Disk, stage: R.WriterStage)
    requires R.WriterNext(cfg, d, w, op) == Some((d', w.(stage := stage)))
    ensures Writes(cfg, d, w, [op], d', stage)
  {
    assert [op][1..] == [];
  }

  predicate Over(put: R.Put) { put.stage.Placed? || put.stage.Lost? || put.stage.Broken? }

  lemma OverEnds(d: Disk, put: R.Put, ops: seq<R.Op>, d': Disk, put': R.Put)
    requires Over(put) && Takes(d, put, ops, d', put')
    ensures ops == [] && d' == d && put' == put
  {
    OverStops(d, put);
  }

  lemma OverStops(d: Disk, put: R.Put)
    requires Over(put)
    ensures forall op :: R.PutNext(d, put, op).None?
  {
  }

  /** What a temporary file goes through on its way to a name, its writer goes through. */
  lemma {:induction false} PutWrites(cfg: R.Config, d: Disk, w: R.Writer, put: R.Put, ops: seq<R.Op>, d': Disk, put': R.Put)
    requires !w.streaming && w.stage == R.Putting(put) && !Over(put) && Takes(d, put, ops, d', put')
    ensures Writes(cfg, d, w, ops, d', R.AfterPut(put'))
    decreases |ops|
  {
    if ops != [] {
      var (d1, put1) := R.PutNext(d, put, ops[0]).value;
      var w1 := w.(stage := R.AfterPut(put1));
      assert R.WriterNext(cfg, d, w, ops[0]) == Some((d1, w1));
      if Over(put1) {
        OverEnds(d1, put1, ops[1..], d', put');
      } else {
        PutWrites(cfg, d1, w1, put1, ops[1..], d', put');
      }
    }
  }

  /** Where a call stands once its file was to get its name. */
  function Named(placed: Result<bool, Kind>): R.WriterStage {
    match placed
    case Ok(true) => R.Done(R.New)
    case Ok(false) => R.Comparing
    case Err(_) => R.GaveUp
  }

  lemma NameWrites(cfg: R.Config, d: Disk, w: R.Writer, put: R.Put, ops: seq<R.Op>, d': Disk, placed: Result<bool, Kind>)
    requires !w.streaming && w.stage == R.Putting(put) && put.stage.Filling?
    requires Takes(d, put, ops, d', put.(stage := TempFile.EndOf(placed)))
    ensures Writes(cfg, d, w, ops, d', Named(placed))
  {
    hide Writes, Takes;
    PutWrites(cfg, d, w, put, ops, d', put.(stage := TempFile.EndOf(placed)));
  }

  /** A write that comes to nothing. */
  lemma GivesUp(cfg: R.Config, d: Disk, w: R.Writer, put: R.Put, gone: bool)
    requires !w.streaming && w.stage == R.Putting(put) && put.stage.Filling?
    ensures Writes(cfg, d, w, [R.Fail(gone)], R.Remove(d, put.temp, gone), R.GaveUp)
  {
    WritesOne(cfg, d, w, R.Fail(gone), R.Remove(d, put.temp, gone), R.GaveUp);
  }

  /** A lost race is settled by what lies there, or not at all. */
  lemma Settles(cfg: R.Config, d: Disk, w: R.Writer, placed: Disk, ops: seq<R.Op>)
    requires Writes(cfg, d, w, ops, placed, R.Comparing)
    ensures var good := R.DestOf(cfg, w) in Live(placed)
                        && cfg.good(w.form, Live(placed)[R.DestOf(cfg, w)].bytes, R.DigestOf(cfg, w));
            && Writes(cfg, d, w, ops + [R.Compare], placed, if good then R.Done(R.New) else R.GaveUp)
            && Writes(cfg, d, w, ops + [R.Fail(false)], placed, R.GaveUp)
  {
    var at := w.(stage := R.Comparing);
    var good := R.DestOf(cfg, w) in Live(placed)
                && cfg.good(w.form, Live(placed)[R.DestOf(cfg, w)].bytes, R.DigestOf(cfg, w));
    var end := if good then R.Done(R.New) else R.GaveUp;
    WritesOne(cfg, placed, at, R.Compare, placed, end);
    WritesThen(cfg, d, w, ops, placed, R.Comparing, [R.Compare], placed, end);
    WritesOne(cfg, placed, at, R.Fail(false), placed, R.GaveUp);
    WritesThen(cfg, d, w, ops, placed, R.Comparing, [R.Fail(false)], placed, R.GaveUp);
  }

  /** The looks of a lookup: one that hits ends the call, three that miss let it write. */
  lemma {:induction false} Looks(cfg: R.Config, d: Disk, w: R.Writer, left: seq<Form>) returns (ops: seq<R.Op>)
    requires w.stage == R.Looking(left, None)
    ensures Writes(cfg, d, w, ops, d,
                   if exists f | f in left :: cfg.place(R.DigestOf(cfg, w), f) in Live(d) then R.Done(R.Exists) else R.Creating)
    decreases |left|
  {
    if left == [] {
      ops := [R.Look];
      WritesOne(cfg, d, w, R.Look, d, R.Creating);
    } else if cfg.place(R.DigestOf(cfg, w), left[0]) in Live(d) {
      ops := [R.Look];
      assert left[0] in left;
      WritesOne(cfg, d, w, R.Look, d, R.Done(R.Exists));
    } else {
      var next := R.Looking(left[1..], None);
      var rest := Looks(cfg, d, w.(stage := next), left[1..]);
      WritesOne(cfg, d, w, R.Look, d, next);
      assert forall f :: f in left <==> f == left[0] || f in left[1..];
      ops := [R.Look] + rest;
      WritesThen(cfg, d, w, [R.Look], d, next, rest, d,
                 if exists f | f in left :: cfg.place(R.DigestOf(cfg, w), f) in Live(d) then R.Done(R.Exists) else R.Creating);
    }
  }

  // -- a streaming call -----------------------------------------------------

  lemma RunOne(cfg: R.Config, d: Disk, w: R.Writer, op: R.Op, d': Disk, w': R.Writer)
    requires R.WriterNext(cfg, d, w, op) == Some((d', w'))
    ensures WriterRun(cfg, d, w, [op]) == Some((d', w'))
  {
    assert [op][1..] == [];
  }

  /** The looks of a call that has its file already: one that hits gives the file up, three that miss resume the write. */
  lemma {:induction false} LooksHolding(cfg: R.Config, d: Disk, w: R.Writer, left: seq<Form>, put: R.Put) returns (ops: seq<R.Op>)
    requires w.stage == R.Looking(left, Some(put))
    ensures var hit := exists f | f in left :: cfg.place(R.DigestOf(cfg, w), f) in Live(d);
            WriterRun(cfg, d, w, ops) == Some((d, w.(stage := if hit then R.Leaving(put.temp) else R.Putting(put))))
    decreases |left|
  {
    ops := [R.Look];
    if left == [] {
      RunOne(cfg, d, w, R.Look, d, w.(stage := R.Putting(put)));
    } else if cfg.place(R.DigestOf(cfg, w), left[0]) in Live(d) {
      assert left[0] in left;
      RunOne(cfg, d, w, R.Look, d, w.(stage := R.Leaving(put.temp)));
    } else {
      var next := w.(stage := R.Looking(left[1..], Some(put)));
      var rest := LooksHolding(cfg, d, next, left[1..], put);
      RunOne(cfg, d, w, R.Look, d, next);
      assert forall f :: f in left <==> f == left[0] || f in left[1..];
      ops := [R.Look] + rest;
      WritesTail(cfg, d, w, [R.Look], d, next, rest, d, WriterRun(cfg, d, next, rest).value.1);
    }
  }

  /** Its file, written whole before the digest was known. */
  ghost function Streamed(cfg: R.Config, w: R.Writer, temp: Path): R.Put
    requires R.DataOf(cfg, w).Some?
  {
    var data := R.DataOf(cfg, w).value;
    R.Put(temp, R.DestOf(cfg, w), data, R.Filling(|data|))
  }

  /** A streaming call writes first and looks then. */
  lemma {:induction false} StreamsIn(cfg: R.Config, d: Disk, w: R.Writer, temp: Path) returns (ops: seq<R.Op>)
    requires w.streaming && !w.looked && w.stage == R.Creating && cfg.temp(temp) && temp !in Live(d) && R.DataOf(cfg, w).Some?
    requires forall f: Form :: cfg.place(R.DigestOf(cfg, w), f) != temp
    ensures var full := WriteFile(CreateFile(d, temp), temp, R.DataOf(cfg, w).value);
            var hit := exists f: Form :: cfg.place(R.DigestOf(cfg, w), f) in Live(d);
            WriterRun(cfg, d, w, ops)
            == Some((full, w.(looked := true, stage := if hit then R.Leaving(temp) else R.Putting(Streamed(cfg, w, temp)))))
  {
    var put := Streamed(cfg, w, temp);
    var created, empty := CreateFile(d, temp), put.(stage := R.Filling(0));
    var full := WriteFile(created, temp, put.data);
    var at := w.(stage := R.Putting(empty));
    RunOne(cfg, d, w, R.Create(temp), created, at);
    var fill := Fills(created, empty, |put.data|);
    assert put.data[..|put.data|] == put.data;
    StreamsFill(cfg, created, at, empty, fill, full, put);
    WritesTail(cfg, d, w, [R.Create(temp)], created, at, fill, full, w.(stage := R.Putting(put)));
    var looking := w.(looked := true, stage := R.Looking(w.first.WithOthersAfter(), Some(put)));
    RunOne(cfg, full, w.(stage := R.Putting(put)), R.Look, full, looking);
    WritesTail(cfg, d, w, [R.Create(temp)] + fill, full, w.(stage := R.Putting(put)), [R.Look], full, looking);
    var looks := LooksHolding(cfg, full, looking, w.first.WithOthersAfter(), put);
    WritesTail(cfg, d, w, [R.Create(temp)] + fill + [R.Look], full, looking, looks, full, WriterRun(cfg, full, looking, looks).value.1);
    AllForms(w.first);
    ops := [R.Create(temp)] + fill + [R.Look] + looks;
  }

  lemma AllForms(first: Form)
    ensures forall f: Form :: f in first.WithOthersAfter()
  {
    var all := first.WithOthersAfter();
    assert all[0] in all && all[1] in all && all[2] in all;
    forall f: Form
      ensures f in all
    {
      assert f == Raw || f == Zstd || f == Enc;
    }
  }

  lemma {:induction false} StreamsFill(cfg: R.Config, d: Disk, w: R.Writer, put: R.Put, ops: seq<R.Op>, d': Disk, put': R.Put)
    requires w.stage == R.Putting(put) && Takes(d, put, ops, d', put') && forall op | op in ops :: op.More?
    ensures WriterRun(cfg, d, w, ops) == Some((d', w.(stage := R.Putting(put'))))
    decreases |ops|
  {
    if ops == [] {
      assert w.(stage := R.Putting(put)) == w;
    } else {
      var (d1, put1) := R.PutNext(d, put, ops[0]).value;
      assert ops[0].More? && R.WriterNext(cfg, d, w, ops[0]) == Some((d1, w.(stage := R.Putting(put1))));
      StreamsFill(cfg, d1, w.(stage := R.Putting(put1)), put1, ops[1..], d', put');
    }
  }

  /** Where no name of its digest is taken it puts its file there: flushed, renamed, the directory flushed. */
  lemma {:induction false} StreamIsNew(cfg: R.Config, d: Disk, w: R.Writer, temp: Path, durable: bool) returns (ops: seq<R.Op>)
    requires w.streaming && !w.looked && w.stage == R.Creating && cfg.temp(temp) && temp !in Live(d) && R.DataOf(cfg, w).Some?
    requires forall f: Form :: cfg.place(R.DigestOf(cfg, w), f) != temp && cfg.place(R.DigestOf(cfg, w), f) !in Live(d)
    ensures var full := WriteFile(CreateFile(d, temp), temp, R.DataOf(cfg, w).value);
            WriterRun(cfg, d, w, ops)
            == Some((SyncDir(Move(FlushFile(full, temp), temp, R.DestOf(cfg, w)), durable), w.(looked := true, stage := R.Done(R.New))))
  {
    var put := Streamed(cfg, w, temp);
    var full := WriteFile(CreateFile(d, temp), temp, put.data);
    var flushed, at := FlushFile(full, temp), w.(looked := true, stage := R.Putting(put));
    var moved := Move(flushed, temp, put.dest);
    var head := StreamsIn(cfg, d, w, temp);
    var tail := [R.Flush, R.Check, R.Rename, R.Sync(durable)];
    var checking, renaming := at.(stage := R.Putting(put.(stage := R.Checking))), at.(stage := R.Putting(put.(stage := R.Renaming)));
    var syncing, end := at.(stage := R.Putting(put.(stage := R.Syncing))), at.(stage := R.Done(R.New));
    RunOne(cfg, moved, syncing, R.Sync(durable), SyncDir(moved, durable), end);
    RunOne(cfg, flushed, renaming, R.Rename, moved, syncing);
    WritesTail(cfg, flushed, renaming, [R.Rename], moved, syncing, [R.Sync(durable)], SyncDir(moved, durable), end);
    RunOne(cfg, flushed, checking, R.Check, flushed, renaming);
    WritesTail(cfg, flushed, checking, [R.Check], flushed, renaming, [R.Rename] + [R.Sync(durable)], SyncDir(moved, durable), end);
    RunOne(cfg, full, at, R.Flush, flushed, checking);
    WritesTail(cfg, full, at, [R.Flush], flushed, checking, [R.Check] + ([R.Rename] + [R.Sync(durable)]), SyncDir(moved, durable), end);
    WritesTail(cfg, d, w, head, full, at, [R.Flush] + ([R.Check] + ([R.Rename] + [R.Sync(durable)])), SyncDir(moved, durable), end);
    ops := head + ([R.Flush] + ([R.Check] + ([R.Rename] + [R.Sync(durable)])));
  }

  /** Where one is taken it says Exists and removes what it wrote. */
  lemma {:induction false} StreamExists(cfg: R.Config, d: Disk, w: R.Writer, temp: Path) returns (ops: seq<R.Op>)
    requires w.streaming && !w.looked && w.stage == R.Creating && cfg.temp(temp) && temp !in Live(d) && R.DataOf(cfg, w).Some?
    requires (forall f: Form :: cfg.place(R.DigestOf(cfg, w), f) != temp) && exists f: Form :: cfg.place(R.DigestOf(cfg, w), f) in Live(d)
    ensures var full := WriteFile(CreateFile(d, temp), temp, R.DataOf(cfg, w).value);
            WriterRun(cfg, d, w, ops) == Some((Unlink(full, temp), w.(looked := true, stage := R.Done(R.Exists))))
  {
    var full := WriteFile(CreateFile(d, temp), temp, R.DataOf(cfg, w).value);
    var leaving := w.(looked := true, stage := R.Leaving(temp));
    var head := StreamsIn(cfg, d, w, temp);
    RunOne(cfg, full, leaving, R.Op.Drop(true), Unlink(full, temp), leaving.(stage := R.Done(R.Exists)));
    WritesTail(cfg, d, w, head, full, leaving, [R.Op.Drop(true)], Unlink(full, temp), leaving.(stage := R.Done(R.Exists)));
    ops := head + [R.Op.Drop(true)];
  }

  // -- a file being filled --------------------------------------------------

  /** An empty file, and what goes into it. */
  ghost predicate Empty(d: Disk, put: R.Put) {
    put.stage == R.Filling(0) && put.temp in Live(d) && Live(d)[put.temp] == Blob([], false)
  }

  /** However much of it goes in. */
  lemma {:induction false} Fills(d: Disk, put: R.Put, n: nat) returns (ops: seq<R.Op>)
    requires Empty(d, put) && n <= |put.data|
    ensures Takes(d, put, ops, WriteFile(d, put.temp, put.data[..n]), put.(stage := R.Filling(n)))
    ensures forall op | op in ops :: op.More?
  {
    if n == 0 {
      ops := [];
      assert put.data[..0] == [] && Live(d)[put.temp := Blob([], false)] == Live(d);
      assert WriteFile(d, put.temp, put.data[..0]) == d;
    } else {
      ops := [R.More(n)];
      TakesThen(d, put, [], d, put, R.More(n), WriteFile(d, put.temp, put.data[..n]), put.(stage := R.Filling(n)));
    }
  }

  lemma {:induction false} FillsInVain(d: Disk, put: R.Put, n: nat, gone: bool) returns (ops: seq<R.Op>)
    requires Empty(d, put) && n <= |put.data|
    ensures Takes(d, put, ops, R.Remove(WriteFile(d, put.temp, put.data[..n]), put.temp, gone), put.(stage := R.Broken))
  {
    ops := Fills(d, put, n);
    var mid := WriteFile(d, put.temp, put.data[..n]);
    TakesThen(d, put, ops, mid, put.(stage := R.Filling(n)), R.Fail(gone), R.Remove(mid, put.temp, gone), put.(stage := R.Broken));
    ops := ops + [R.Fail(gone)];
  }

  // -- a conversion ---------------------------------------------------------

  function ConvRun(cfg: R.Config, d: Disk, c: R.Conv, ops: seq<R.Op>): Option<(Disk, R.Conv)>
    decreases |ops|
  {
    if ops == [] then Some((d, c))
    else match R.ConvNext(cfg, d, c, ops[0])
      case None => None
      case Some((d', c')) => ConvRun(cfg, d', c', ops[1..])
  }

  ghost predicate Converts(cfg: R.Config, d: Disk, c: R.Conv, ops: seq<R.Op>, d': Disk, c': R.Conv) {
    ConvRun(cfg, d, c, ops) == Some((d', c'))
  }

  lemma {:induction false} ConvertsThen(cfg: R.Config, d: Disk, c: R.Conv, ops: seq<R.Op>, mid: Disk, at: R.Conv,
                                        more: seq<R.Op>, d': Disk, c': R.Conv)
    requires Converts(cfg, d, c, ops, mid, at) && Converts(cfg, mid, at, more, d', c')
    ensures Converts(cfg, d, c, ops + more, d', c')
    decreases |ops|
  {
    if ops == [] {
      assert [] + more == more;
    } else {
      var (d1, c1) := R.ConvNext(cfg, d, c, ops[0]).value;
      assert (ops + more)[0] == ops[0] && (ops + more)[1..] == ops[1..] + more;
      ConvertsThen(cfg, d1, c1, ops[1..], mid, at, more, d', c');
    }
  }

  lemma ConvertsOne(cfg: R.Config, d: Disk, c: R.Conv, op: R.Op, d': Disk, c': R.Conv)
    requires R.ConvNext(cfg, d, c, op) == Some((d', c'))
    ensures Converts(cfg, d, c, [op], d', c')
  {
    assert [op][1..] == [];
  }

  lemma {:induction false} PutConverts(cfg: R.Config, d: Disk, job: R.Job, put: R.Put, ops: seq<R.Op>, d': Disk, put': R.Put)
    requires !Over(put) && Takes(d, put, ops, d', put')
    ensures Converts(cfg, d, R.Writing(job, put), ops, d', R.AfterWriting(job, put'))
    decreases |ops|
  {
    if ops != [] {
      var (d1, put1) := R.PutNext(d, put, ops[0]).value;
      assert R.ConvNext(cfg, d, R.Writing(job, put), ops[0]) == Some((d1, R.AfterWriting(job, put1)));
      if Over(put1) {
        OverEnds(d1, put1, ops[1..], d', put');
      } else {
        PutConverts(cfg, d1, job, put1, ops[1..], d', put');
      }
    }
  }

  lemma NameConverts(cfg: R.Config, d: Disk, job: R.Job, put: R.Put, ops: seq<R.Op>, d': Disk, placed: Result<bool, Kind>)
    requires put.stage.Filling? && Takes(d, put, ops, d', put.(stage := TempFile.EndOf(placed)))
    ensures Converts(cfg, d, R.Writing(job, put), ops, d', if placed.Ok? then R.Unlinking(job) else R.Idle)
  {
    hide Converts, Takes;
    PutConverts(cfg, d, job, put, ops, d', put.(stage := TempFile.EndOf(placed)));
  }

  // -- a file's key change --------------------------------------------------

  ghost predicate Rekeys(k: K.Rekey, s: K.State, acts: seq<K.Act>, s': K.State) { K.Run(k, s, acts) == Some(s') }

  lemma {:induction false} RekeysThen(k: K.Rekey, s: K.State, acts: seq<K.Act>, mid: K.State, more: seq<K.Act>, s': K.State)
    requires Rekeys(k, s, acts, mid) && Rekeys(k, mid, more, s')
    ensures Rekeys(k, s, acts + more, s')
    decreases |acts|
  {
    if acts == [] {
      assert [] + more == more;
    } else {
      assert (acts + more)[0] == acts[0] && (acts + more)[1..] == acts[1..] + more;
      RekeysThen(k, K.Next(k, s, acts[0]).value, acts[1..], mid, more, s');
    }
  }

  lemma RekeysOne(k: K.Rekey, s: K.State, act: K.Act, s': K.State)
    requires K.Next(k, s, act) == Some(s')
    ensures Rekeys(k, s, [act], s')
  {
    assert [act][1..] == [];
  }

  /** A file on its way onto a sealed one: how far it is filled, and what it is to hold. */
  ghost function Onto(s: K.State, d: Disk, path: Path, put: K.Put, stage: K.PutStage): K.State {
    s.(disk := d, stage := K.Writing(path, put.(stage := stage)))
  }

  ghost function Settled(s: K.State, d: Disk, path: Path, ok: bool): K.State { K.Settle(s.(disk := d), path, ok) }

  lemma {:induction false} RekeyFills(k: K.Rekey, s: K.State, d: Disk, path: Path, put: K.Put, n: nat) returns (acts: seq<K.Act>)
    requires n <= |put.data| && put.temp in Live(d) && Live(d)[put.temp] == Blob([], false)
    ensures Rekeys(k, Onto(s, d, path, put, K.Filling(0)), acts,
                   Onto(s, WriteFile(d, put.temp, put.data[..n]), path, put, K.Filling(n)))
  {
    if n == 0 {
      acts := [];
      assert put.data[..0] == [] && Live(d)[put.temp := Blob([], false)] == Live(d);
      assert WriteFile(d, put.temp, put.data[..0]) == d;
    } else {
      acts := [K.More(n)];
      RekeysOne(k, Onto(s, d, path, put, K.Filling(0)), K.More(n),
                Onto(s, WriteFile(d, put.temp, put.data[..n]), path, put, K.Filling(n)));
    }
  }

  lemma RekeyFails(k: K.Rekey, s: K.State, d: Disk, path: Path, put: K.Put, stage: K.PutStage, gone: bool)
    requires !stage.Syncing?
    ensures Rekeys(k, Onto(s, d, path, put, stage), [K.Fail(gone)], Settled(s, if gone then Unlink(d, put.temp) else d, path, false))
  {
    RekeysOne(k, Onto(s, d, path, put, stage), K.Fail(gone), Settled(s, if gone then Unlink(d, put.temp) else d, path, false));
  }

  lemma RekeyFlushes(k: K.Rekey, s: K.State, d: Disk, path: Path, put: K.Put)
    requires put.temp in Live(d)
    ensures Rekeys(k, Onto(s, d, path, put, K.Filling(|put.data|)), [K.Flush], Onto(s, FlushFile(d, put.temp), path, put, K.Renaming))
  {
    RekeysOne(k, Onto(s, d, path, put, K.Filling(|put.data|)), K.Flush, Onto(s, FlushFile(d, put.temp), path, put, K.Renaming));
  }

  lemma {:induction false} RekeyPlaces(k: K.Rekey, s: K.State, d: Disk, path: Path, put: K.Put, durable: bool)
    returns (acts: seq<K.Act>)
    requires put.temp in Live(d)
    ensures Rekeys(k, Onto(s, d, path, put, K.Filling(|put.data|)), acts,
                   Settled(s, SyncDir(Move(FlushFile(d, put.temp), put.temp, path), durable), path, true))
  {
    var start, flushed := Onto(s, d, path, put, K.Filling(|put.data|)), FlushFile(d, put.temp);
    var moved := Move(flushed, put.temp, path);
    var end := Settled(s, SyncDir(moved, durable), path, true);
    RekeyFlushes(k, s, d, path, put);
    RekeysOne(k, Onto(s, flushed, path, put, K.Renaming), K.Rename, Onto(s, moved, path, put, K.Syncing));
    RekeysThen(k, start, [K.Flush], Onto(s, flushed, path, put, K.Renaming), [K.Rename], Onto(s, moved, path, put, K.Syncing));
    RekeysOne(k, Onto(s, moved, path, put, K.Syncing), K.Sync(durable), end);
    RekeysThen(k, start, [K.Flush] + [K.Rename], Onto(s, moved, path, put, K.Syncing), [K.Sync(durable)], end);
    acts := [K.Flush] + [K.Rename] + [K.Sync(durable)];
  }

  /** The name cannot be had: whether it is noticed before the flush or after it, the file is given up. */
  lemma {:induction false} RekeyMisses(k: K.Rekey, s: K.State, d: Disk, path: Path, put: K.Put, flushed: bool, gone: bool)
    returns (acts: seq<K.Act>)
    requires put.temp in Live(d)
    ensures var left := if flushed then FlushFile(d, put.temp) else d;
            Rekeys(k, Onto(s, d, path, put, K.Filling(|put.data|)), acts, Settled(s, if gone then Unlink(left, put.temp) else left, path, false))
  {
    var start, left := Onto(s, d, path, put, K.Filling(|put.data|)), if flushed then FlushFile(d, put.temp) else d;
    if flushed {
      RekeyFlushes(k, s, d, path, put);
      RekeyFails(k, s, left, path, put, K.Renaming, gone);
      RekeysThen(k, start, [K.Flush], Onto(s, left, path, put, K.Renaming), [K.Fail(gone)],
                 Settled(s, if gone then Unlink(left, put.temp) else left, path, false));
      acts := [K.Flush] + [K.Fail(gone)];
    } else {
      RekeyFails(k, s, d, path, put, K.Filling(|put.data|), gone);
      acts := [K.Fail(gone)];
    }
  }

  // -- in the machine -------------------------------------------------------

  function WriteActs(id: nat, ops: seq<R.Op>): seq<R.Act> { seq(|ops|, i requires 0 <= i < |ops| => R.Write(id, ops[i])) }

  function ConvActs(ops: seq<R.Op>): seq<R.Act> { seq(|ops|, i requires 0 <= i < |ops| => R.Convert(ops[i])) }

  /** A call that nobody interferes with is a run, from any state with room for it. */
  lemma {:induction false} WriterIsRun(cfg: R.Config, s: R.State, id: nat, w: R.Writer, ops: seq<R.Op>, d': Disk, w': R.Writer)
    requires id in s.writers && s.writers[id] == w && WriterRun(cfg, s.disk, w, ops) == Some((d', w'))
    ensures R.Run(cfg, s, WriteActs(id, ops)) == Some(s.(disk := d', writers := s.writers[id := w']))
    decreases |ops|
  {
    if ops == [] {
      assert s.writers[id := w'] == s.writers;
    } else {
      var (d1, w1) := R.WriterNext(cfg, s.disk, w, ops[0]).value;
      var s1 := s.(disk := d1, writers := s.writers[id := w1]);
      WriterIsRun(cfg, s1, id, w1, ops[1..], d', w');
      assert WriteActs(id, ops)[1..] == WriteActs(id, ops[1..]);
      assert s.writers[id := w1][id := w'] == s.writers[id := w'];
    }
  }

  lemma {:induction false} CallIsRun(cfg: R.Config, s: R.State, id: nat, w: R.Writer, ops: seq<R.Op>, d': Disk, stage: R.WriterStage)
    requires id !in s.writers && cfg.fits(R.DigestOf(cfg, w)) && !w.looked && w.stage == R.FirstStage(w)
    requires Writes(cfg, s.disk, w, ops, d', stage)
    ensures R.Run(cfg, s, [R.Call(id, w)] + WriteActs(id, ops))
            == Some(s.(disk := d', writers := s.writers[id := w.(stage := stage)]))
  {
    var s1 := s.(writers := s.writers[id := w]);
    WriterIsRun(cfg, s1, id, w, ops, d', w.(stage := stage));
    assert ([R.Call(id, w)] + WriteActs(id, ops))[1..] == WriteActs(id, ops);
    assert s.writers[id := w][id := w.(stage := stage)] == s.writers[id := w.(stage := stage)];
  }

  lemma {:induction false} ConversionIsRun(cfg: R.Config, s: R.State, ops: seq<R.Op>, d': Disk, c': R.Conv)
    requires Converts(cfg, s.disk, s.conv, ops, d', c')
    ensures R.Run(cfg, s, ConvActs(ops)) == Some(s.(disk := d', conv := c'))
    decreases |ops|
  {
    if ops != [] {
      var (d1, c1) := R.ConvNext(cfg, s.disk, s.conv, ops[0]).value;
      ConversionIsRun(cfg, s.(disk := d1, conv := c1), ops[1..], d', c');
      assert ConvActs(ops)[1..] == ConvActs(ops[1..]);
    }
  }
}
