/** Checking every entry of a store, and setting aside what fails. */
module CheckPasses {
  import opened Wrappers
  import Aead
  import opened Frames
  import opened Layouts
  import opened Forms
  import opened Disks
  import opened FileSystems
  import opened Walks
  import opened Verdicts
  import S = Salvage
  import opened Conversions
  import opened Stores
  import opened Passes

  ghost predicate GoodEntry(w: World, files: Image, p: Path)
    requires IsEntry(w, p)
  {
    GoodAt(w, files, p, DigestAt(w, p))
  }

  // -- what an entry is answered with ---------------------------------------

  /** What an entry is answered with, going by whether the key is proven then. */
  ghost function AnswerTo(w: World, hexLen: nat, known: bool, files: Image, entry: Entry): Result<bool, Error> {
    if |entry.digest| != hexLen then Err(AlgorithmMismatch(entry.digest))
    else S.VerdictAt(w.layout, w.codec, w.key, known, files, entry.path, entry.digest)
  }

  /** The entry behind a path. */
  ghost function EntryAt(w: World, p: Path): Entry
    requires IsEntry(w, p)
  {
    Entry(DigestAt(w, p), p, FormOf(w, p))
  }

  /** The same for an entry of the walk. */
  ghost function Answer(w: World, hexLen: nat, proven: bool, files: Image, p: Path): Result<bool, Error>
    requires IsEntry(w, p)
  {
    AnswerTo(w, hexLen, proven, files, EntryAt(w, p))
  }

  lemma FormIsFormAt(w: World, p: Path)
    requires IsEntry(w, p)
    ensures S.FormAt(w.layout, p) == FormOf(w, p)
  {
  }

  /**
  Exactly the entries that are answered for: those of this store's algorithm that are
  plain, or whose first chunk opens, or, once the key is proven, whose frame is of this
  version by its first bytes. Of a frame of another version the answer says which.
  */
  lemma {:induction false} AnsweredExactly(w: World, hexLen: nat, proven: bool, files: Image, p: Path)
    requires p in files && IsEntry(w, p)
    ensures Answer(w, hexLen, proven, files, p).Ok? <==>
            && |DigestAt(w, p)| == hexLen
            && (FormOf(w, p).IsEncrypted() ==>
                  && w.key.Some?
                  && (FirstChunkOpens(w.key.value, files[p].bytes) ==> !Overlong(w.key.value, files[p].bytes))
                  && (FirstChunkOpens(w.key.value, files[p].bytes)
                      || (proven && !(&& |files[p].bytes| >= 24
                                      && files[p].bytes[..4] == [Aead.Plain(0x69), Aead.Plain(0x6d), Aead.Plain(0x6d), Aead.Plain(0x72)]
                                      && files[p].bytes[4] != Aead.Plain(1)))))
    ensures |DigestAt(w, p)| == hexLen && FormOf(w, p).IsEncrypted() && w.key.Some? && OtherVersion(files[p].bytes) ==>
              Answer(w, hexLen, proven, files, p) == Err(FrameVersion(files[p].bytes[4]))
  {
    FormIsFormAt(w, p);
    if w.key.Some? {
      FirstChunk(w.key.value, w.key.value, files[p].bytes);
      EndingDiscipline(w.key.value, w.key.value, files[p].bytes);
      HeadDecides(w.key.value, files[p].bytes);
    }
  }

  /** A stream of more chunks than can be counted. */
  ghost predicate Overlong(key: Key, bytes: Bytes) {
    ReadAll(key, bytes).end.Failed? && ReadAll(key, bytes).end.reason.TooManyChunks?
  }

  /** What an answer says, whatever was proven when it was given: no more than the proven answer, no less than the first one. */
  ghost predicate Between(w: World, hexLen: nat, proven: bool, files: Image, p: Path, answer: Result<bool, Error>)
    requires IsEntry(w, p)
  {
    var least, most := Answer(w, hexLen, proven, files, p), Answer(w, hexLen, true, files, p);
    && (answer.Err? ==> least.Err?) && (most.Err? ==> answer.Err?)
    && (answer == Ok(false) ==> most == Ok(false)) && (least == Ok(false) ==> answer == Ok(false))
  }

  lemma {:induction false} LaterAnswer(w: World, hexLen: nat, proven: bool, later: bool, files: Image, p: Path)
    requires p in files && IsEntry(w, p) && (proven ==> later)
    ensures Between(w, hexLen, proven, files, p, Answer(w, hexLen, later, files, p))
  {
    UnprovenVerdict(w.codec, w.key, S.FormAt(w.layout, p), files[p].bytes, DigestAt(w, p));
  }

  // -- how far a pass got ---------------------------------------------------

  /** What was answered for is good, what was not met is as it was, and every byte has its origin. */
  ghost predicate Checked(w: World, start: Image, files: Image, origin: map<Path, Path>, handled: set<Path>, unanswered: nat) {
    && S.Traces(start, files, origin) && origin.Values == start.Keys
    && (forall p | p in files && IsEntry(w, p) ::
          p in start && files[p] == start[p] && (p in handled && unanswered == 0 ==> GoodEntry(w, files, p)))
    && (forall p | p in start && IsEntry(w, p) && p !in files :: p in handled && !GoodEntry(w, start, p))
  }

  lemma StillThere(w: World, start: Image, files: Image, origin: map<Path, Path>, handled: set<Path>, unanswered: nat, p: Path)
    requires Checked(w, start, files, origin, handled, unanswered) && p in start && IsEntry(w, p) && p !in handled
    ensures p in files && files[p] == start[p]
  {
  }

  /** An entry that stays where it is. */
  lemma CheckedStays(w: World, start: Image, files: Image, origin: map<Path, Path>, handled: set<Path>,
                     unanswered: nat, p: Path, unanswered': nat)
    requires Checked(w, start, files, origin, handled, unanswered) && IsEntry(w, p)
    requires unanswered' == unanswered + 1 || (unanswered' == unanswered && GoodEntry(w, files, p))
    ensures Checked(w, start, files, origin, handled + {p}, unanswered')
  {
    hide S.Traces, GoodAt;
  }

  /** An entry that is set aside. */
  lemma CheckedMoves(w: World, start: Image, files: Image, origin: map<Path, Path>, handled: set<Path>,
                     unanswered: nat, entry: Entry, to: Path)
    returns (origin': map<Path, Path>)
    requires Checked(w, start, files, origin, handled, unanswered) && entry.path in files && to !in files && !IsEntry(w, to)
    requires IsEntry(w, entry.path) && !GoodEntry(w, files, entry.path)
    ensures Checked(w, start, S.Renamed(files, entry.path, to), origin', handled + {entry.path}, unanswered)
  {
    hide S.Traces, Meaning;
    origin' := S.TraceRename(start, files, origin, entry.path, to);
  }

  lemma AllAnswered(w: World, start: Image, files: Image, origin: map<Path, Path>, handled: set<Path>)
    requires Checked(w, start, files, origin, handled, 0) && Walked(OnlyEntries, w.layout, start) <= handled
    ensures forall p | p in files && IsEntry(w, p) :: GoodEntry(w, files, p)
  {
    hide S.Traces, GoodAt;
    forall p | p in files && IsEntry(w, p)
      ensures GoodEntry(w, files, p)
    {
      assert p in Walked(OnlyEntries, w.layout, start);
    }
  }

  /** A pass as it set out. */
  datatype Sweep = Sweep(w: World, hexLen: nat, proven: bool, start: Image, dirs: set<Path>) {
    ghost function Everything(): set<Path> { Walked(OnlyEntries, w.layout, start) }

    /** Whether an entry would get no answer, going by whether the key is proven then. */
    ghost function Mute(known: bool): Path -> bool {
      p => IsEntry(w, p) && Answer(w, hexLen, known, start, p).Err?
    }

    /** Whether checking an entry proves the key. */
    ghost predicate Proof(p: Path) {
      && p in start && IsEntry(w, p) && |DigestAt(w, p)| == hexLen
      && Proves(w.key, S.FormAt(w.layout, p), start[p].bytes)
    }
  }

  /**
  What became of these entries. What is called false at once is gone, and nothing is
  gone but what is false once the key is proven; and the entries without an answer were
  counted.
  */
  ghost predicate Sifted(s: Sweep, files: Image, handled: set<Path>, unanswered: nat) {
    && (forall p | p in handled && p in s.start && IsEntry(s.w, p) ::
          && (Answer(s.w, s.hexLen, s.proven, s.start, p) == Ok(false) ==> p !in files)
          && (p !in files ==> Answer(s.w, s.hexLen, true, s.start, p) == Ok(false)))
    && |Filter(handled, s.Mute(true))| <= unanswered <= |Filter(handled, s.Mute(s.proven))|
  }

  /** What is new is an entry that was set aside. */
  ghost predicate OnlyAsides(s: Sweep, files: Image, handled: set<Path>) {
    forall f | f in files && f !in s.start :: exists p, n :: IsAsideOf(s, files, handled, f, p, n)
  }

  ghost predicate IsAsideOf(s: Sweep, files: Image, handled: set<Path>, f: Path, p: Path, n: nat) {
    p in handled && p in s.start && p !in files && IsEntry(s.w, p) && f == S.AsidePath(s.w.layout, EntryAt(s.w, p), n)
  }

  /** Each entry that can come out false is called what its digest and form are called, and has a free name to go to. */
  ghost predicate RoomAside(s: Sweep) {
    forall p | p in s.start && IsEntry(s.w, p) && Answer(s.w, s.hexLen, true, s.start, p) == Ok(false) ::
      && Name(p) == s.w.layout.FileName(DigestAt(s.w, p), FormOf(s.w, p))
      && S.FreeSerial(s.w.layout, s.dirs, s.start, EntryAt(s.w, p), 0).Some?
  }

  lemma WholePath(p: Path)
    requires p != []
    ensures p == Parent(p) + [Name(p)]
  {
  }

  /** Entries called what their digests and forms are called that go to one name are one. */
  lemma {:induction false} OneAside(layout: Layout, e: Entry, n: nat, e': Entry, m: nat)
    requires layout.Valid() && e.path != [] && e'.path != [] && S.AsidePath(layout, e, n) == S.AsidePath(layout, e', m)
    requires Name(e.path) == layout.FileName(e.digest, e.form) && Name(e'.path) == layout.FileName(e'.digest, e'.form)
    ensures e.path == e'.path
  {
    hide S.AsidePath, S.NamedAt, Name, Parent, Layout.FileName, Layout.ParseName, Layout.ParseQuarantined;
    S.AsideReadsBack(layout, e, n);
    S.AsideReadsBack(layout, e', m);
    WholePath(e.path);
    WholePath(e'.path);
  }

  /** So whatever was set aside since, an entry's free name stays free. */
  lemma {:induction false} RoomStays(s: Sweep, files: Image, handled: set<Path>, p: Path)
    requires s.w.layout.Valid() && RoomAside(s) && OnlyAsides(s, files, handled)
    requires forall q | q in handled && q in s.start && IsEntry(s.w, q) && q !in files :: Answer(s.w, s.hexLen, true, s.start, q) == Ok(false)
    requires p in s.start && IsEntry(s.w, p) && p in files && Answer(s.w, s.hexLen, true, s.start, p) == Ok(false)
    ensures S.FreeSerial(s.w.layout, s.dirs, files, EntryAt(s.w, p), 0).Some?
  {
    hide Answer, S.AsidePath, S.FreeSerial;
    var n := S.FreeSerial(s.w.layout, s.dirs, s.start, EntryAt(s.w, p), 0).value;
    var free := S.AsidePath(s.w.layout, EntryAt(s.w, p), n);
    if free in files {
      var q, m :| IsAsideOf(s, files, handled, free, q, m);
      OneAside(s.w.layout, EntryAt(s.w, p), n, EntryAt(s.w, q), m);
    }
  }

  lemma {:induction false} RoomIsRoom(s: Sweep)
    ensures (forall p | p in s.start && IsEntry(s.w, p) && Answer(s.w, s.hexLen, true, s.start, p) == Ok(false) ::
               && Name(p) == s.w.layout.FileName(DigestAt(s.w, p), FormOf(s.w, p))
               && exists n :: 0 <= n < 100 && !S.Taken(s.dirs, s.start, S.AsidePath(s.w.layout, EntryAt(s.w, p), n)))
            ==> RoomAside(s)
  {
    hide Answer, S.FreeSerial, S.AsidePath;
  }

  // -- one turn -------------------------------------------------------------

  /** What a turn did: found the entry good, set it aside under this number, or got no answer. */
  datatype Turned = Fine | Aside(serial: nat) | Open {
    predicate Follows(answer: Result<bool, Error>) {
      match this
      case Fine => answer == Ok(true)
      case Aside(_) => answer == Ok(false)
      case Open => answer.Err?
    }

    function Count(): nat { if Open? then 1 else 0 }
  }

  ghost predicate CheckedAs(w: World, files: Image, files': Image, entry: Entry, turn: Turned) {
    match turn
    case Fine => files' == files && GoodAt(w, files, entry.path, entry.digest)
    case Aside(serial) =>
      && entry.path != [] && entry.path in files && !GoodAt(w, files, entry.path, entry.digest)
      && var to := S.AsidePath(w.layout, entry, serial);
         to !in files && !IsEntry(w, to) && files' == S.Renamed(files, entry.path, to)
    case Open => files' == files
  }

  lemma TurnChecks(w: World, start: Image, files: Image, files': Image, origin: map<Path, Path>, handled: set<Path>,
                   unanswered: nat, entry: Entry, turn: Turned)
    returns (origin': map<Path, Path>)
    requires Checked(w, start, files, origin, handled, unanswered) && IsEntry(w, entry.path)
    requires FileOf(w.layout, entry.path) == Some((entry.digest, entry.form)) && CheckedAs(w, files, files', entry, turn)
    ensures Checked(w, start, files', origin', handled + {entry.path}, unanswered + turn.Count())
  {
    hide Checked, GoodAt, S.AsidePath, S.Renamed, Yields, FileOf;
    origin' := origin;
    match turn
    case Fine => CheckedStays(w, start, files, origin, handled, unanswered, entry.path, unanswered);
    case Aside(serial) =>
      origin' := CheckedMoves(w, start, files, origin, handled, unanswered, entry, S.AsidePath(w.layout, entry, serial));
    case Open => CheckedStays(w, start, files, origin, handled, unanswered, entry.path, unanswered + 1);
  }

  /** What a turn makes of the names: its own entry is gone if it was set aside, and no other is. */
  lemma TurnMoves(w: World, files: Image, files': Image, entry: Entry, turn: Turned, p: Path)
    requires CheckedAs(w, files, files', entry, turn) && IsEntry(w, p)
    ensures p in files' <==> p in files && !(turn.Aside? && p == entry.path)
  {
    hide GoodAt, S.AsidePath;
  }

  lemma {:induction false} TurnSifts(s: Sweep, files: Image, files': Image, handled: set<Path>, unanswered: nat, entry: Entry,
                                     turn: Turned, answer: Result<bool, Error>)
    requires Sifted(s, files, handled, unanswered) && entry.path !in handled && entry.path in files
    requires IsEntry(s.w, entry.path) && CheckedAs(s.w, files, files', entry, turn)
    requires turn.Follows(answer) && Between(s.w, s.hexLen, s.proven, s.start, entry.path, answer)
    ensures Sifted(s, files', handled + {entry.path}, unanswered + turn.Count())
  {
    hide Answer, CheckedAs, IsEntry, Filter;
    FilterMore(handled, s.Mute(true), entry.path);
    FilterMore(handled, s.Mute(s.proven), entry.path);
    forall p | p in handled + {entry.path} && p in s.start && IsEntry(s.w, p)
      ensures Answer(s.w, s.hexLen, s.proven, s.start, p) == Ok(false) ==> p !in files'
      ensures p !in files' ==> Answer(s.w, s.hexLen, true, s.start, p) == Ok(false)
    {
      TurnMoves(s.w, files, files', entry, turn, p);
    }
  }

  lemma TurnAsides(s: Sweep, files: Image, files': Image, handled: set<Path>, entry: Entry, turn: Turned)
    requires OnlyAsides(s, files, handled) && entry.path in s.start && IsEntry(s.w, entry.path)
    requires FileOf(s.w.layout, entry.path) == Some((entry.digest, entry.form)) && CheckedAs(s.w, files, files', entry, turn)
    ensures OnlyAsides(s, files', handled + {entry.path})
  {
    hide GoodAt, S.AsidePath;
    forall f | f in files' && f !in s.start
      ensures exists p, n :: IsAsideOf(s, files', handled + {entry.path}, f, p, n)
    {
      if f in files {
        var p, n :| IsAsideOf(s, files, handled, f, p, n);
        assert IsAsideOf(s, files', handled + {entry.path}, f, p, n);
      } else {
        assert IsAsideOf(s, files', handled + {entry.path}, f, entry.path, turn.serial);
      }
    }
  }

  // -- the pass -------------------------------------------------------------

  ghost predicate SetOut(store: Store, s: Sweep)
    reads store, store.fs
  {
    s.w == store.ThisWorld() && s.w.layout.Valid() && s.hexLen == store.hexLen && s.dirs == store.fs.dirs
  }

  /** What is known of the key after these entries: what was, and what the first chunk of one of them settled. */
  ghost predicate Known(s: Sweep, handled: set<Path>, known: bool, sound: bool) {
    && handled <= s.Everything() && (s.proven ==> known)
    && (known ==> s.proven || exists p :: p in handled && s.Proof(p))
    && (sound ==> forall p | p in handled && s.Proof(p) :: known)
  }

  lemma KnownMore(s: Sweep, handled: set<Path>, known: bool, sound: bool, p: Path, known': bool)
    requires Known(s, handled, known, sound) && p in s.Everything()
    requires Store.Learns(known, known', s.Proof(p), sound)
    ensures Known(s, handled + {p}, known', sound)
  {
    hide Sweep.Proof;
  }

  lemma KnownAtLeast(s: Sweep, handled: set<Path>, known: bool, sound: bool)
    requires Known(s, handled, known, sound)
    ensures handled <= s.Everything() && (s.proven ==> known)
  {
  }

  /** What holds wherever a pass stopped, and what besides where it came to its end. */
  lemma KnownAfter(s: Sweep, handled: set<Path>, known: bool, sound: bool, ended: bool)
    requires Known(s, handled, known, sound) && (ended ==> s.Everything() <= handled)
    ensures ended ==> handled == s.Everything()
    ensures Known(s, s.Everything(), known, sound && ended)
  {
    hide Sweep.Proof;
  }

  /** How far it got, on a file system that fails nothing. */
  ghost predicate Swept(s: Sweep, files: Image, handled: set<Path>, unanswered: nat) {
    Sifted(s, files, handled, unanswered) && OnlyAsides(s, files, handled)
  }

  /** The pass between two entries. */
  ghost predicate Midway(store: Store, entries: Entries, s: Sweep, origin: map<Path, Path>, handled: set<Path>, unanswered: nat)
    reads store, store.fs, entries
  {
    && Passing(store, entries, OnlyEntries) && SetOut(store, s) && Owed(s.Everything(), handled, entries)
    && Checked(s.w, s.start, store.fs.Files(), origin, handled, unanswered)
    && Known(s, handled, store.keyProven, store.fs.reliable)
    && (store.fs.reliable ==> Swept(s, store.fs.Files(), handled, unanswered))
  }

  /** What stops a pass on a file system that fails nothing: no name left for an entry to go to. */
  ghost predicate NoRoom(s: Sweep, error: Error) { error.QuarantineNamesTaken? && !RoomAside(s) }

  /**
  Verify every entry and set aside each one the answer is false for. Every byte is
  kept, and no good entry loses its name; and if every verify answered true or false,
  every entry that remains is good. On a file system that fails nothing the pass comes
  to an end wherever what it is to set aside has a name to go to, and then what is gone
  is what is false, and what was counted is what gets no answer.
  */
  method VerifyPass(store: Store) returns (r: Result<nat, Error>, ghost origin: map<Path, Path>)
    requires store.Valid()
    modifies store`keyProven, store.fs`disk
    ensures store.Valid()
    ensures S.Traces(old(store.fs.Files()), store.fs.Files(), origin) && origin.Values == old(store.fs.Files()).Keys
    ensures forall p | p in old(store.fs.Files()) && IsEntry(store.ThisWorld(), p) && p !in store.fs.Files() ::
              !GoodEntry(store.ThisWorld(), old(store.fs.Files()), p)
    ensures r == Ok(0) ==>
              forall p | p in store.fs.Files() && IsEntry(store.ThisWorld(), p) :: GoodEntry(store.ThisWorld(), store.fs.Files(), p)
    ensures var s := Sweep(store.ThisWorld(), store.hexLen, old(store.keyProven), old(store.fs.Files()), store.fs.dirs);
            && (store.fs.reliable ==> if r.Ok? then Sifted(s, store.fs.Files(), s.Everything(), r.value) else NoRoom(s, r.error))
            && Known(s, s.Everything(), store.keyProven, store.fs.reliable && r.Ok?)
    ensures var w, start := store.ThisWorld(), old(store.fs.Files());
            store.fs.reliable
            && (forall p | p in start && IsEntry(w, p) && Answer(w, store.hexLen, true, start, p) == Ok(false) ::
                  && Name(p) == store.layout.FileName(DigestAt(w, p), FormOf(w, p))
                  && exists n :: 0 <= n < 100 && !S.Taken(store.fs.dirs, start, S.AsidePath(store.layout, EntryAt(w, p), n)))
            ==> r.Ok?
  {
    hide RoomAside, Sifted, OnlyAsides, Known, Answer, S.Taken, S.AsidePath, S.Traces, GoodAt;
    ghost var s := Sweep(store.ThisWorld(), store.hexLen, store.keyProven, store.fs.Files(), store.fs.dirs);
    ghost var handled: set<Path> := {};
    var unanswered := 0;
    var entries := new Entries(store.fs, store.layout, OnlyEntries);
    origin := Begins(s);
    var going := true;
    r := Err(Io);
    while going
      invariant fresh(entries) && store.Valid() && SetOut(store, s) && Known(s, handled, store.keyProven, store.fs.reliable)
      invariant Checked(s.w, s.start, store.fs.Files(), origin, handled, unanswered)
      invariant going ==> Midway(store, entries, s, origin, handled, unanswered)
      invariant !going && r.Ok? ==>
                  && r.value == unanswered && s.Everything() <= handled
                  && (store.fs.reliable ==> Swept(s, store.fs.Files(), handled, unanswered))
      invariant !going && r.Err? && store.fs.reliable ==> NoRoom(s, r.error)
      decreases going, entries.Unread(), |entries.ready|
    {
      going, r, origin, handled, unanswered := CheckNext(store, entries, s, origin, handled, unanswered);
    }
    KnownAfter(s, handled, store.keyProven, store.fs.reliable, r.Ok?);
    RoomIsRoom(s);
    if r == Ok(0) {
      AllAnswered(s.w, s.start, store.fs.Files(), origin, handled);
    }
  }

  lemma Begins(s: Sweep) returns (origin: map<Path, Path>)
    ensures Checked(s.w, s.start, s.start, origin, {}, 0) && Swept(s, s.start, {}, 0)
    ensures forall sound :: Known(s, {}, s.proven, sound)
  {
    hide GoodAt, Answer;
    origin := map p | p in s.start :: p;
    forall p | p in s.start
      ensures p in origin.Values
    {
      assert origin[p] == p;
    }
    assert Filter({}, s.Mute(true)) == {} && Filter({}, s.Mute(s.proven)) == {};
  }

  /** One turn of that pass. */
  method CheckNext(store: Store, entries: Entries, ghost s: Sweep, ghost origin: map<Path, Path>, ghost handled: set<Path>,
                   unanswered: nat)
    returns (going: bool, r: Result<nat, Error>, ghost origin': map<Path, Path>, ghost handled': set<Path>, unanswered': nat)
    requires Midway(store, entries, s, origin, handled, unanswered)
    modifies store`keyProven, store.fs`disk, entries
    ensures store.Valid() && SetOut(store, s) && Checked(s.w, s.start, store.fs.Files(), origin', handled', unanswered')
    ensures Known(s, handled', store.keyProven, store.fs.reliable)
    ensures going ==> Midway(store, entries, s, origin', handled', unanswered')
    ensures !going && r.Ok? ==>
              && r.value == unanswered' && s.Everything() <= handled'
              && (store.fs.reliable ==> Swept(s, store.fs.Files(), handled', unanswered'))
    ensures !going && r.Err? && store.fs.reliable ==> NoRoom(s, r.error)
    ensures going ==> Sooner(old(entries.Unread()), |old(entries.ready)|, entries.Unread(), |entries.ready|)
  {
    hide Checked, Swept, NoRoom, Sooner, Known;
    origin', handled', unanswered' := origin, handled, unanswered;
    var item := NextEntry(store, entries, OnlyEntries, true, s.Everything(), handled);
    match item
    case None =>
      return false, Ok(unanswered), origin, handled, unanswered;
    case Some(Err(_)) =>
      return false, Err(Io), origin, handled, unanswered;
    case Some(Ok(entry)) =>
      handled' := handled + {entry.path};
      r, origin', unanswered' := CheckCounted(store, entries, s, entry, origin, handled, unanswered);
      going := r.Ok?;
  }

  /** An entry's turn, and what it means for the pass. */
  method CheckCounted(store: Store, ghost entries: Entries, ghost s: Sweep, entry: Entry, ghost origin: map<Path, Path>,
                      ghost handled: set<Path>, unanswered: nat)
    returns (r: Result<nat, Error>, ghost origin': map<Path, Path>, unanswered': nat)
    requires Passing(store, entries, OnlyEntries) && SetOut(store, s) && EntryOk(OnlyEntries, store.layout, entry, entries.dirs)
    requires entry.path in s.Everything() && entry.path !in handled && Owed(s.Everything(), handled + {entry.path}, entries)
    requires Checked(s.w, s.start, store.fs.Files(), origin, handled, unanswered)
    requires store.fs.reliable ==> Swept(s, store.fs.Files(), handled, unanswered)
    requires Known(s, handled, store.keyProven, store.fs.reliable)
    modifies store`keyProven, store.fs`disk
    ensures store.Valid() && SetOut(store, s) && entries.Unread() == old(entries.Unread())
    ensures Known(s, handled + {entry.path}, store.keyProven, store.fs.reliable)
    ensures Checked(s.w, s.start, store.fs.Files(), origin', handled + {entry.path}, unanswered')
    ensures r.Ok? ==> Midway(store, entries, s, origin', handled + {entry.path}, unanswered')
    ensures r.Err? && store.fs.reliable ==> NoRoom(s, r.error)
  {
    hide Checked, Swept, NoRoom, CheckedAs, EntryOk, Answer, Yields, Known, Store.Learns, FileOf, S.FreeSerial, Turned.Follows;
    ghost var files, proven := store.fs.Files(), store.keyProven;
    EntryNamed(s.w, entry, entries.dirs);
    StillThere(s.w, s.start, files, origin, handled, unanswered, entry.path);
    SameProof(store, s, files, entry);
    KnownAtLeast(s, handled, proven, store.fs.reliable);
    ghost var turn: Turned;
    r, turn := CheckTurn(store, entries, entry);
    KnownMore(s, handled, proven, store.fs.reliable, entry.path, store.keyProven);
    origin' := TurnChecks(s.w, s.start, files, store.fs.Files(), origin, handled, unanswered, entry, turn);
    unanswered' := unanswered + if r.Ok? then r.value else 1;
    if store.fs.reliable {
      AnswerSame(s, files, proven, entry.path);
      if r.Ok? {
        TurnSweeps(s, files, store.fs.Files(), handled, unanswered, entry, turn, proven);
      } else {
        Stuck(s, files, handled, unanswered, entry, proven, r.error);
      }
    }
  }

  /** What the walk hands out is an entry, and its digest and form are those of its name. */
  lemma EntryNamed(w: World, entry: Entry, dirs: seq<Path>)
    requires EntryOk(OnlyEntries, w.layout, entry, dirs)
    ensures IsEntry(w, entry.path) && FileOf(w.layout, entry.path) == Some((entry.digest, entry.form))
  {
  }

  /** And proves the key if it did at the start. */
  lemma SameProof(store: Store, s: Sweep, files: Image, entry: Entry)
    requires SetOut(store, s) && entry.path in s.start && entry.path in files && files[entry.path] == s.start[entry.path]
    requires IsEntry(s.w, entry.path) && FileOf(s.w.layout, entry.path) == Some((entry.digest, entry.form))
    ensures s.Proof(entry.path) == (|entry.digest| == store.hexLen && store.ProvesIn(files, entry.path))
  {
    hide Proves, Yields;
  }

  /** An entry not met yet is answered with what it was good for at the start. */
  lemma AnswerSame(s: Sweep, files: Image, known: bool, p: Path)
    requires IsEntry(s.w, p) && p in s.start && p in files && files[p] == s.start[p]
    ensures Answer(s.w, s.hexLen, known, files, p) == Answer(s.w, s.hexLen, known, s.start, p)
  {
  }

  lemma TurnSweeps(s: Sweep, files: Image, files': Image, handled: set<Path>, unanswered: nat, entry: Entry, turn: Turned, known: bool)
    requires Swept(s, files, handled, unanswered) && (s.proven ==> known)
    requires entry.path in s.start && IsEntry(s.w, entry.path) && entry.path !in handled && entry.path in files
    requires FileOf(s.w.layout, entry.path) == Some((entry.digest, entry.form)) && CheckedAs(s.w, files, files', entry, turn)
    requires turn.Follows(Answer(s.w, s.hexLen, known, s.start, entry.path))
    ensures Swept(s, files', handled + {entry.path}, unanswered + turn.Count())
  {
    hide Sifted, OnlyAsides, CheckedAs, Answer;
    LaterAnswer(s.w, s.hexLen, s.proven, known, s.start, entry.path);
    TurnSifts(s, files, files', handled, unanswered, entry, turn, Answer(s.w, s.hexLen, known, s.start, entry.path));
    TurnAsides(s, files, files', handled, entry, turn);
  }

  /** No name for an entry to go to now means that there was none, or not its own, at the start. */
  lemma Stuck(s: Sweep, files: Image, handled: set<Path>, unanswered: nat, entry: Entry, known: bool, error: Error)
    requires s.w.layout.Valid() && Swept(s, files, handled, unanswered) && (s.proven ==> known)
    requires entry.path in s.start && IsEntry(s.w, entry.path) && entry.path in files
    requires FileOf(s.w.layout, entry.path) == Some((entry.digest, entry.form))
    requires Answer(s.w, s.hexLen, known, s.start, entry.path) == Ok(false) && error.QuarantineNamesTaken?
    requires S.FreeSerial(s.w.layout, s.dirs, files, entry, 0).None?
    ensures NoRoom(s, error)
  {
    hide OnlyAsides, Answer, RoomAside, S.FreeSerial;
    LaterAnswer(s.w, s.hexLen, s.proven, known, s.start, entry.path);
    assert EntryAt(s.w, entry.path) == entry;
    if RoomAside(s) {
      RoomStays(s, files, handled, entry.path);
    }
  }

  /** An entry's turn: verify it, and set it aside if the answer is false. */
  method CheckTurn(store: Store, ghost entries: Entries, entry: Entry) returns (r: Result<nat, Error>, ghost turn: Turned)
    requires Passing(store, entries, OnlyEntries) && EntryOk(OnlyEntries, store.layout, entry, entries.dirs)
    requires entry.path in store.fs.Files()
    modifies store`keyProven, store.fs`disk
    ensures Passing(store, entries, OnlyEntries) && entries.Unread() == old(entries.Unread())
    ensures entries.Remaining() == old(entries.Remaining())
    ensures Store.Learns(old(store.keyProven), store.keyProven,
                         |entry.digest| == store.hexLen && store.ProvesIn(old(store.fs.Files()), entry.path), store.fs.reliable)
    ensures CheckedAs(store.ThisWorld(), old(store.fs.Files()), store.fs.Files(), entry, turn)
    ensures if r.Ok? then r.value == turn.Count() else turn.Open?
    ensures store.fs.reliable ==>
              var answer := Answer(store.ThisWorld(), store.hexLen, old(store.keyProven), old(store.fs.Files()), entry.path);
              if r.Ok? then turn.Follows(answer)
              else answer == Ok(false) && r.error.QuarantineNamesTaken?
                   && S.FreeSerial(store.layout, store.fs.dirs, old(store.fs.Files()), entry, 0).None?
  {
    hide Good, GoodAt, S.VerdictAt, S.FreeSerial, EntryOk, Answer, Proves;
    ghost var w, proven := store.ThisWorld(), store.keyProven;
    EntryNamed(w, entry, entries.dirs);
    var verdict := store.Verify(entry);
    VerdictIsAnswer(w, store.hexLen, proven, store.fs.Files(), entry);
    match verdict
    case Ok(true) =>
      return Ok(0), Fine;
    case Err(_) =>
      return Ok(1), Open;
    case Ok(false) =>
      r, turn := SetAside(store, entries, entry);
  }

  /** What an entry is answered with, and that true and false say whether it is good. */
  lemma VerdictIsAnswer(w: World, hexLen: nat, proven: bool, files: Image, entry: Entry)
    requires entry.path in files && IsEntry(w, entry.path) && FileOf(w.layout, entry.path) == Some((entry.digest, entry.form))
    ensures |entry.digest| != hexLen ==> Answer(w, hexLen, proven, files, entry.path).Err?
    ensures |entry.digest| == hexLen ==>
              Answer(w, hexLen, proven, files, entry.path) == S.VerdictAt(w.layout, w.codec, w.key, proven, files, entry.path, entry.digest)
    ensures S.VerdictAt(w.layout, w.codec, w.key, proven, files, entry.path, entry.digest) == Ok(true)
            <==> GoodAt(w, files, entry.path, entry.digest)
  {
    FormIsFormAt(w, entry.path);
    TrueMeansGood(w.codec, w.key, proven, entry.form, files[entry.path].bytes, entry.digest);
  }

  /** The answer is false: the entry goes under the first free name. */
  method SetAside(store: Store, ghost entries: Entries, entry: Entry) returns (r: Result<nat, Error>, ghost turn: Turned)
    requires Passing(store, entries, OnlyEntries) && EntryOk(OnlyEntries, store.layout, entry, entries.dirs)
    requires entry.path in store.fs.Files() && !GoodAt(store.ThisWorld(), store.fs.Files(), entry.path, entry.digest)
    modifies store.fs`disk
    ensures Passing(store, entries, OnlyEntries) && entries.Unread() == old(entries.Unread())
    ensures entries.Remaining() == old(entries.Remaining())
    ensures CheckedAs(store.ThisWorld(), old(store.fs.Files()), store.fs.Files(), entry, turn)
    ensures if r.Ok? then r.value == 0 && turn.Aside? else turn.Open?
    ensures store.fs.reliable && r.Err? ==>
              r.error.QuarantineNamesTaken? && S.FreeSerial(store.layout, store.fs.dirs, old(store.fs.Files()), entry, 0).None?
  {
    hide GoodAt;
    ghost var files := store.fs.Files();
    var aside := store.Quarantine(entry);
    if aside.Err? {
      return Err(aside.error), Open;
    }
    ghost var serial := S.FreeSerial(store.layout, store.fs.dirs, files, entry, 0).value;
    AsideAside(store.layout, files, entries.dirs, entry, serial);
    return Ok(0), Aside(serial);
  }

  /** A file set aside in the directory it came out of is nothing the pile covers and nothing a walk over entries wants. */
  lemma AsideAside(layout: Layout, files: Image, dirs: seq<Path>, entry: Entry, serial: nat)
    requires layout.Valid() && entry.path in files && EntryOk(OnlyEntries, layout, entry, dirs)
    ensures var to := S.AsidePath(layout, entry, serial);
            && !Yields(OnlyEntries, layout, to)
            && Below(OnlyEntries, layout, S.Renamed(files, entry.path, to), dirs) == Below(OnlyEntries, layout, files, dirs)
  {
    S.AsideReadsBack(layout, entry, serial);
  }

  // -- what that comes to ---------------------------------------------------

  /** Whether no answer depends on what the pass meets first: the key was proven, or none is needed. */
  ghost predicate Settled(s: Sweep) {
    s.proven || forall p | p in s.start && IsEntry(s.w, p) :: Answer(s.w, s.hexLen, false, s.start, p) != Err(Error.Unsealable)
  }

  /** Then what is gone is exactly what is false, and what was counted exactly what gets no answer. */
  lemma {:induction false} SettledSweep(s: Sweep, files: Image, unanswered: nat)
    requires s.proven || forall p | p in s.start && IsEntry(s.w, p) :: Answer(s.w, s.hexLen, false, s.start, p) != Err(Error.Unsealable)
    requires Sifted(s, files, s.Everything(), unanswered)
    ensures forall p | p in s.start && IsEntry(s.w, p) :: p !in files <==> Answer(s.w, s.hexLen, s.proven, s.start, p) == Ok(false)
    ensures unanswered == |Filter(s.Everything(), s.Mute(s.proven))|
    ensures unanswered == 0 <==> forall p | p in s.start && IsEntry(s.w, p) :: Answer(s.w, s.hexLen, s.proven, s.start, p).Ok?
  {
    hide Answer;
    forall p | p in s.start && IsEntry(s.w, p)
      ensures Answer(s.w, s.hexLen, s.proven, s.start, p) == Answer(s.w, s.hexLen, true, s.start, p)
      ensures p in s.Everything()
    {
      SettledAnswer(s, p);
    }
    assert Filter(s.Everything(), s.Mute(s.proven)) == Filter(s.Everything(), s.Mute(true));
    if unanswered > 0 {
      var p :| p in Filter(s.Everything(), s.Mute(s.proven));
    } else {
      forall p | p in s.start && IsEntry(s.w, p)
        ensures Answer(s.w, s.hexLen, s.proven, s.start, p).Ok?
      {
        assert p !in Filter(s.Everything(), s.Mute(s.proven));
      }
    }
  }

  lemma SettledAnswer(s: Sweep, p: Path)
    requires Settled(s) && p in s.start && IsEntry(s.w, p)
    ensures Answer(s.w, s.hexLen, s.proven, s.start, p) == Answer(s.w, s.hexLen, true, s.start, p)
  {
    UnprovenVerdict(s.w.codec, s.w.key, S.FormAt(s.w.layout, p), s.start[p].bytes, DigestAt(s.w, p));
  }

  // -- entries in a caller's order ------------------------------------------

  /** Whether a verify of this entry reads a file at all. */
  ghost predicate Readable(hexLen: nat, files: Image, entry: Entry) { |entry.digest| == hexLen && entry.path in files }

  ghost function CheckOf(w: World, files: Image, entry: Entry): Check
    requires entry.path in files
  {
    Check(S.FormAt(w.layout, entry.path), files[entry.path].bytes, entry.digest)
  }

  /** What verifying these entries reads, one file after another. */
  ghost function ChecksOf(w: World, hexLen: nat, files: Image, entries: seq<Entry>): seq<Check> {
    if entries == [] then []
    else
      var last := entries[|entries| - 1];
      ChecksOf(w, hexLen, files, entries[..|entries| - 1])
      + if Readable(hexLen, files, last) then [CheckOf(w, files, last)] else []
  }

  /** Whether the key is proven once these entries are verified. */
  ghost predicate KnownBy(w: World, hexLen: nat, proven: bool, files: Image, entries: seq<Entry>) {
    proven || Proven(w.key, ChecksOf(w, hexLen, files, entries))
  }

  ghost function AnswersTo(w: World, hexLen: nat, proven: bool, files: Image, entries: seq<Entry>): (answers: seq<Result<bool, Error>>)
    ensures |answers| == |entries|
  {
    seq(|entries|, i requires 0 <= i < |entries| =>
      AnswerTo(w, hexLen, KnownBy(w, hexLen, proven, files, entries[..i]), files, entries[i]))
  }

  /** Entries verified one after another, with what the handle knows of the key by then. */
  ghost predicate Verified(w: World, hexLen: nat, proven: bool, files: Image, entries: seq<Entry>, answers: seq<Result<bool, Error>>,
                           known: bool, sound: bool) {
    && |answers| == |entries|
    && (forall i | 0 <= i < |answers| ::
          || answers[i] == Err(Io)
          || answers[i] == AnswerTo(w, hexLen, proven, files, entries[i])
          || answers[i] == AnswerTo(w, hexLen, true, files, entries[i]))
    && Store.Learns(proven, known, Proven(w.key, ChecksOf(w, hexLen, files, entries)), sound)
    && (sound ==> answers == AnswersTo(w, hexLen, proven, files, entries))
  }

  /**
  Verify entries one after another with one handle. Each answer is the one its file has
  under what the entries before it proved of the key, and the key is proven afterwards
  only if it was before or one of them proves it; a call that fails says `Io`.
  */
  method VerifyEach(store: Store, entries: seq<Entry>) returns (answers: seq<Result<bool, Error>>)
    requires store.Valid()
    modifies store`keyProven
    ensures Verified(store.ThisWorld(), store.hexLen, old(store.keyProven), store.fs.Files(), entries, answers,
                     store.keyProven, store.fs.reliable)
  {
    hide Verified, Store.Learns;
    ghost var w, files, proven := store.ThisWorld(), store.fs.Files(), store.keyProven;
    answers := [];
    NoneVerified(w, store.hexLen, proven, files, store.fs.reliable);
    for i := 0 to |entries|
      invariant Verified(w, store.hexLen, proven, files, entries[..i], answers, store.keyProven, store.fs.reliable)
    {
      ghost var known := store.keyProven;
      var answer := store.Verify(entries[i]);
      VerifiedMore(w, store.hexLen, proven, files, entries[..i], answers, known, store.fs.reliable, entries[i], answer, store.keyProven);
      assert entries[..i + 1] == entries[..i] + [entries[i]];
      answers := answers + [answer];
    }
    assert entries[..|entries|] == entries;
  }

  lemma NoneVerified(w: World, hexLen: nat, proven: bool, files: Image, sound: bool)
    ensures Verified(w, hexLen, proven, files, [], [], proven, sound)
  {
  }

  lemma VerifiedMore(w: World, hexLen: nat, proven: bool, files: Image, entries: seq<Entry>, answers: seq<Result<bool, Error>>,
                     known: bool, sound: bool, entry: Entry, answer: Result<bool, Error>, known': bool)
    requires Verified(w, hexLen, proven, files, entries, answers, known, sound)
    requires |entry.digest| != hexLen ==> answer == Err(AlgorithmMismatch(entry.digest))
    requires |entry.digest| == hexLen && answer != Err(Io) ==>
               answer == S.VerdictAt(w.layout, w.codec, w.key, known, files, entry.path, entry.digest)
    requires answer == Err(Io) ==> !sound || entry.path !in files
    requires Store.Learns(known, known',
                          Readable(hexLen, files, entry) && Proves(w.key, S.FormAt(w.layout, entry.path), files[entry.path].bytes),
                          answer != Err(Io))
    ensures Verified(w, hexLen, proven, files, entries + [entry], answers + [answer], known', sound)
  {
    hide ChecksOf, Proven, Proves, Verdict, AnswersTo;
    ProvenMore(w, hexLen, files, entries, entry);
    AnswersMore(w, hexLen, proven, files, entries, entry);
  }

  lemma ProvenMore(w: World, hexLen: nat, files: Image, entries: seq<Entry>, entry: Entry)
    ensures Proven(w.key, ChecksOf(w, hexLen, files, entries + [entry]))
            <==> || Proven(w.key, ChecksOf(w, hexLen, files, entries))
                 || (Readable(hexLen, files, entry) && Proves(w.key, S.FormAt(w.layout, entry.path), files[entry.path].bytes))
  {
    var done, all := ChecksOf(w, hexLen, files, entries), entries + [entry];
    assert all[..|entries|] == entries;
    var more := if Readable(hexLen, files, entry) then [CheckOf(w, files, entry)] else [];
    assert ChecksOf(w, hexLen, files, all) == done + more;
    assert forall j | 0 <= j < |done| :: (done + more)[j] == done[j];
    assert more != [] ==> (done + more)[|done|] == more[0];
  }

  lemma AnswersMore(w: World, hexLen: nat, proven: bool, files: Image, entries: seq<Entry>, entry: Entry)
    ensures AnswersTo(w, hexLen, proven, files, entries + [entry])
            == AnswersTo(w, hexLen, proven, files, entries) + [AnswerTo(w, hexLen, KnownBy(w, hexLen, proven, files, entries), files, entry)]
  {
    hide AnswerTo, KnownBy;
    var all := entries + [entry];
    assert forall i | 0 <= i <= |entries| :: all[..i] == entries[..i];
    assert entries[..|entries|] == entries;
  }

  // -- and what that has to do with a pass over files -----------------------

  /** The answers that came of reading a file. */
  ghost function ReadAnswers(hexLen: nat, files: Image, entries: seq<Entry>, answers: seq<Result<bool, Error>>): seq<Result<bool, Error>>
    requires |answers| == |entries|
  {
    if entries == [] then []
    else
      var n := |entries| - 1;
      ReadAnswers(hexLen, files, entries[..n], answers[..n]) + if Readable(hexLen, files, entries[n]) then [answers[n]] else []
  }

  lemma {:induction false} PassMore(codec: Codec, key: Option<Key>, proven: bool, checks: seq<Check>, c: Check)
    ensures Pass(codec, key, proven, checks + [c])
            == Pass(codec, key, proven, checks) + [VerdictOf(codec, key, proven || Proven(key, checks), c)]
  {
    var all := checks + [c];
    forall i | 0 <= i < |all|
      ensures Pass(codec, key, proven, all)[i]
              == if i < |checks| then Pass(codec, key, proven, checks)[i] else VerdictOf(codec, key, proven || Proven(key, checks), c)
    {
      PassAnswers(codec, key, proven, all, i);
      assert all[..i] == checks[..i];
      if i < |checks| {
        PassAnswers(codec, key, proven, checks, i);
      } else {
        assert all[..i] == checks;
      }
    }
  }

  /** Verifying entries one after another is a pass over the files they have read. */
  lemma {:induction false} EachIsPass(w: World, hexLen: nat, proven: bool, files: Image, entries: seq<Entry>)
    ensures ReadAnswers(hexLen, files, entries, AnswersTo(w, hexLen, proven, files, entries))
            == Pass(w.codec, w.key, proven, ChecksOf(w, hexLen, files, entries))
    decreases |entries|
  {
    hide AnswersTo, Proven, Verdict;
    if entries != [] {
      var n := |entries| - 1;
      var first, last := entries[..n], entries[n];
      var checks := ChecksOf(w, hexLen, files, first);
      EachIsPass(w, hexLen, proven, files, first);
      assert entries == first + [last];
      AnswersMore(w, hexLen, proven, files, first, last);
      assert AnswersTo(w, hexLen, proven, files, entries)[..n] == AnswersTo(w, hexLen, proven, files, first);
      if Readable(hexLen, files, last) {
        PassMore(w.codec, w.key, proven, checks, CheckOf(w, files, last));
      } else {
        var answers := ReadAnswers(hexLen, files, first, AnswersTo(w, hexLen, proven, files, first));
        assert ChecksOf(w, hexLen, files, entries) == checks + [] == checks && answers + [] == answers;
      }
    }
  }

  /**
  Order independence, for entries. With the key proven an entry gets the same answer
  wherever in whatever list it comes up. Unproven it gets that answer too, unless it is
  withheld: exactly where nothing before it proved the key and its own first chunk does
  not open, and then what is withheld is a false.
  */
  lemma {:induction false} EachInAnyOrder(w: World, hexLen: nat, files: Image, entries: seq<Entry>, i: nat, others: seq<Entry>, j: nat)
    requires i < |entries| && j < |others| && entries[i] == others[j]
    ensures var sure := AnswersTo(w, hexLen, true, files, others)[j];
            var given := AnswersTo(w, hexLen, false, files, entries)[i];
            && AnswersTo(w, hexLen, true, files, entries)[i] == sure
            && (given != sure ==> given == Err(Error.Unsealable) && sure == Ok(false))
            && (given != sure <==>
                  && AnswerTo(w, hexLen, false, files, entries[i]) == Err(Error.Unsealable)
                  && !Proven(w.key, ChecksOf(w, hexLen, files, entries[..i])))
  {
    var entry := entries[i];
    if entry.path in files {
      UnprovenVerdict(w.codec, w.key, S.FormAt(w.layout, entry.path), files[entry.path].bytes, entry.digest);
    }
  }
}
