/**
Setting files aside, giving names back and discarding: what each call does to the
files of a store, and what no run of them can do.
*/
module Salvage {
  import opened Wrappers
  import opened Digests
  import opened Layouts
  import opened Forms
  import opened Disks
  import opened FileSystems
  import opened Walks
  import opened Verdicts

  /** How many names are tried before a file cannot be set aside. */
  const ATTEMPTS := 100

  /** What a path's name reads as, either way. */
  function NamedAt(layout: Layout, p: Path): Option<(Digest, Form)> {
    if p == [] then None else layout.Named(Name(p))
  }

  /** How a file is decoded goes by its name; one the store did not name is taken as it lies. */
  function FormAt(layout: Layout, p: Path): Form {
    if NamedAt(layout, p).Some? then NamedAt(layout, p).value.1 else Raw
  }

  function AsidePath(layout: Layout, entry: Entry, serial: nat): Path
    requires entry.path != []
  {
    WithName(entry.path, QuarantineName(layout.FileName(entry.digest, entry.form), serial))
  }

  predicate Taken(dirs: set<Path>, files: Image, p: Path) { p in files || p in dirs }

  /** The smallest free number, up to the last one tried. */
  function FreeSerial(layout: Layout, dirs: set<Path>, files: Image, entry: Entry, serial: nat): (r: Option<nat>)
    requires entry.path != []
    ensures r.Some? ==>
              && serial <= r.value < 100 && !Taken(dirs, files, AsidePath(layout, entry, r.value))
              && forall n | serial <= n < r.value :: Taken(dirs, files, AsidePath(layout, entry, n))
    ensures r.None? ==> forall n | serial <= n < 100 :: Taken(dirs, files, AsidePath(layout, entry, n))
    decreases ATTEMPTS - serial
  {
    if serial >= ATTEMPTS then None
    else if !Taken(dirs, files, AsidePath(layout, entry, serial)) then Some(serial)
    else FreeSerial(layout, dirs, files, entry, serial + 1)
  }

  function Renamed(files: Image, from: Path, to: Path): Image
    requires from in files
  {
    (files - {from})[to := files[from]]
  }

  /** Where an entry goes when it is set aside. */
  function Quarantine(layout: Layout, dirs: set<Path>, files: Image, entry: Entry): Result<Path, Error>
    requires entry.path != []
  {
    match FreeSerial(layout, dirs, files, entry, 0)
    case None => Err(QuarantineNamesTaken(entry.path))
    case Some(serial) => if entry.path in files then Ok(AsidePath(layout, entry, serial)) else Err(Io)
  }

  function NameBack(layout: Layout, aside: Entry): Path
    requires aside.path != []
  {
    WithName(aside.path, layout.FileName(aside.digest, aside.form))
  }

  /** What the verdict on a set-aside file's bytes comes to. */
  function VerdictAt(layout: Layout, codec: Codec, key: Option<Key>, proven: bool, files: Image, p: Path,
                     digest: Digest): Result<bool, Error> {
    if p in files then Verdict(codec, key, proven, FormAt(layout, p), files[p].bytes, digest) else Err(Io)
  }

  /** Where a set-aside file goes when it gets its name back: nowhere unless its bytes deserve it. */
  function Restore(layout: Layout, codec: Codec, key: Option<Key>, proven: bool, hexLen: nat,
                   dirs: set<Path>, files: Image, aside: Entry): Result<Option<Path>, Error>
    requires aside.path != []
  {
    if |aside.digest| != hexLen then Err(AlgorithmMismatch(aside.digest))
    else match VerdictAt(layout, codec, key, proven, files, aside.path, aside.digest)
      case Err(error) => Err(error)
      case Ok(false) => Ok(None)
      case Ok(true) =>
        var path := NameBack(layout, aside);
        if Taken(dirs, files, path) then Err(Obstructed(path)) else Ok(Some(path))
  }

  /** A file whose name says nothing is decoded as it lies; any other as its name says, set aside or not. */
  lemma {:induction false} FormAtExact(layout: Layout, p: Path, digest: Digest, form: Form)
    requires layout.Valid() && p != []
    ensures layout.ParseName(Name(p)) == Some((digest, form)) ==> FormAt(layout, p) == form
    ensures layout.ParseQuarantined(Name(p)) == Some((digest, form)) ==> FormAt(layout, p) == form
    ensures layout.ParseName(Name(p)).None? && layout.ParseQuarantined(Name(p)).None? ==> FormAt(layout, p) == Raw
  {
    EntryOrQuarantined(layout, Name(p));
  }

  /** Where a file is set aside to and given back from: its own directory, under these names. */
  lemma AsideSpelt(layout: Layout, entry: Entry, serial: nat)
    requires entry.path != []
    ensures AsidePath(layout, entry, serial)
            == Parent(entry.path) + [layout.FileName(entry.digest, entry.form) + ".corrupt"
                                     + if serial == 0 then "" else "." + Decimal(serial)]
    ensures NameBack(layout, entry) == Parent(entry.path) + [layout.FileName(entry.digest, entry.form)]
  {
    var name := layout.FileName(entry.digest, entry.form);
    assert name + ".corrupt" + "" == name + ".corrupt";
    assert name + ".corrupt" + "." + Decimal(serial) == name + ".corrupt" + ("." + Decimal(serial));
  }

  // -- runs -----------------------------------------------------------------

  /** A call and what the handle had proven by then. */
  datatype Op =
    | SetAside(entry: Entry)
    | GiveBack(aside: Entry, proven: bool)
    | Discard(aside: Entry)

  /** The store, as far as these calls go. */
  datatype Shop = Shop(layout: Layout, codec: Codec, key: Option<Key>, hexLen: nat, dirs: set<Path>)

  /** One call. A call that fails changes nothing. */
  function After(shop: Shop, files: Image, op: Op): Image {
    match op
    case SetAside(entry) =>
      if entry.path == [] then files
      else (match Quarantine(shop.layout, shop.dirs, files, entry)
            case Ok(path) => Renamed(files, entry.path, path)
            case Err(_) => files)
    case GiveBack(aside, proven) =>
      if aside.path == [] then files
      else (match Restore(shop.layout, shop.codec, shop.key, proven, shop.hexLen, shop.dirs, files, aside)
            case Ok(Some(path)) => Renamed(files, aside.path, path)
            case _ => files)
    case Discard(aside) => files - {aside.path}
  }

  function AfterAll(shop: Shop, files: Image, ops: seq<Op>): Image
    decreases |ops|
  {
    if ops == [] then files else AfterAll(shop, After(shop, files, ops[0]), ops[1..])
  }

  /** Where every file came from: none twice, and each with the bytes it had there. */
  ghost predicate Traces(start: Image, files: Image, origin: map<Path, Path>) {
    && origin.Keys == files.Keys
    && (forall p | p in origin :: origin[p] in start && files[p] == start[origin[p]])
    && (forall p, q {:trigger origin[p], origin[q]} | p in origin && q in origin && p != q :: origin[p] != origin[q])
  }

  lemma TraceRename(start: Image, files: Image, origin: map<Path, Path>, from: Path, to: Path) returns (origin': map<Path, Path>)
    requires Traces(start, files, origin) && from in files && to !in files
    ensures Traces(start, Renamed(files, from, to), origin') && origin'.Values == origin.Values
  {
    origin' := (origin - {from})[to := origin[from]];
    assert origin'[to] == origin[from] && forall p | p in origin && p != from :: origin'[p] == origin[p];
    forall v | v in origin.Values
      ensures v in origin'.Values
    {
      var p :| p in origin && origin[p] == v;
      assert p != from ==> origin'[p] == v;
    }
  }

  /** One call moves at most one file, onto a free name, or takes one away. */
  lemma {:induction false} StepTraces(shop: Shop, start: Image, files: Image, origin: map<Path, Path>, op: Op)
    returns (origin': map<Path, Path>)
    requires Traces(start, files, origin)
    ensures Traces(start, After(shop, files, op), origin') && origin'.Values <= origin.Values
    ensures !op.Discard? ==> origin'.Values == origin.Values
  {
    origin' := origin;
    match op
    case SetAside(entry) =>
      if entry.path != [] && Quarantine(shop.layout, shop.dirs, files, entry).Ok? {
        origin' := TraceRename(start, files, origin, entry.path, Quarantine(shop.layout, shop.dirs, files, entry).value);
      }
    case GiveBack(aside, proven) =>
      if aside.path != [] {
        var r := Restore(shop.layout, shop.codec, shop.key, proven, shop.hexLen, shop.dirs, files, aside);
        if r.Ok? && r.value.Some? {
          origin' := TraceRename(start, files, origin, aside.path, r.value.value);
        }
      }
    case Discard(aside) =>
      origin' := origin - {aside.path};
      assert forall p | p in origin' :: origin'[p] == origin[p];
  }

  /**
  Conservation. After any run of these calls every file there is one that was there,
  byte for byte, and no two are the same one: nothing is overwritten, copied or
  altered. Without a discard every file that was there still is.
  */
  lemma {:induction false} RunTraces(shop: Shop, start: Image, files: Image, origin: map<Path, Path>, ops: seq<Op>)
    returns (origin': map<Path, Path>)
    requires Traces(start, files, origin)
    ensures Traces(start, AfterAll(shop, files, ops), origin') && origin'.Values <= origin.Values
    ensures (forall op | op in ops :: !op.Discard?) ==> origin'.Values == origin.Values
    decreases |ops|
  {
    if ops == [] {
      origin' := origin;
    } else {
      var next := StepTraces(shop, start, files, origin, ops[0]);
      origin' := RunTraces(shop, start, After(shop, files, ops[0]), next, ops[1..]);
    }
  }

  lemma {:induction false} NothingOverwritten(shop: Shop, start: Image, ops: seq<Op>) returns (origin: map<Path, Path>)
    ensures Traces(start, AfterAll(shop, start, ops), origin)
    ensures (forall op | op in ops :: !op.Discard?) ==> origin.Values == start.Keys
  {
    var same := map p | p in start :: p;
    assert forall p | p in start :: p in same && same[p] == p;
    assert same.Values == start.Keys by {
      forall p | p in start
        ensures p in same.Values
      {
        assert same[p] == p;
      }
    }
    origin := RunTraces(shop, start, start, same, ops);
  }

  /** A name is only ever given back to bytes that verify under it. */
  lemma {:induction false} RestoredIsGood(shop: Shop, files: Image, aside: Entry, proven: bool)
    requires aside.path != [] && shop.layout.Valid()
    requires NamedAt(shop.layout, aside.path) == Some((aside.digest, aside.form))
    requires var r := Restore(shop.layout, shop.codec, shop.key, proven, shop.hexLen, shop.dirs, files, aside); r.Ok? && r.value.Some?
    ensures var path := NameBack(shop.layout, aside);
            var after := After(shop, files, GiveBack(aside, proven));
            && path in after && path !in files
            && shop.layout.ParseName(Name(path)) == Some((aside.digest, aside.form))
            && Good(shop.codec, shop.key, aside.form, after[path].bytes, aside.digest)
  {
    NameRoundTrip(shop.layout, aside.digest, aside.form);
    TrueMeansGood(shop.codec, shop.key, proven, aside.form, files[aside.path].bytes, aside.digest);
  }

  /** What a set-aside entry is called reads back as set aside, with its digest and form, and as no entry. */
  lemma {:induction false} AsideReadsBack(layout: Layout, entry: Entry, serial: nat)
    requires layout.Valid() && entry.path != []
    ensures var p := AsidePath(layout, entry, serial);
            && Parent(p) == Parent(entry.path) && layout.ParseName(Name(p)).None?
            && layout.ParseQuarantined(Name(p)) == Some((entry.digest, entry.form))
            && NamedAt(layout, p) == Some((entry.digest, entry.form))
  {
    QuarantineRoundTrip(layout, entry.digest, entry.form, serial);
    EntryOrQuarantined(layout, Name(AsidePath(layout, entry, serial)));
  }

  /**
  Restore undoes quarantine exactly when the entry is good, of this store's algorithm,
  and lies under its canonical name: then the same bytes lie under the same names.
  */
  lemma {:induction false} RestoreUndoesQuarantine(shop: Shop, files: Image, entry: Entry, proven: bool)
    requires shop.layout.Valid() && TreeOk(shop.dirs, files) && entry.path in files
    requires shop.layout.ParseName(Name(entry.path)) == Some((entry.digest, entry.form))
    requires Quarantine(shop.layout, shop.dirs, files, entry).Ok?
    ensures var path := Quarantine(shop.layout, shop.dirs, files, entry).value;
            var aside := Entry(entry.digest, path, entry.form);
            After(shop, After(shop, files, Op.SetAside(entry)), GiveBack(aside, proven)) == files <==>
              && Name(entry.path) == shop.layout.FileName(entry.digest, entry.form)
              && |entry.digest| == shop.hexLen
              && Good(shop.codec, shop.key, entry.form, files[entry.path].bytes, entry.digest)
  {
    var serial := FreeSerial(shop.layout, shop.dirs, files, entry, 0).value;
    var path := AsidePath(shop.layout, entry, serial);
    var aside := Entry(entry.digest, path, entry.form);
    var mid := Renamed(files, entry.path, path);
    AsideReadsBack(shop.layout, entry, serial);
    TrueMeansGood(shop.codec, shop.key, proven, entry.form, files[entry.path].bytes, entry.digest);
    assert NameBack(shop.layout, aside) == entry.path <==> Name(entry.path) == shop.layout.FileName(entry.digest, entry.form) by {
      assert entry.path == Parent(entry.path) + [Name(entry.path)];
      assert NameBack(shop.layout, aside)[|Parent(path)|] == shop.layout.FileName(entry.digest, entry.form);
    }
    if NameBack(shop.layout, aside) == entry.path {
      assert Renamed(mid, path, entry.path) == files;
    }
    assert entry.path !in mid && mid != files;
    assert NameBack(shop.layout, aside) != entry.path ==> entry.path !in Renamed(mid, path, NameBack(shop.layout, aside));
  }
}
