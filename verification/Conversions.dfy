/** What a conversion pass plans, does to a store's files and counts. */
module Conversions {
  import opened Wrappers
  import Frames
  import opened Digests
  import opened Layouts
  import opened TempNames
  import opened Forms
  import opened Disks
  import opened FileSystems
  import opened Walks

  datatype Step = Converted | Already | Skipped

  /** The four passes. */
  datatype PassKind = Compressing | Decompressing | Encrypting | Decrypting {
    function Target(): Form {
      match this
      case Compressing => Zstd
      case Decompressing => Raw
      case Encrypting => Enc
      case Decrypting => Zstd
    }

    /** What a pass makes of an entry, going by its form. */
    function Plan(form: Form): Step {
      match this
      case Compressing => if form.IsEncrypted() then Skipped else if form.IsCompressed() then Already else Converted
      case Decompressing => if form.IsEncrypted() then Skipped else if form.IsCompressed() then Converted else Already
      case Encrypting => if form.IsEncrypted() then Already else Converted
      case Decrypting => if form.IsEncrypted() then Converted else if form.IsCompressed() then Already else Skipped
    }
  }

  /** A pass converts what is not in its target form, and what it finds there already is. */
  lemma PlanIsTarget(kind: PassKind, form: Form)
    ensures kind.Plan(form) == Already <==> form == kind.Target()
    ensures kind.Plan(form) == Converted ==> form != kind.Target()
  {
  }

  datatype Failure = Failure(path: Path, error: Error, recoverable: bool)

  datatype Tally = Tally(converted: nat, already: nat, skipped: nat, failed: seq<Failure>) {
    function Total(): nat { converted + already + skipped + |failed| }

    /** Nothing is left that another run could still move. */
    predicate IsFinished() { forall i | 0 <= i < |failed| :: !failed[i].recoverable }
  }

  // -- what happens to the files --------------------------------------------

  /** Nothing but temporary files and these paths was touched. */
  ghost predicate SameBut(before: Image, after: Image, paths: set<Path>) {
    forall p | !IsTempPath(p) && p !in paths ::
      (p in before <==> p in after) && (p in before ==> after[p] == before[p])
  }

  /** The world a pass works in. */
  datatype World = World(layout: Layout, codec: Codec, key: Option<Key>)

  /** What a file under an entry's name decodes to, its refusal to decode included. */
  function Meaning(w: World, p: Path, bytes: Bytes): Result<Bytes, Error> {
    match FileOf(w.layout, p)
    case None => Err(Io)
    case Some((_, form)) => Decode(w.codec, w.key, form, bytes)
  }

  ghost predicate IsEntry(w: World, p: Path) { Yields(OnlyEntries, w.layout, p) }

  ghost function FormOf(w: World, p: Path): Form
    requires IsEntry(w, p)
  {
    FileOf(w.layout, p).value.1
  }

  ghost function DigestAt(w: World, p: Path): Digest
    requires IsEntry(w, p)
  {
    FileOf(w.layout, p).value.0
  }

  /** Whether a file can be put into another form at all: it does not depend on the nonce drawn. */
  predicate Repackable(w: World, from: Form, target: Form, bytes: Bytes) {
    Repack(w.codec, w.key, [], from, target, bytes).Ok?
  }

  /** A new file says what the old one said; one that was there already is the content itself. */
  ghost predicate Replaces(w: World, before: Image, after: Image, from: Path, to: Path, digest: Digest) {
    && to in after
    && if to in before then after[to] == before[to] && GoodAt(w, before, to, digest)
       else from in before && Meaning(w, to, after[to].bytes) == Meaning(w, from, before[from].bytes)
  }

  predicate GoodAt(w: World, files: Image, p: Path, digest: Digest) {
    p in files && Meaning(w, p, files[p].bytes).Ok? && w.codec.hash(Meaning(w, p, files[p].bytes).value) == digest
  }

  /** A digest with a good entry. */
  ghost predicate HasGoodEntry(w: World, files: Image, digest: Digest) {
    exists p :: p in files && IsEntry(w, p) && DigestAt(w, p) == digest && GoodAt(w, files, p, digest)
  }

  /** A digest with a good entry where a lookup finds it. */
  ghost predicate HasGoodInPlace(w: World, files: Image, digest: Digest)
    requires w.layout.Shard(digest).Some?
  {
    exists f: Form :: Place(w.layout, digest, f) in files && Good(w.codec, w.key, f, files[Place(w.layout, digest, f)].bytes, digest)
  }

  /** A good file where its digest and form belong is a good entry. */
  lemma PlacedIsGood(w: World, files: Image, digest: Digest, form: Form)
    requires w.layout.Valid() && w.layout.Shard(digest).Some? && Place(w.layout, digest, form) in files
    requires Good(w.codec, w.key, form, files[Place(w.layout, digest, form)].bytes, digest)
    ensures HasGoodEntry(w, files, digest) && HasGoodInPlace(w, files, digest)
  {
    PlaceNames(w.layout, digest, form);
    PlaceIsEntry(w.layout, digest, form);
    assert GoodAt(w, files, Place(w.layout, digest, form), digest);
  }

  /** A name can be made for this digest: there is a way to its shard, and what has the name already is its content. */
  ghost predicate Placeable(w: World, form: Form, dirs: set<Path>, files: Image, digest: Digest) {
    && w.layout.Shard(digest).Some? && Clear(files, w.layout.Shard(digest).value)
    && var path := Place(w.layout, digest, form);
       path !in dirs && (path in files ==> Good(w.codec, w.key, form, files[path].bytes, digest))
  }

  /** No entry belongs in the temporary directory, or in its place. */
  lemma OutsideTemp(layout: Layout, digest: Digest, form: Form)
    requires layout.Valid() && layout.Shard(digest).Some?
    ensures !InTemp(Place(layout, digest, form))
  {
    var path := Place(layout, digest, form);
    PlaceIsEntry(layout, digest, form);
    assert |path| == 1 ==> Name(path) == path[0];
    NoEntryIsTemp(layout);
  }

  /** Temporary files and their directory are in nobody's way. */
  lemma StaysPlaceable(w: World, form: Form, dirs: set<Path>, files: Image, dirs': set<Path>, files': Image, digest: Digest)
    requires w.layout.Valid() && SameBut(files, files', {}) && dirs <= dirs' <= dirs + {[DIR]}
    ensures Placeable(w, form, dirs, files, digest) == Placeable(w, form, dirs', files', digest)
  {
    if w.layout.Shard(digest).Some? {
      hide Good;
      var shard, path := w.layout.Shard(digest).value, Place(w.layout, digest, form);
      PlaceNames(w.layout, digest, form);
      OutsideTemp(w.layout, digest, form);
      forall i | 0 < i <= |shard|
        ensures !IsTempPath(shard[..i])
      {
        assert shard[..i][0] == shard[0] && |shard[0]| == 2;
      }
    }
  }

  /** A file can be moved to this name: its directory is there, and no directory has the name. */
  predicate Reaches(dirs: set<Path>, dest: Path)
    requires dest != []
  {
    Parent(dest) in dirs && dest !in dirs
  }

  /**
  What writing a file's other form comes to where no call fails: whether the old one can
  be opened, there is room for a temporary file, and the bytes repack.
  */
  function PrepareComes(w: World, files: Image, p: Path, from: Form, target: Form): Result<(), Error>
    requires p in files
  {
    if from.IsEncrypted() && w.key.None? then Err(KeyRequired)
    else if [DIR] in files then Err(Io)
    else match Repack(w.codec, w.key, [], from, target, files[p].bytes)
      case Err(error) => Err(error)
      case Ok(_) => Ok(())
  }

  lemma PrepareSame(w: World, files: Image, files': Image, p: Path, from: Form, target: Form)
    requires p in files && p in files' && files'[p] == files[p] && ([DIR] in files <==> [DIR] in files')
    ensures PrepareComes(w, files', p, from, target) == PrepareComes(w, files, p, from, target)
  {
  }

  /** And putting it under its name, which is free. */
  function RewriteComes(w: World, dirs: set<Path>, files: Image, p: Path, from: Form, dest: Path, target: Form): Result<(), Error>
    requires p in files && dest != []
  {
    match PrepareComes(w, files, p, from, target)
    case Err(error) => Err(error)
    case Ok(_) => if Reaches(dirs, dest) then Ok(()) else Err(Io)
  }

  /**
  What converting a file comes to where no call fails: what has its new name already is
  the content itself or in the way, or the name is free and the file is written.
  */
  function ConvertComes(w: World, dirs: set<Path>, files: Image, p: Path, from: Form, digest: Digest, target: Form): Result<(), Error>
    requires p in files && w.layout.Shard(digest).Some?
  {
    var dest := Place(w.layout, digest, target);
    if dest in files then if GoodAt(w, files, dest, digest) then Ok(()) else Err(Obstructed(dest))
    else RewriteComes(w, dirs, files, p, from, dest, target)
  }

  lemma DecodesRaw(w: World, bytes: Bytes)
    ensures Decode(w.codec, w.key, Zstd, bytes).Ok? <==> w.codec.decompress(bytes).Some?
  {
    DecodeExact(w.codec, w.key, bytes, []);
  }

  /**
  What a conversion to a free name needs where no call fails, for each way a pass
  converts: room for a temporary file and the name, and then nothing to compress, a
  decoder that accepts to decompress, a key and a payload the counter reaches over to
  seal, and a whole frame of that key to unseal.
  */
  lemma {:induction false} ComesExactly(w: World, dirs: set<Path>, files: Image, p: Path, from: Form, digest: Digest, target: Form)
    requires p in files && w.layout.Shard(digest).Some? && Place(w.layout, digest, target) !in files
    ensures var bytes, dest := files[p].bytes, Place(w.layout, digest, target);
            var goes := ConvertComes(w, dirs, files, p, from, digest, target).Ok?;
            var room := ["tmp"] !in files && Parent(dest) in dirs && dest !in dirs;
            && (from == Raw && target == Zstd ==> goes == room)
            && (from == Zstd && target == Raw ==> goes == (room && w.codec.decompress(bytes).Some?))
            && (from == Raw && target == Enc ==> goes == (room && w.key.Some? && |w.codec.compress(bytes)| < 0xFFFF_FFFF_0000))
            && (from == Zstd && target == Enc ==> goes == (room && w.key.Some? && |bytes| < 0xFFFF_FFFF_0000))
            && (from == Enc && target == Zstd ==> (goes <==> room && w.key.Some? && exists payload :: Frames.IsFrame(w.key.value, bytes, payload)))
    ensures ["tmp"] !in files && (from.IsEncrypted() ==> w.key.Some?) ==>
              var repacked := Repack(w.codec, w.key, [], from, target, files[p].bytes);
              repacked.Err? ==> ConvertComes(w, dirs, files, p, from, digest, target) == Err(repacked.error)
  {
    var bytes := files[p].bytes;
    RepackExact(w.codec, w.key, [], bytes);
    EncodeExact(w.codec, w.key, [], bytes);
    DecodesRaw(w, bytes);
    hide Repack, Decode, Encode, Payload, Frames.IsFrame;
    forall payload
      ensures Payload(w.key, Enc, bytes) == Ok(payload) <==> w.key.Some? && Frames.IsFrame(w.key.value, bytes, payload)
    {
      PayloadExact(w.key, bytes, payload);
    }
    if Payload(w.key, Enc, bytes).Ok? {
      assert Frames.IsFrame(w.key.value, bytes, Payload(w.key, Enc, bytes).value);
    }
  }

  /** And to a name that is taken: what has it must be the content itself. */
  lemma {:induction false} ComesTaken(w: World, dirs: set<Path>, files: Image, p: Path, from: Form, digest: Digest, target: Form)
    requires w.layout.Valid() && p in files && w.layout.Shard(digest).Some? && Place(w.layout, digest, target) in files
    ensures var dest := Place(w.layout, digest, target);
            ConvertComes(w, dirs, files, p, from, digest, target)
            == if Good(w.codec, w.key, target, files[dest].bytes, digest) then Ok(()) else Err(Obstructed(dest))
  {
    PlaceNames(w.layout, digest, target);
  }

  /** The directory of temporary files is in no entry's way. */
  lemma StaysReached(layout: Layout, digest: Digest, form: Form, dirs: set<Path>, dirs': set<Path>)
    requires layout.Valid() && layout.Shard(digest).Some? && dirs <= dirs' <= dirs + {[DIR]}
    ensures Reaches(dirs, Place(layout, digest, form)) == Reaches(dirs', Place(layout, digest, form))
  {
    OutsideTemp(layout, digest, form);
    var path := Place(layout, digest, form);
    assert |path| > 1 ==> Parent(path)[0] == path[0];
  }

  /** The entry is under its new name and no longer under its old one. */
  ghost predicate Moved(w: World, before: Image, after: Image, entry: Entry, to: Path) {
    && SameBut(before, after, {entry.path, to}) && entry.path !in after
    && Replaces(w, before, after, entry.path, to, entry.digest)
  }

  /** The entry is where it was; its new name may have been made already. */
  ghost predicate Kept(w: World, before: Image, after: Image, entry: Entry, to: Path) {
    && SameBut(before, after, {to})
    && (to in before ==> to in after && after[to] == before[to])
    && (to in after && to !in before ==> Replaces(w, before, after, entry.path, to, entry.digest))
  }

  lemma KeptAsIs(w: World, files: Image, entry: Entry, to: Path)
    ensures Kept(w, files, files, entry, to)
  {
  }

  /** A temporary file that says what the old one said, under the new name. */
  lemma NowReplaces(w: World, before: Image, filled: Image, entry: Entry, temp: Path, to: Path, target: Form)
    requires SameBut(before, filled, {}) && IsTempPath(temp) && temp in filled && entry.path in before && to !in before
    requires FileOf(w.layout, entry.path) == Some((entry.digest, entry.form)) && FileOf(w.layout, to) == Some((entry.digest, target))
    requires Decode(w.codec, w.key, target, filled[temp].bytes) == Decode(w.codec, w.key, entry.form, before[entry.path].bytes)
    ensures var after := (filled - {temp})[to := Blob(filled[temp].bytes, true)];
            SameBut(before, after, {to}) && Replaces(w, before, after, entry.path, to, entry.digest)
  {
  }

  /** The old name goes once the new one is there. */
  lemma LetGo(w: World, before: Image, made: Image, entry: Entry, to: Path)
    requires SameBut(before, made, {to}) && Replaces(w, before, made, entry.path, to, entry.digest) && entry.path != to
    ensures Moved(w, before, made - {entry.path}, entry, to) && Kept(w, before, made, entry, to)
  {
  }

  /**
  An entry written out plain, or left as it was: what is there then is what the decoder
  makes of its payload, and where the decoder refuses that the entry stays.
  */
  ghost predicate Unpacked(w: World, before: Image, after: Image, entry: Entry, gone: bool)
    requires w.layout.Shard(entry.digest).Some?
  {
    var plain := Place(w.layout, entry.digest, Raw);
    if gone then
      && entry.path in before && entry.path !in after && plain in after
      && var payload := Payload(w.key, entry.form, before[entry.path].bytes);
         payload.Ok? && w.codec.decompress(payload.value) == Some(after[plain].bytes)
    else entry.path in before ==> entry.path in after && after[entry.path] == before[entry.path]
  }

  lemma NowUnpacked(w: World, before: Image, after: Image, entry: Entry, gone: bool)
    requires w.layout.Valid() && w.layout.Shard(entry.digest).Some? && entry.form != Raw
    requires FileOf(w.layout, entry.path) == Some((entry.digest, entry.form))
    requires var plain := Place(w.layout, entry.digest, Raw);
             && plain !in before
             && if gone then Moved(w, before, after, entry, plain) else Kept(w, before, after, entry, plain)
    ensures Unpacked(w, before, after, entry, gone)
  {
    PlaceNames(w.layout, entry.digest, Raw);
    if IsTempPath(entry.path) {
      TempNamesNothing(w.layout, entry.path);
    }
    if gone {
      var plain := Place(w.layout, entry.digest, Raw);
      DecodeExact(w.codec, w.key, after[plain].bytes, []);
      PayloadExact(w.key, before[entry.path].bytes, []);
    }
  }

  // -- what a store says ----------------------------------------------------

  /** Some entry of this digest decodes to this content. */
  ghost predicate Says(w: World, files: Image, digest: Digest, content: Bytes) {
    exists p :: SaysAt(w, files, p, digest, content)
  }

  ghost predicate SaysAt(w: World, files: Image, p: Path, digest: Digest, content: Bytes) {
    p in files && IsEntry(w, p) && DigestAt(w, p) == digest && Meaning(w, p, files[p].bytes) == Ok(content)
  }

  /** Every entry of this digest is good, and no two of them decode to different contents with its one hash. */
  ghost predicate Agreed(w: World, files: Image, digest: Digest) {
    && (forall p | p in files && IsEntry(w, p) && DigestAt(w, p) == digest :: GoodAt(w, files, p, digest))
    && (forall p, q | p in files && IsEntry(w, p) && DigestAt(w, p) == digest && q in files && IsEntry(w, q) && DigestAt(w, q) == digest ::
          Meaning(w, p, files[p].bytes) == Meaning(w, q, files[q].bytes))
  }

  /** For that it is enough that every entry is good and the hash never gives two contents one name. */
  lemma {:induction false} InjectiveAgrees(w: World, files: Image, digest: Digest)
    requires forall x, y | w.codec.hash(x) == w.codec.hash(y) :: x == y
    requires forall p | p in files && IsEntry(w, p) && DigestAt(w, p) == digest :: GoodAt(w, files, p, digest)
    ensures Agreed(w, files, digest)
  {
    hide IsEntry, DigestAt, Meaning;
  }

  /** A digest says what it said, and nothing else. */
  ghost predicate SaysTheSame(w: World, before: Image, after: Image, digest: Digest) {
    forall content :: Says(w, before, digest, content) <==> Says(w, after, digest, content)
  }
}
