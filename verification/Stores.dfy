/**
The store: one handle, with what it remembers between calls.

Every call may be refused by a file system that is not reliable, and then says `Io`;
what it answers otherwise is pinned to the functions of the modules above.
*/
module Stores {
  import opened Wrappers
  import opened Frames
  import C = Cipher
  import opened Aead
  import opened Digests
  import opened Layouts
  import opened TempNames
  import opened Forms
  import opened Disks
  import opened FileSystems
  import opened TempFiles
  import opened Walks
  import opened Verdicts
  import S = Salvage
  import K = KeyChange
  import R = Runs
  import opened Steps
  import opened Lookups
  import opened Conversions

  datatype Status = New | Exists

  class Store {
    const fs: FileSystem
    const layout: Layout
    const codec: Codec
    const hexLen: nat
    const form: Form
    const key: Option<Key>
    const pid: nat

    /** Which form answered a lookup last, as the number it is kept in. */
    var firstForm: nat
    /** Whether the key has opened a chunk yet. */
    var keyProven: bool
    /** The next number a temporary file's name may have. */
    var serial: nat

    ghost predicate Valid()
      reads this, fs
    {
      fs.Valid() && layout.Valid() && (form.IsEncrypted() ==> key.Some?)
    }

    constructor (fs: FileSystem, layout: Layout, codec: Codec, hexLen: nat, form: Form, key: Option<Key>, pid: nat)
      requires fs.Valid() && layout.Valid() && (form.IsEncrypted() ==> key.Some?)
      ensures Valid() && this.fs == fs && this.layout == layout && this.codec == codec && this.hexLen == hexLen
      ensures this.form == form && this.key == key && !keyProven
    {
      this.fs, this.layout, this.codec, this.hexLen, this.form, this.key, this.pid := fs, layout, codec, hexLen, form, key, pid;
      firstForm, keyProven, serial := form.AsU8(), false, 0;
    }

    /** Why a digest is none of this store's, if it is not. */
    function Misfit(digest: Digest): (r: Option<Error>)
      ensures r == Some(AlgorithmMismatch(digest)) <==> |digest| != hexLen
      ensures r == Some(DigestTooShort(digest)) <==> |digest| == hexLen && |digest| < 2 * layout.depth
      ensures r.None? <==> |digest| == hexLen && |digest| >= 2 * layout.depth
    {
      if |digest| != hexLen then Some(AlgorithmMismatch(digest))
      else if layout.Shard(digest).None? then Some(DigestTooShort(digest))
      else None
    }

    // -- lookups --------------------------------------------------------------

    /** Ask for one name after another, likeliest first, and remember which answered. */
    method Locate(digest: Digest) returns (r: Result<Option<(Path, Form)>, Error>)
      requires Valid()
      modifies this`firstForm
      ensures r == Err(AlgorithmMismatch(digest)) <==> |digest| != hexLen
      ensures r == Err(DigestTooShort(digest)) <==> |digest| == hexLen && |digest| < 2 * layout.depth
      ensures r.Ok? ==>
                match FirstFile(layout, fs.Files(), digest, Candidates(old(firstForm)))
                case None => r.value == None && firstForm == old(firstForm)
                case Some(f) => r.value == Some((Place(layout, digest, f), f)) && firstForm == f.AsU8()
      ensures r.Err? ==> firstForm == old(firstForm)
      ensures r.Err? && |digest| == hexLen && |digest| >= 2 * layout.depth ==> r.error == Io && !fs.reliable
    {
      if Misfit(digest).Some? {
        return Err(Misfit(digest).value);
      }
      var forms := Candidates(firstForm);
      for i := 0 to |forms|
        invariant firstForm == old(firstForm)
        invariant FirstFile(layout, fs.Files(), digest, forms) == FirstFile(layout, fs.Files(), digest, forms[i..])
      {
        var candidate := Place(layout, digest, forms[i]);
        var kind := fs.Metadata(candidate);
        match kind
        case Ok(File) =>
          firstForm := forms[i].AsU8();
          return Ok(Some((candidate, forms[i])));
        case Ok(Directory) =>
        case Err(NotFound) =>
        case Err(_) =>
          return Err(Io);
      }
      return Ok(None);
    }

    /** Open one name after another: the miss is the answer. */
    method OpenEntry(digest: Digest) returns (r: Result<Option<(Path, Form)>, Error>)
      requires Valid()
      modifies this`firstForm
      ensures r == Err(AlgorithmMismatch(digest)) <==> |digest| != hexLen
      ensures r == Err(DigestTooShort(digest)) <==> |digest| == hexLen && |digest| < 2 * layout.depth
      ensures r.Ok? ==>
                match FirstOpen(layout, fs.dirs, fs.Files(), digest, Candidates(old(firstForm)))
                case None => r.value == None && firstForm == old(firstForm)
                case Some(f) => r.value == Some((Place(layout, digest, f), f)) && firstForm == f.AsU8()
      ensures r.Err? ==> firstForm == old(firstForm)
      ensures r.Err? && |digest| == hexLen && |digest| >= 2 * layout.depth ==> r.error == Io && !fs.reliable
    {
      if Misfit(digest).Some? {
        return Err(Misfit(digest).value);
      }
      var forms := Candidates(firstForm);
      for i := 0 to |forms|
        invariant firstForm == old(firstForm)
        invariant FirstOpen(layout, fs.dirs, fs.Files(), digest, forms) == FirstOpen(layout, fs.dirs, fs.Files(), digest, forms[i..])
      {
        var candidate := Place(layout, digest, forms[i]);
        var kind := fs.Metadata(candidate);
        match kind
        case Ok(what) =>
          assert what.File? || what.Directory?;
          firstForm := forms[i].AsU8();
          return Ok(Some((candidate, forms[i])));
        case Err(NotFound) =>
        case Err(_) =>
          return Err(Io);
      }
      return Ok(None);
    }

    // -- reading --------------------------------------------------------------

    /** What a file being read does out of turn: short reads and interruptions always, failures unless it is reliable. */
    method Hiccups() returns (hiccups: seq<C.Hiccup>)
      ensures fs.reliable ==> C.Steady(hiccups)
    {
      assert C.Steady([]);
      hiccups :| fs.reliable ==> C.Steady(hiccups);
    }

    /** A sealed file's payload, and whether any read of it came back. */
    method OpenSealed(k: Key, bytes: Bytes) returns (r: Result<Bytes, Error>, proven: bool)
      ensures r != Err(Io) ==> r == Payload(Some(k), Enc, bytes) && proven == FirstChunkOpens(k, bytes)
      ensures proven ==> FirstChunkOpens(k, bytes)
      ensures fs.reliable ==> r != Err(Io)
    {
      var hiccups := Hiccups();
      var whole, opens := C.OpenWhole(k, bytes, hiccups, 0x1_0000);
      match whole
      case Ok(text) => return Ok(text), opens;
      case Err(Crate(reason)) =>
        EndingDiscipline(k, k, bytes);
        return Err(CrateError(reason)), opens;
      case Err(_) => return Err(Io), opens;
    }

    /** The content of a file, decoded the way this form says. */
    method ReadContent(path: Path, f: Form) returns (r: Result<Bytes, Error>)
      requires Valid()
      modifies this`keyProven
      ensures r != Err(Io) ==>
                && path in fs.Files() && r == Decode(codec, key, f, fs.Files()[path].bytes)
                && keyProven == (old(keyProven) || Proves(key, f, fs.Files()[path].bytes))
      ensures old(keyProven) ==> keyProven
      ensures keyProven ==> old(keyProven) || (path in fs.Files() && Proves(key, f, fs.Files()[path].bytes))
      ensures r == Err(Io) ==> !fs.reliable || path !in fs.Files()
    {
      var read := fs.ReadFile(path);
      if read.Err? {
        return Err(Io);
      }
      var payload := Ok(read.value);
      if f.IsEncrypted() {
        if key.None? {
          return Err(KeyRequired);
        }
        var proven: bool;
        payload, proven := OpenSealed(key.value, read.value);
        keyProven := keyProven || proven;
      }
      if payload.Err? {
        return payload;
      }
      return if f.IsCompressed() then Decompress(codec, payload.value) else payload;
    }

    /** Whether a file's first chunk opens under this store's key. */
    ghost predicate ProvesIn(files: Image, p: Path) {
      p in files && Proves(key, S.FormAt(layout, p), files[p].bytes)
    }

    /**
    What a call may do to what is known of the key: never forget it, learn it only from
    the one file it read, and learn it from that file for sure if the read came through.
    */
    static ghost predicate Learns(was: bool, now: bool, proof: bool, sure: bool) {
      (was ==> now) && (now ==> was || proof) && (sure && proof ==> now)
    }

    /** A whole entry by digest, in whatever form it lies. */
    method Read(digest: Digest) returns (r: Result<Option<Bytes>, Error>)
      requires Valid()
      modifies this`firstForm, this`keyProven
      ensures r == Err(AlgorithmMismatch(digest)) <==> |digest| != hexLen
      ensures r == Err(DigestTooShort(digest)) <==> |digest| == hexLen && |digest| < 2 * layout.depth
      ensures |digest| == hexLen && |digest| >= 2 * layout.depth ==>
                var found := ReadOf(layout, codec, key, fs.dirs, fs.Files(), digest, old(firstForm));
                if r != Err(Io) then r == found else !fs.reliable || found == Err(Io)
      ensures var found := if |digest| != hexLen || |digest| < 2 * layout.depth then None
                           else FirstOpen(layout, fs.dirs, fs.Files(), digest, Candidates(old(firstForm)));
              Learns(old(keyProven), keyProven, found.Some? && ProvesIn(fs.Files(), Place(layout, digest, found.value)), r != Err(Io))
    {
      var entry := OpenEntry(digest);
      match entry
      case Err(error) => return Err(error);
      case Ok(None) => return Ok(None);
      case Ok(Some((path, f))) =>
        PlaceNames(layout, digest, f);
        assert S.FormAt(layout, path) == f;
        var content := ReadContent(path, f);
        if path in fs.Files() {
          DecodeErrors(codec, key, f, fs.Files()[path].bytes);
        }
        return match content case Ok(bytes) => Ok(Some(bytes)) case Err(error) => Err(error);
    }

    // -- checking -------------------------------------------------------------

    /** What a file's content hashes to: its actual name. */
    method DigestOf(path: Path) returns (r: Result<Digest, Error>)
      requires Valid()
      modifies this`keyProven
      ensures r != Err(Io) ==>
                && path in fs.Files() && r == ContentDigest(codec, key, S.FormAt(layout, path), fs.Files()[path].bytes)
                && keyProven == (old(keyProven) || Proves(key, S.FormAt(layout, path), fs.Files()[path].bytes))
      ensures old(keyProven) ==> keyProven
      ensures keyProven ==> old(keyProven) || (path in fs.Files() && Proves(key, S.FormAt(layout, path), fs.Files()[path].bytes))
      ensures r == Err(Io) ==> !fs.reliable || path !in fs.Files()
    {
      var content := ReadContent(path, S.FormAt(layout, path));
      match content
      case Ok(bytes) => return Ok(codec.hash(bytes));
      case Err(Decoder) => return Err(Error.Damaged);
      case Err(error) => return Err(error);
    }

    method ContentMatches(path: Path, expected: Digest) returns (r: Result<bool, Error>)
      requires Valid()
      modifies this`keyProven
      ensures r != Err(Io) ==> r == S.VerdictAt(layout, codec, key, keyProven, fs.Files(), path, expected)
      ensures r != Err(Io) ==> r == S.VerdictAt(layout, codec, key, old(keyProven), fs.Files(), path, expected)
      ensures r != Err(Io) ==> path in fs.Files()
      ensures Learns(old(keyProven), keyProven, ProvesIn(fs.Files(), path), r != Err(Io))
      ensures r == Err(Io) ==> !fs.reliable || path !in fs.Files()
    {
      var actual := DigestOf(path);
      if actual != Err(Io) && key.Some? {
        FirstChunk(key.value, key.value, fs.Files()[path].bytes);
      }
      match actual
      case Ok(digest) => return Ok(digest == expected);
      case Err(Damaged) => return Ok(false);
      case Err(Unsealable) => return if keyProven then Ok(false) else Err(Error.Unsealable);
      case Err(error) => return Err(error);
    }

    /** Whether an entry's content is what its name says. */
    method Verify(entry: Entry) returns (r: Result<bool, Error>)
      requires Valid()
      modifies this`keyProven
      ensures |entry.digest| != hexLen ==> r == Err(AlgorithmMismatch(entry.digest)) && keyProven == old(keyProven)
      ensures |entry.digest| == hexLen && r != Err(Io) ==>
                r == S.VerdictAt(layout, codec, key, old(keyProven), fs.Files(), entry.path, entry.digest)
      ensures r == Err(Io) ==> !fs.reliable || entry.path !in fs.Files()
      ensures Learns(old(keyProven), keyProven, |entry.digest| == hexLen && ProvesIn(fs.Files(), entry.path), r != Err(Io))
    {
      if |entry.digest| != hexLen {
        return Err(AlgorithmMismatch(entry.digest));
      }
      r := ContentMatches(entry.path, entry.digest);
    }

    /** Look for an entry that proves the key. */
    method ProveKey() returns (r: Result<bool, Error>)
      requires Valid()
      modifies this`keyProven
      ensures key.None? ==> r == Err(KeyRequired) && keyProven == old(keyProven)
      ensures r == Ok(true) ==> keyProven
      ensures old(keyProven) ==> keyProven
      ensures keyProven ==> old(keyProven) || SomeProof()
      ensures r == Ok(false) ==> !old(keyProven)
      ensures r == Ok(false) && fs.reliable ==> Tried({})
      ensures fs.reliable && key.Some? ==> r.Ok?
    {
      if key.None? {
        return Err(KeyRequired);
      }
      if keyProven {
        return Ok(true);
      }
      var entries := new Entries(fs, layout, OnlyEntries);
      r := Err(Io);
      var searching := true;
      while searching
        invariant fresh(entries) && (searching ==> Searching(entries))
        invariant !searching ==> (r == Ok(true) <==> keyProven) && (keyProven ==> SomeProof())
        invariant !searching ==> (r == Ok(false) && fs.reliable ==> Tried({})) && (r.Err? ==> !fs.reliable)
        decreases searching, entries.Unread(), |entries.ready|
      {
        searching, r := TryNext(entries);
      }
    }

    /** One entry of that search. */
    method TryNext(entries: Entries) returns (searching: bool, r: Result<bool, Error>)
      requires Valid() && key.Some? && Searching(entries)
      modifies entries, this`keyProven
      ensures searching ==>
                && Searching(entries)
                && (entries.Unread() < old(entries.Unread())
                    || (entries.Unread() == old(entries.Unread()) && |entries.ready| < |old(entries.ready)|))
      ensures !searching ==> (r == Ok(true) <==> keyProven) && (keyProven ==> SomeProof())
      ensures !searching ==> (r == Ok(false) && fs.reliable ==> Tried({})) && (r.Err? ==> !fs.reliable)
    {
      var item := entries.Next();
      match item
      case None =>
        return false, Ok(false);
      case Some(Err(_)) =>
        return false, Err(Io);
      case Some(Ok(entry)) =>
        if entry.form.IsEncrypted() {
          ProofAt(entry, entries);
          var proved := ReadByte(entry.path, entry.form);
          if proved {
            return false, Ok(true);
          }
        }
        return true, Ok(false);
    }

    ghost predicate SomeProof()
      reads this, fs
    {
      exists p :: p in Walked(OnlyEntries, layout, fs.Files()) && ProvesAt(p)
    }

    /** The walk so far met nothing that proves the key. */
    ghost predicate Searching(entries: Entries)
      reads this, fs, entries
    {
      && entries.fs == fs && entries.Valid() && entries.layout == layout && entries.walk == OnlyEntries && !keyProven
      && entries.Remaining() <= Walked(OnlyEntries, layout, fs.Files())
      && (fs.reliable ==> entries.Faultless() && Tried(entries.Remaining()))
    }

    /** For what the walk hands out, the entry's form is the one its name says. */
    lemma ProofAt(entry: Entry, entries: Entries)
      requires layout.Valid() && entries.layout == layout && entries.walk == OnlyEntries
      requires EntryOk(entries.walk, entries.layout, entry, entries.dirs)
      ensures S.FormAt(layout, entry.path) == entry.form
    {
    }

    /** None of the entries but these would prove the key. */
    ghost predicate Tried(left: set<Path>)
      reads this, fs
    {
      forall p | p in Walked(OnlyEntries, layout, fs.Files()) && p !in left :: !ProvesAt(p)
    }

    /** Whether reading this file would prove the key. */
    ghost predicate ProvesAt(p: Path)
      reads this, fs
    {
      ProvesIn(fs.Files(), p)
    }

    /** One byte of a sealed entry: enough to settle its first chunk. */
    method ReadByte(path: Path, f: Form) returns (proved: bool)
      requires Valid() && key.Some? && f.IsEncrypted() && !keyProven
      modifies this`keyProven
      ensures keyProven == proved
      ensures proved ==> path in fs.Files() && Proves(key, f, fs.Files()[path].bytes)
      ensures fs.reliable && path in fs.Files() ==> proved == Proves(key, f, fs.Files()[path].bytes)
    {
      var read := fs.ReadFile(path);
      if read.Err? {
        return false;
      }
      var hiccups := Hiccups();
      var opens := C.OpensWith(key.value, read.value, hiccups);
      keyProven := opens == Ok(true);
      return keyProven;
    }

    // -- setting aside and giving back ----------------------------------------

    /** Take an entry's name away, keeping every byte: under the first free of a hundred names. */
    method Quarantine(entry: Entry) returns (r: Result<Entry, Error>)
      requires Valid() && entry.path != []
      modifies fs`disk
      ensures Valid()
      ensures r.Ok? ==>
                && S.Quarantine(layout, fs.dirs, old(fs.Files()), entry) == Ok(r.value.path)
                && r.value == Entry(entry.digest, r.value.path, entry.form)
                && fs.disk == Move(old(fs.disk), entry.path, r.value.path)
      ensures r.Err? ==> fs.disk == old(fs.disk)
      ensures r.Err? && (fs.reliable || r.error != Io) ==> S.Quarantine(layout, fs.dirs, fs.Files(), entry) == Err(r.error)
      ensures fs.reliable && entry.path in old(fs.Files()) ==>
                (r.Ok? <==> exists n :: 0 <= n < 100 && !S.Taken(fs.dirs, old(fs.Files()), S.AsidePath(layout, entry, n)))
    {
      for number := 0 to S.ATTEMPTS
        invariant Valid() && fs.disk == old(fs.disk)
        invariant S.FreeSerial(layout, fs.dirs, fs.Files(), entry, 0) == S.FreeSerial(layout, fs.dirs, fs.Files(), entry, number)
      {
        var target := S.AsidePath(layout, entry, number);
        if target in fs.Files() || target in fs.dirs {
          continue;
        }
        assert Parent(target) == Parent(entry.path);
        var renamed := fs.Rename(entry.path, target);
        if renamed.Err? {
          return Err(Io);
        }
        return Ok(Entry(entry.digest, target, entry.form));
      }
      return Err(QuarantineNamesTaken(entry.path));
    }

    /** Undo a quarantine of bytes that verify after all. */
    method Restore(aside: Entry) returns (r: Result<Option<Entry>, Error>)
      requires Valid() && aside.path != []
      modifies this`keyProven, fs`disk
      ensures Valid()
      ensures r.Ok? && r.value.Some? ==>
                && aside.path in old(fs.Files()) && r.value == Some(Entry(aside.digest, S.NameBack(layout, aside), aside.form))
                && fs.disk == Move(old(fs.disk), aside.path, r.value.value.path)
      ensures r.Ok? ==>
                S.Restore(layout, codec, key, old(keyProven), hexLen, fs.dirs, old(fs.Files()), aside)
                == Ok(if r.value.Some? then Some(r.value.value.path) else None)
      ensures r == Ok(None) || r.Err? ==> fs.disk == old(fs.disk)
      ensures r.Err? && r.error != Io ==>
                S.Restore(layout, codec, key, old(keyProven), hexLen, fs.dirs, fs.Files(), aside) == Err(r.error)
      ensures r == Err(Io) ==> !fs.reliable || aside.path !in fs.Files()
      ensures Learns(old(keyProven), keyProven, |aside.digest| == hexLen && ProvesIn(old(fs.Files()), aside.path), r != Err(Io))
    {
      if |aside.digest| != hexLen {
        return Err(AlgorithmMismatch(aside.digest));
      }
      var same := ContentMatches(aside.path, aside.digest);
      if same.Err? {
        return Err(same.error);
      }
      if !same.value {
        return Ok(None);
      }
      var destination := S.NameBack(layout, aside);
      if destination in fs.Files() || destination in fs.dirs {
        return Err(Obstructed(destination));
      }
      assert Parent(destination) == Parent(aside.path);
      var renamed := fs.Rename(aside.path, destination);
      if renamed.Err? {
        return Err(Io);
      }
      return Ok(Some(Entry(aside.digest, destination, aside.form)));
    }

    /** Delete a file that was set aside. */
    method Discard(aside: Entry) returns (r: Result<(), Error>)
      requires Valid()
      modifies fs`disk
      ensures Valid()
      ensures r.Ok? ==> aside.path in old(fs.Files()) && fs.Files() == old(fs.Files()) - {aside.path}
      ensures r.Err? ==> fs.disk == old(fs.disk) && (!fs.reliable || aside.path !in fs.Files())
    {
      var removed := fs.RemoveFile(aside.path);
      return if removed.Ok? then Ok(()) else Err(Io);
    }

    // -- by prefix ------------------------------------------------------------

    /** The shortest prefix that narrows anything. */
    function MinPrefix(): nat { (layout.depth + 1) * 2 }

    /** The digests that begin with a prefix, sorted, from the one shard they can lie in. */
    method Matching(given: string) returns (r: Result<seq<Digest>, Error>)
      requires Valid()
      ensures var prefix := Lower(given);
              && (prefix == "" || !AllHex(prefix) ==> r == Err(InvalidPrefix(prefix)))
              && (prefix != "" && AllHex(prefix) && |prefix| < 2 * layout.depth + 2 ==>
                    r == Err(PrefixTooShort(prefix, layout.depth, 2 * layout.depth + 2)))
              && (r.Ok? ==>
                    && |prefix| >= 2 * layout.depth + 2 && Increasing(r.value, true)
                    && forall d :: d in r.value <==> InShard(layout, fs.dirs, fs.Files(), prefix, d))
              && (r.Ok? && WellPlaced(layout, fs.Files()) && NoEntryDirectories(layout, fs.dirs) ==>
                    forall d :: d in r.value <==> prefix <= d && HasEntry(layout, fs.Files(), d))
              && (fs.reliable && prefix != "" && AllHex(prefix) && |prefix| >= 2 * layout.depth + 2 ==> r.Ok?)
      ensures r.Ok? ==> forall d | d in r.value ::
                |given| <= |d| && forall i | 0 <= i < |given| :: HexValue(d[i]) == HexValue(given[i])
    {
      var prefix := Lower(given);
      if prefix == "" || !AllHex(prefix) {
        return Err(InvalidPrefix(prefix));
      }
      if |prefix| < MinPrefix() {
        return Err(PrefixTooShort(prefix, layout.depth, MinPrefix()));
      }
      if WellPlaced(layout, fs.Files()) && NoEntryDirectories(layout, fs.dirs) {
        forall d: Digest
          ensures InShard(layout, fs.dirs, fs.Files(), prefix, d) <==> prefix <= d && HasEntry(layout, fs.Files(), d)
        {
          ShardIsEnough(layout, fs.dirs, fs.Files(), prefix, d);
          InTreeExactly(layout, fs.Files(), prefix, d);
        }
      }
      var shard := Shards(prefix, layout.depth).value;
      var listing := fs.ReadDir(shard);
      match listing
      case Err(NotFound) =>
        forall name
          ensures !Lists(fs.dirs, fs.Files(), shard, name)
        {
          assert Parent(shard + [name]) == shard;
        }
        return Ok([]);
      case Err(_) =>
        return Err(Io);
      case Ok(names) =>
        var found := MatchingIn(prefix, names);
        if found.Err? {
          return found;
        }
        SortedOnce(found.value);
        LowerExact(given);
        ListedIsInShard(layout, fs.dirs, fs.Files(), prefix, names);
        return Ok(Dedup(Sort(found.value)));
    }

    /** The digests among a listing's names that begin with the prefix. */
    method MatchingIn(prefix: string, names: seq<string>) returns (r: Result<seq<Digest>, Error>)
      ensures r.Ok? ==> forall d :: d in r.value <==> Listed(layout, prefix, names, d)
      ensures r.Err? ==> r.error == Io && !fs.reliable
    {
      var found: seq<Digest> := [];
      for i := 0 to |names|
        invariant forall d :: d in found <==> Listed(layout, prefix, names[..i], d)
      {
        var fault := fs.Fault();
        if fault {
          return Err(Io);
        }
        ListedMore(layout, prefix, names, i);
        var named := layout.ParseName(names[i]);
        if named.Some? && prefix <= named.value.0 {
          found := found + [named.value.0];
        }
      }
      assert names[..|names|] == names;
      return Ok(found);
    }

    // -- writing --------------------------------------------------------------

    /** A temporary file in the store's own directory for them. */
    method NewTemp() returns (r: Result<TempFile, Error>)
      requires Valid()
      modifies this`serial, fs`disk, fs`dirs
      ensures Valid() && old(fs.dirs) <= fs.dirs <= old(fs.dirs) + {[DIR]}
      ensures r.Ok? ==>
                && fresh(r.value) && r.value.fs == fs && r.value.Holding() && IsTempPath(r.value.path)
                && r.value.path !in old(fs.Files()) && fs.Files() == old(fs.Files())[r.value.path := Blob([], false)]
      ensures SameBut(old(fs.Files()), fs.Files(), {})
      ensures r.Ok? ==> fs.disk == CreateFile(old(fs.disk), r.value.path)
      ensures r.Err? ==> r == Err(Io) && fs.disk == old(fs.disk)
      ensures fs.reliable ==> (r.Ok? <==> [DIR] !in old(fs.Files()))
    {
      assert Clear(fs.Files(), [DIR]) <==> [DIR] !in fs.Files() by {
        assert [DIR][..1] == [DIR];
      }
      var made := fs.CreateDirs([DIR]);
      forall d | d in fs.dirs
        ensures d in old(fs.dirs) || d == [DIR]
      {
        assert d == [] || d[0] == DIR || !(d <= [DIR]);
      }
      if made.Err? {
        return Err(Io);
      }
      var temp, next := TempFile.CreateIn(fs, [DIR], pid, serial);
      serial := next;
      if temp.Err? {
        return Err(Io);
      }
      TempNameRoundTrip(pid, next - 1, pid, next - 1);
      return Ok(temp.value);
    }

    /** Seal a payload if the form asks for it, under a nonce prefix drawn for this write. */
    method Wrapped(target: Form, payload: Bytes) returns (r: Result<Bytes, Error>, ghost nonce: Bytes)
      requires Valid()
      ensures |nonce| == PREFIX && r == Wrap(key, nonce, target, payload) && Says(r, Wrap(key, [], target, payload))
    {
      var zeros: Bytes := seq(19, _ => Plain(0));
      var drawn: Bytes :| |drawn| == |zeros|;
      nonce := drawn;
      if !target.IsEncrypted() {
        return Ok(payload), nonce;
      }
      if key.None? {
        return Err(KeyRequired), nonce;
      }
      var whole := C.SealPieces(key.value, drawn, [payload]);
      assert C.Joined([payload]) == payload;
      return match whole case Ok(sealed) => Ok(sealed) case Err(_) => Err(Error.TooManyChunks), nonce;
    }

    /** Fill a temporary file, or give it up: the steps of a file on its way to some name. */
    method WriteOut(temp: TempFile, data: Bytes, ghost dest: Path) returns (r: Result<(), Error>, ghost ops: seq<R.Op>)
      requires Valid() && temp.fs == fs && temp.Holding() && IsTempPath(temp.path) && fs.Files()[temp.path] == Blob([], false)
      modifies fs`disk
      ensures Valid() && SameBut(old(fs.Files()), fs.Files(), {})
      ensures r.Ok? ==> temp.Holding() && fs.Files()[temp.path].bytes == data
      ensures r.Err? ==> r == Err(Io) && !fs.reliable
      ensures var put := R.Put(temp.path, dest, data, R.Filling(0));
              Takes(old(fs.disk), put, ops, fs.disk, put.(stage := if r.Ok? then R.Filling(|data|) else R.Broken))
      ensures r.Ok? ==> fs.disk == WriteFile(old(fs.disk), temp.path, data)
      ensures r.Err? ==> exists n, gone :: FilledInVain(old(fs.disk), fs.disk, temp.path, data, n, gone)
    {
      hide Takes;
      ghost var d, put := fs.disk, R.Put(temp.path, dest, data, R.Filling(0));
      assert [] + data == data && data[..|data|] == data && forall n | 0 <= n <= |data| :: [] + data[..n] == data[..n];
      var written := temp.WriteAll(data);
      if written.Err? {
        ghost var n: nat :| n <= |data| && fs.disk == WriteFile(d, temp.path, [] + data[..n]);
        ghost var gone := temp.Drop();
        ops := FillsInVain(d, put, n, gone);
        assert FilledInVain(d, fs.disk, temp.path, data, n, gone);
        return Err(Io), ops;
      }
      ops := Fills(d, put, |data|);
      return Ok(()), ops;
    }

    /** So much of it went into the file before that was given up. */
    static ghost predicate FilledInVain(d: Disk, d': Disk, temp: Path, data: Bytes, n: nat, gone: bool) {
      n <= |data| && d' == R.Remove(WriteFile(d, temp, data[..n]), temp, gone)
    }

    /** Whether content can be put into this store's form at all: it does not depend on the nonce drawn. */
    predicate CanEncode(data: Bytes) { Encode(codec, key, [], form, data).Ok? }

    /** What writing content under a free name comes to where no call fails. */
    ghost function NewComes(dirs: set<Path>, files: Image, digest: Digest, data: Bytes): Result<(), Error> {
      if [DIR] in files then Err(Io)
      else if !CanEncode(data) then Err(Error.TooManyChunks)
      else if Placeable(ThisWorld(), form, dirs, files, digest) then Ok(())
      else Err(Io)
    }

    /** And that in full. */
    lemma NewComesExactly(dirs: set<Path>, files: Image, digest: Digest, data: Bytes)
      requires layout.Shard(digest).Some? && (form.IsEncrypted() ==> key.Some?)
      ensures Place(layout, digest, form) !in files ==>
                var comes, long := NewComes(dirs, files, digest, data), form == Enc && |codec.compress(data)| >= 0xFFFF_FFFF_0000;
                && (comes.Ok? <==> && ["tmp"] !in files && !long && Place(layout, digest, form) !in dirs
                                   && forall i | 0 < i <= layout.depth :: layout.Shard(digest).value[..i] !in files)
                && (comes.Err? ==> comes.error == if ["tmp"] !in files && long then Error.TooManyChunks else Io)
    {
      EncodeExact(codec, key, [], data);
    }

    /** What the step machines know of this store. */
    ghost function Machine(): R.Config { R.ConfigOf(layout, codec, key) }

    /** An add of this content as the machine has it, with the nonce it draws and the form it looks at first. */
    ghost function Caller(data: Bytes, nonce: Bytes, hint: nat, stage: R.WriterStage): R.Writer {
      R.Writer(data, nonce, form, Form.FromU8(hint), false, false, stage)
    }

    /** Its file, written whole. */
    ghost function Written(temp: Path, digest: Digest, bytes: Bytes): R.Put {
      R.Put(temp, if layout.Shard(digest).Some? then Place(layout, digest, form) else [], bytes, R.Filling(|bytes|))
    }

    /** Put a finished file under its digest's name; if the name is taken, what has it must verify. */
    method PlaceFile(temp: TempFile, digest: Digest, ghost w: R.Writer) returns (r: Result<Path, Error>, ghost ops: seq<R.Op>)
      requires Valid() && temp.fs == fs && temp.Holding() && IsTempPath(temp.path)
      requires codec.hash(w.content) == digest && w.form == form && !w.streaming
      requires w.stage == R.Putting(Written(temp.path, digest, fs.Files()[temp.path].bytes))
      modifies this`keyProven, temp, fs`disk, fs`dirs
      ensures Valid() && Branched(layout, old(fs.dirs), fs.dirs)
      ensures r.Ok? ==>
                && layout.Shard(digest).Some? && r.value == Place(layout, digest, form) && r.value in fs.Files()
                && SameBut(old(fs.Files()), fs.Files(), {r.value})
                && (fs.Files()[r.value].bytes == old(fs.Files())[temp.path].bytes
                    || (r.value in old(fs.Files()) && Good(codec, key, form, fs.Files()[r.value].bytes, digest)))
      ensures r.Err? ==> SameBut(old(fs.Files()), fs.Files(), {})
      ensures fs.reliable ==> (r.Ok? <==> Placeable(ThisWorld(), form, old(fs.dirs), old(fs.Files()), digest))
      ensures layout.Shard(digest).Some? && Place(layout, digest, form) !in old(fs.Files()) && fs.reliable && r.Err? ==> r.error == Io
      ensures Learns(old(keyProven), keyProven,
                     layout.Shard(digest).Some? && ProvesIn(old(fs.Files()), Place(layout, digest, form)), r != Err(Io))
      ensures Writes(Machine(), old(fs.disk), w, ops, fs.disk, if r.Ok? then R.Done(R.New) else R.GaveUp)
    {
      hide Writes, Takes, R.ConfigOf, Branched, Good, IsTempPath;
      ghost var d, put, dirs := fs.disk, w.stage.put, fs.dirs;
      BranchedThen(layout, dirs, dirs, dirs);
      var shard := layout.Shard(digest);
      if shard.None? {
        ghost var gone := temp.Drop();
        GivesUp(Machine(), d, w, put, gone);
        return Err(DigestTooShort(digest)), [R.Fail(gone)];
      }
      var made := fs.CreateDirs(shard.value);
      BranchedTo(layout, dirs, fs.dirs, digest);
      if made.Err? {
        ghost var gone := temp.Drop();
        GivesUp(Machine(), d, w, put, gone);
        return Err(Io), [R.Fail(gone)];
      }
      r, ops := PersistNamed(temp, digest, w);
    }

    /** The name, now that there is a directory for it. */
    method PersistNamed(temp: TempFile, digest: Digest, ghost w: R.Writer) returns (r: Result<Path, Error>, ghost ops: seq<R.Op>)
      requires Valid() && temp.fs == fs && temp.Holding() && IsTempPath(temp.path) && layout.Shard(digest).Some?
      requires codec.hash(w.content) == digest && w.form == form && !w.streaming
      requires w.stage == R.Putting(Written(temp.path, digest, fs.Files()[temp.path].bytes))
      modifies this`keyProven, temp, fs`disk
      ensures Valid()
      ensures r.Ok? ==>
                && r.value == Place(layout, digest, form) && r.value in fs.Files()
                && SameBut(old(fs.Files()), fs.Files(), {r.value})
                && (fs.Files()[r.value].bytes == old(fs.Files())[temp.path].bytes
                    || (r.value in old(fs.Files()) && Good(codec, key, form, fs.Files()[r.value].bytes, digest)))
      ensures r.Err? ==> SameBut(old(fs.Files()), fs.Files(), {})
      ensures var path := Place(layout, digest, form);
              fs.reliable && layout.Shard(digest).value in fs.dirs ==>
                (r.Ok? <==> path !in fs.dirs && (path in old(fs.Files()) ==> Good(codec, key, form, old(fs.Files())[path].bytes, digest)))
      ensures Place(layout, digest, form) !in old(fs.Files()) && fs.reliable && r.Err? ==> r.error == Io
      ensures Learns(old(keyProven), keyProven, ProvesIn(old(fs.Files()), Place(layout, digest, form)), r != Err(Io))
      ensures Writes(Machine(), old(fs.disk), w, ops, fs.disk, if r.Ok? then R.Done(R.New) else R.GaveUp)
    {
      hide Writes, R.ConfigOf, Good;
      ghost var d := fs.disk;
      var path := Place(layout, digest, form);
      PlaceNames(layout, digest, form);
      var placed: Result<bool, Kind>;
      placed, ops := Rename(temp, digest, w);
      match placed
      case Err(_) => return Err(Io), ops;
      case Ok(true) => return Ok(path), ops;
      case Ok(false) =>
        var same := Holds(path, digest);
        Compared(d, w, fs.disk, ops, digest);
        return if same.Ok? then Ok(path) else Err(same.error), ops + [if same.Ok? then R.Compare else R.Fail(false)];
    }

    /** The rename itself, and whose the name is then. */
    method Rename(temp: TempFile, digest: Digest, ghost w: R.Writer) returns (placed: Result<bool, Kind>, ghost ops: seq<R.Op>)
      requires Valid() && temp.fs == fs && temp.Holding() && IsTempPath(temp.path) && layout.Shard(digest).Some?
      requires !w.streaming && w.stage == R.Putting(Written(temp.path, digest, fs.Files()[temp.path].bytes))
      modifies temp, fs`disk
      ensures Valid()
      ensures var path := Place(layout, digest, form);
              && (placed == Ok(true) ==>
                    && path !in old(fs.Files()) && path in fs.Files() && SameBut(old(fs.Files()), fs.Files(), {path})
                    && fs.Files()[path].bytes == old(fs.Files())[temp.path].bytes)
              && (placed != Ok(true) ==> SameBut(old(fs.Files()), fs.Files(), {}))
              && (placed == Ok(false) ==> path in fs.Files())
              && (fs.reliable && layout.Shard(digest).value in fs.dirs && path !in fs.dirs ==> placed == Ok(path !in old(fs.Files())))
      ensures Writes(Machine(), old(fs.disk), w, ops, fs.disk, Named(placed))
    {
      hide Writes, Takes, R.ConfigOf, TempFile.Placed, TempFile.EndOf, Named, IsTempPath, FileOf;
      ghost var d, put := fs.disk, w.stage.put;
      var path := Place(layout, digest, form);
      PlaceNames(layout, digest, form);
      placed, ops := temp.Persist(path);
      NameWrites(Machine(), d, w, put, ops, fs.disk, placed);
    }

    /** Whether what has a name of this store's form is the content it says. */
    method Holds(path: Path, digest: Digest) returns (r: Result<(), Error>)
      requires Valid() && path in fs.Files() && layout.Shard(digest).Some? && path == Place(layout, digest, form)
      modifies this`keyProven
      ensures r.Ok? ==> Good(codec, key, form, fs.Files()[path].bytes, digest)
      ensures fs.reliable ==> (r.Ok? <==> Good(codec, key, form, fs.Files()[path].bytes, digest))
      ensures Learns(old(keyProven), keyProven, ProvesIn(fs.Files(), path), r != Err(Io))
    {
      hide Good, Verdict;
      PlaceNames(layout, digest, form);
      assert S.FormAt(layout, path) == form;
      TrueMeansGood(codec, key, keyProven, form, fs.Files()[path].bytes, digest);
      var same := ContentMatches(path, digest);
      if same.Err? {
        return Err(same.error);
      }
      return if same.value then Ok(()) else Err(Obstructed(path));
    }

    /** What the machine makes of a lost race. */
    lemma Compared(d: Disk, w: R.Writer, placed: Disk, ops: seq<R.Op>, digest: Digest)
      requires layout.Shard(digest).Some? && codec.hash(w.content) == digest && w.form == form
      requires Writes(Machine(), d, w, ops, placed, R.Comparing) && Place(layout, digest, form) in Live(placed)
      ensures Writes(Machine(), d, w, ops + [R.Fail(false)], placed, R.GaveUp)
      ensures Writes(Machine(), d, w, ops + [R.Compare], placed,
                     if Good(codec, key, form, Live(placed)[Place(layout, digest, form)].bytes, digest) then R.Done(R.New) else R.GaveUp)
    {
      hide Writes, Good;
      Settles(Machine(), d, w, placed, ops);
    }

    /** Store content under its hash. Afterwards a good file of it is there, and nothing else was touched. */
    method Add(data: Bytes) returns (r: Result<(Status, Entry), Error>, ghost nonce: Bytes, ghost ops: seq<R.Op>)
      requires Valid() && Lawful(codec)
      modifies this`firstForm, this`keyProven, this`serial, fs`disk, fs`dirs
      ensures Valid()
      ensures r.Ok? ==>
                var (status, entry) := r.value;
                && entry.digest == codec.hash(data) && layout.Shard(entry.digest).Some?
                && entry.path == Place(layout, entry.digest, entry.form) && entry.path in fs.Files()
                && (status == Exists <==> exists f: Form :: Place(layout, entry.digest, f) in old(fs.Files()))
                && (status == Exists ==> fs.disk == old(fs.disk))
                && (status == New ==> entry.form == form && entry.path in fs.Files()
                                      && Good(codec, key, form, fs.Files()[entry.path].bytes, entry.digest))
                && SameBut(old(fs.Files()), fs.Files(), {entry.path})
      ensures r.Err? ==> SameBut(old(fs.Files()), fs.Files(), {})
      ensures |codec.hash(data)| != hexLen ==> r == Err(AlgorithmMismatch(codec.hash(data)))
      ensures |codec.hash(data)| == hexLen && |codec.hash(data)| < 2 * layout.depth ==> r == Err(DigestTooShort(codec.hash(data)))
      ensures fs.reliable && |codec.hash(data)| == hexLen && |codec.hash(data)| >= 2 * layout.depth ==>
                var digest, files := codec.hash(data), old(fs.Files());
                r.Ok? <==>
                  || (exists f: Form :: Place(layout, digest, f) in files)
                  || (&& ["tmp"] !in files && (form == Enc ==> |codec.compress(data)| < 0xFFFF_FFFF_0000)
                      && Place(layout, digest, form) !in old(fs.dirs)
                      && forall i | 0 < i <= layout.depth :: layout.Shard(digest).value[..i] !in files)
      ensures fs.reliable && |codec.hash(data)| == hexLen && |codec.hash(data)| >= 2 * layout.depth && r.Err? ==>
                r.error == if ["tmp"] !in old(fs.Files()) && form == Enc && |codec.compress(data)| >= 0xFFFF_FFFF_0000
                           then Error.TooManyChunks else Io
      ensures r.Ok? && r.value.0 == Exists ==>
                && FirstFile(layout, fs.Files(), codec.hash(data), Candidates(old(firstForm))) == Some(r.value.1.form)
                && firstForm == r.value.1.form.AsU8()
      ensures !(r.Ok? && r.value.0 == Exists) ==> firstForm == old(firstForm)
      ensures r.Ok? ==>
                var digest, w := codec.hash(data), ThisWorld();
                var free := forall f: Form :: Place(layout, digest, f) !in old(fs.Files());
                && (HasGoodEntry(w, fs.Files(), digest) <==> free || HasGoodEntry(w, old(fs.Files()), digest))
                && (HasGoodInPlace(w, fs.Files(), digest) <==> free || HasGoodInPlace(w, old(fs.Files()), digest))
      ensures keyProven == old(keyProven)
      ensures WellPlaced(layout, old(fs.Files())) ==> WellPlaced(layout, fs.Files())
      ensures NoEntryDirectories(layout, old(fs.dirs)) ==> NoEntryDirectories(layout, fs.dirs)
      ensures CanEncode(data) ==>
                Writes(Machine(), old(fs.disk), Calling(data, nonce, old(firstForm)), ops, fs.disk, Answer(r))
      ensures !CanEncode(data) ==> (r.Ok? ==> r.value.0 == Exists) && Wasted(old(fs.disk), fs.disk)
    {
      hide HasGoodEntry, HasGoodInPlace, Good, NewComes, Writes, R.ConfigOf, CanEncode, Clear, Candidates, WellPlaced, NoEntryDirectories, Branched;
      ghost var d, hint, dirs := fs.disk, firstForm, fs.dirs;
      nonce := seq(19, _ => Plain(0));
      var digest := codec.hash(data);
      if layout.Shard(digest).Some? {
        HintNeverHides(layout, fs.dirs, fs.Files(), digest, firstForm);
        NewComesExactly(fs.dirs, fs.Files(), digest, data);
      }
      var there := Locate(digest);
      match there
      case Err(error) =>
        NotFound(d, data, nonce, hint);
        return Err(error), nonce, [R.Fail(false)];
      case Ok(Some((path, f))) =>
        FirstOf(layout, fs.dirs, fs.Files(), digest, Candidates(hint));
        ops := Looked(d, data, nonce, hint);
        return Ok((Exists, Entry(digest, path, f))), nonce, ops;
      case Ok(None) =>
        var path: Result<Path, Error>;
        path, nonce, ops := WriteNew(digest, data, hint);
        StaysInOrder(layout, Live(d), fs.Files(), dirs, fs.dirs, digest, form);
        ghost var look := Looked(d, data, nonce, hint);
        if CanEncode(data) {
          WritesThen(Machine(), d, Calling(data, nonce, hint), look, d, R.Creating, ops, fs.disk,
                     if path.Ok? then R.Done(R.New) else R.GaveUp);
        }
        ops := look + ops;
        if path.Err? {
          return Err(path.error), nonce, ops;
        }
        PlacedIsGood(ThisWorld(), fs.Files(), digest, form);
        return Ok((New, Entry(digest, path.value, form))), nonce, ops;
    }

    /** An add as it is called. */
    ghost function Calling(data: Bytes, nonce: Bytes, hint: nat): R.Writer {
      Caller(data, nonce, hint, R.Looking(Candidates(hint), None))
    }

    /** Its steps are a run of the machine, from any state with room for it. */
    lemma {:induction false} AddIsRun(s: R.State, id: nat, data: Bytes, nonce: Bytes, hint: nat, ops: seq<R.Op>, d': Disk, stage: R.WriterStage)
      requires id !in s.writers && layout.Shard(codec.hash(data)).Some?
      requires Writes(Machine(), s.disk, Calling(data, nonce, hint), ops, d', stage)
      ensures var w := Calling(data, nonce, hint);
              R.Run(Machine(), s, [R.Call(id, w)] + WriteActs(id, ops))
              == Some(s.(disk := d', writers := s.writers[id := w.(stage := stage)]))
    {
      hide Writes, R.Run;
      CallIsRun(Machine(), s, id, Calling(data, nonce, hint), ops, d', stage);
    }

    static ghost function Answer(r: Result<(Status, Entry), Error>): R.WriterStage {
      match r
      case Ok((New, _)) => R.Done(R.New)
      case Ok((Exists, _)) => R.Done(R.Exists)
      case Err(_) => R.GaveUp
    }

    lemma NotFound(d: Disk, data: Bytes, nonce: Bytes, hint: nat)
      ensures Writes(Machine(), d, Calling(data, nonce, hint), [R.Fail(false)], d, R.GaveUp)
    {
      WritesOne(Machine(), d, Calling(data, nonce, hint), R.Fail(false), d, R.GaveUp);
    }

    /** The lookup of an add: a hit ends it, a miss lets it write. */
    lemma Looked(d: Disk, data: Bytes, nonce: Bytes, hint: nat) returns (ops: seq<R.Op>)
      requires layout.Shard(codec.hash(data)).Some?
      ensures Writes(Machine(), d, Calling(data, nonce, hint), ops, d,
                     if exists f: Form :: Place(layout, codec.hash(data), f) in Live(d) then R.Done(R.Exists) else R.Creating)
    {
      hide Writes, Candidates;
      var cfg, w, digest := Machine(), Calling(data, nonce, hint), codec.hash(data);
      ops := Looks(cfg, d, w, Candidates(hint));
      if f :| f in Candidates(hint) && cfg.place(R.DigestOf(cfg, w), f) in Live(d) {
        assert Place(layout, digest, f) in Live(d);
      }
      if f: Form :| Place(layout, digest, f) in Live(d) {
        AllTried(hint, f);
        assert cfg.place(R.DigestOf(cfg, w), f) in Live(d);
      }
    }

    static lemma SameThrough(a: Image, b: Image, c: Image, paths: set<Path>, more: set<Path>)
      requires SameBut(a, b, paths) && SameBut(b, c, more)
      ensures SameBut(a, c, paths + more)
    {
    }

    /** Temporary files prove nothing that an entry's file would. */
    lemma SameProof(files: Image, files': Image, digest: Digest, f: Form)
      requires layout.Valid() && SameBut(files, files', {})
      ensures layout.Shard(digest).Some? ==>
                ProvesIn(files, Place(layout, digest, f)) == ProvesIn(files', Place(layout, digest, f))
    {
      if layout.Shard(digest).Some? {
        PlaceNames(layout, digest, f);
      }
    }

    /** The writing half of an add, for content that is not there yet. */
    method WriteNew(digest: Digest, data: Bytes, ghost hint: nat)
      returns (r: Result<Path, Error>, ghost nonce: Bytes, ghost ops: seq<R.Op>)
      requires Valid() && Lawful(codec) && digest == codec.hash(data)
      requires layout.Shard(digest).Some? && Place(layout, digest, form) !in fs.Files()
      modifies this`keyProven, this`serial, fs`disk, fs`dirs
      ensures Valid()
      ensures r.Ok? ==>
                && layout.Shard(digest).Some? && r.value == Place(layout, digest, form) && r.value in fs.Files()
                && Good(codec, key, form, fs.Files()[r.value].bytes, digest)
                && SameBut(old(fs.Files()), fs.Files(), {r.value})
      ensures r.Err? ==> SameBut(old(fs.Files()), fs.Files(), {})
      ensures Branched(layout, old(fs.dirs), fs.dirs)
      ensures fs.reliable ==> Says(r, old(NewComes(fs.dirs, fs.Files(), digest, data)))
      ensures Learns(old(keyProven), keyProven,
                     layout.Shard(digest).Some? && ProvesIn(old(fs.Files()), Place(layout, digest, form)), r.Ok?)
      ensures CanEncode(data) ==>
                Writes(Machine(), old(fs.disk), Caller(data, nonce, hint, R.Creating), ops, fs.disk,
                       if r.Ok? then R.Done(R.New) else R.GaveUp)
      ensures !CanEncode(data) ==> r.Err? && Wasted(old(fs.disk), fs.disk)
    {
      hide Placeable, Good, ProvesIn, Writes, Takes, R.ConfigOf, CanEncode, IsTempPath, Branched;
      ghost var d, dirs := fs.disk, fs.dirs;
      var temp := NewTemp();
      BranchedThen(layout, dirs, fs.dirs, fs.dirs);
      if temp.Err? {
        nonce := seq(19, _ => Plain(0));
        NotCreated(d, data, nonce, hint);
        return Err(temp.error), nonce, [R.Fail(false)];
      }
      var encoded: Result<Bytes, Error>;
      encoded, nonce := Encoded(data);
      ghost var made := fs.Files();
      if encoded.Err? {
        ghost var gone := temp.value.Drop();
        SameThrough(Live(d), made, fs.Files(), {}, {});
        assert WastedOn(d, fs.disk, temp.value.path, gone);
        return Err(encoded.error), nonce, [];
      }
      r, ops := WriteEncoded(temp.value, digest, data, encoded.value, nonce, hint, d, dirs);
    }

    /** The file is there, and so is what is to go into it. */
    method WriteEncoded(temp: TempFile, digest: Digest, data: Bytes, bytes: Bytes, ghost nonce: Bytes, ghost hint: nat,
                        ghost d: Disk, ghost dirs: set<Path>)
      returns (r: Result<Path, Error>, ghost ops: seq<R.Op>)
      requires Valid() && digest == codec.hash(data) && layout.Shard(digest).Some? && Place(layout, digest, form) !in Live(d)
      requires |nonce| == PREFIX && Encode(codec, key, nonce, form, data) == Ok(bytes) && Good(codec, key, form, bytes, digest)
      requires temp.fs == fs && temp.Holding() && IsTempPath(temp.path) && temp.path !in Live(d)
      requires fs.disk == CreateFile(d, temp.path) && dirs <= fs.dirs <= dirs + {[DIR]}
      modifies this`keyProven, temp, fs`disk, fs`dirs
      ensures Valid() && Branched(layout, dirs, fs.dirs)
      ensures r.Ok? ==>
                && r.value == Place(layout, digest, form) && r.value in fs.Files()
                && Good(codec, key, form, fs.Files()[r.value].bytes, digest)
                && SameBut(Live(d), fs.Files(), {r.value})
      ensures r.Err? ==> SameBut(Live(d), fs.Files(), {})
      ensures fs.reliable ==> if Placeable(ThisWorld(), form, dirs, Live(d), digest) then r.Ok? else r == Err(Io)
      ensures Learns(old(keyProven), keyProven, ProvesIn(Live(d), Place(layout, digest, form)), r.Ok?)
      ensures Writes(Machine(), d, Caller(data, nonce, hint, R.Creating), ops, fs.disk, if r.Ok? then R.Done(R.New) else R.GaveUp)
    {
      hide Placeable, Good, ProvesIn, Writes, Takes, R.ConfigOf, IsTempPath, Branched, Encode;
      PlaceNames(layout, digest, form);
      ghost var made, sprung := fs.Files(), fs.dirs;
      BranchedThen(layout, dirs, sprung, sprung);
      ghost var create, stage := CreatedNow(d, digest, data, nonce, hint, temp.path, bytes);
      ghost var created := fs.disk;
      var written, fill := WriteOut(temp, bytes, stage.put.dest);
      ghost var filled, full := fs.Files(), fs.disk;
      SameThrough(Live(d), made, filled, {}, {});
      FilledThen(d, data, nonce, hint, create, created, stage, fill, full, written.Ok?);
      if written.Err? {
        return Err(written.error), create + fill;
      }
      StaysPlaceable(ThisWorld(), form, dirs, Live(d), fs.dirs, filled, digest);
      SameProof(Live(d), filled, digest, form);
      ghost var w := Caller(data, nonce, hint, R.Putting(Written(temp.path, digest, bytes)));
      ghost var place: seq<R.Op>;
      r, place := PlaceFile(temp, digest, w);
      BranchedThen(layout, dirs, sprung, fs.dirs);
      SameThrough(Live(d), filled, fs.Files(), {}, if r.Ok? then {r.value} else {});
      WritesThen(Machine(), d, Caller(data, nonce, hint, R.Creating), create + fill, full, w.stage, place, fs.disk,
                 if r.Ok? then R.Done(R.New) else R.GaveUp);
      ops := create + fill + place;
    }

    /** What is left of a conversion that cannot work: nothing if the entry's file cannot even be opened, else a wasted one. */
    ghost predicate Futile(entry: Entry, d: Disk, d': Disk) {
      if entry.path in Live(d) && (entry.form.IsEncrypted() ==> key.Some?) then Wasted(d, d') else d' == d
    }

    /** A temporary file was made and given up again, or not even that. */
    static ghost predicate Wasted(d: Disk, d': Disk) { d' == d || exists temp, gone :: WastedOn(d, d', temp, gone) }

    static ghost predicate WastedOn(d: Disk, d': Disk, temp: Path, gone: bool) {
      IsTempPath(temp) && d' == R.Remove(CreateFile(d, temp), temp, gone)
    }

    lemma NotCreated(d: Disk, data: Bytes, nonce: Bytes, hint: nat)
      ensures Writes(Machine(), d, Caller(data, nonce, hint, R.Creating), [R.Fail(false)], d, R.GaveUp)
    {
      WritesOne(Machine(), d, Caller(data, nonce, hint, R.Creating), R.Fail(false), d, R.GaveUp);
    }

    /** The file is there, and what is to go into it and where it is to go are settled. */
    lemma CreatedNow(d: Disk, digest: Digest, data: Bytes, nonce: Bytes, hint: nat, temp: Path, bytes: Bytes)
      returns (ops: seq<R.Op>, stage: R.WriterStage)
      requires digest == codec.hash(data) && |nonce| == PREFIX && Encode(codec, key, nonce, form, data) == Ok(bytes)
      requires IsTempPath(temp) && temp !in Live(d)
      ensures stage == R.Putting(Written(temp, digest, bytes).(stage := R.Filling(0)))
      ensures Writes(Machine(), d, Caller(data, nonce, hint, R.Creating), ops, CreateFile(d, temp), stage)
    {
      hide Encode;
      ops, stage := [R.Create(temp)], R.Putting(Written(temp, digest, bytes).(stage := R.Filling(0)));
      WritesOne(Machine(), d, Caller(data, nonce, hint, R.Creating), R.Create(temp), CreateFile(d, temp), stage);
    }

    lemma FilledThen(d: Disk, data: Bytes, nonce: Bytes, hint: nat, create: seq<R.Op>, created: Disk, stage: R.WriterStage,
                     fill: seq<R.Op>, full: Disk, whole: bool)
      requires stage.Putting? && stage.put.stage == R.Filling(0)
      requires Writes(Machine(), d, Caller(data, nonce, hint, R.Creating), create, created, stage)
      requires Takes(created, stage.put, fill, full, stage.put.(stage := if whole then R.Filling(|stage.put.data|) else R.Broken))
      ensures Writes(Machine(), d, Caller(data, nonce, hint, R.Creating), create + fill, full,
                     if whole then R.Putting(stage.put.(stage := R.Filling(|stage.put.data|))) else R.GaveUp)
    {
      hide Writes, Takes, R.ConfigOf;
      var put' := stage.put.(stage := if whole then R.Filling(|stage.put.data|) else R.Broken);
      PutWrites(Machine(), created, Caller(data, nonce, hint, stage), stage.put, fill, full, put');
      WritesThen(Machine(), d, Caller(data, nonce, hint, R.Creating), create, created, stage, fill, full, R.AfterPut(put'));
    }

    /** Content in this store's form: compressed, then sealed. */
    method Encoded(data: Bytes) returns (r: Result<Bytes, Error>, ghost nonce: Bytes)
      requires Valid() && Lawful(codec)
      ensures |nonce| == PREFIX && r == Encode(codec, key, nonce, form, data) && (r.Ok? <==> CanEncode(data))
      ensures r.Err? ==> r.error == Error.TooManyChunks
      ensures r.Ok? ==> Good(codec, key, form, r.value, codec.hash(data))
    {
      r, nonce := Wrapped(form, if form.IsCompressed() then codec.compress(data) else data);
      if r.Ok? {
        EncodeDecode(codec, key, nonce, form, data);
      }
    }

    // -- converting -----------------------------------------------------------

    function ThisWorld(): World { World(layout, codec, key) }

    /** The payload of an entry's file. The key is used but not taken for proven by it. */
    method ReadPayload(path: Path, from: Form) returns (r: Result<Bytes, Error>)
      requires Valid()
      ensures r != Err(Io) ==> path in fs.Files() && r == Payload(key, from, fs.Files()[path].bytes)
      ensures r == Err(Io) ==> !fs.reliable || path !in fs.Files()
    {
      var read := fs.ReadFile(path);
      if read.Err? {
        return Err(Io);
      }
      if !from.IsEncrypted() {
        return Ok(read.value);
      }
      if key.None? {
        return Err(KeyRequired);
      }
      var payload, _ := OpenSealed(key.value, read.value);
      return payload;
    }

    /** Whether there is a file to read and, if it is sealed, a key to read it with. Nothing of it is read yet. */
    method Open(path: Path, from: Form) returns (r: Result<(), Error>)
      requires Valid()
      ensures r.Ok? ==> path in fs.Files() && (from.IsEncrypted() ==> key.Some?)
      ensures r.Err? ==> r == Err(Io) || (r == Err(KeyRequired) && from.IsEncrypted() && key.None?)
      ensures fs.reliable && path in fs.Files() ==> r == if from.IsEncrypted() && key.None? then Err(KeyRequired) else Ok(())
    {
      var open := fs.ReadFile(path);
      if open.Err? {
        return Err(Io);
      }
      return if from.IsEncrypted() && key.None? then Err(KeyRequired) else Ok(());
    }

    /** What a file becomes in another form, changing only what differs. */
    method Repacked(path: Path, from: Form, target: Form) returns (r: Result<Bytes, Error>, ghost nonce: Bytes)
      requires Valid()
      ensures |nonce| == PREFIX
      ensures r != Err(Io) ==> path in fs.Files() && r == Repack(codec, key, nonce, from, target, fs.Files()[path].bytes)
      ensures r != Err(Io) ==> Says(r, Repack(codec, key, [], from, target, fs.Files()[path].bytes))
      ensures r.Ok? && Lawful(codec) ==>
                Decode(codec, key, target, r.value) == Decode(codec, key, from, fs.Files()[path].bytes)
      ensures r == Err(Io) ==> !fs.reliable || path !in fs.Files()
    {
      nonce := seq(19, _ => Plain(0));
      var payload := ReadPayload(path, from);
      if payload.Err? {
        return payload, nonce;
      }
      var stream := payload;
      if from.IsCompressed() && !target.IsCompressed() {
        stream := Decompress(codec, payload.value);
      }
      if stream.Err? {
        return stream, nonce;
      }
      r, nonce := Wrapped(target, if !from.IsCompressed() && target.IsCompressed() then codec.compress(stream.value) else stream.value);
      if r.Ok? && Lawful(codec) {
        RepackMeaning(codec, key, nonce, from, target, fs.Files()[path].bytes);
      }
    }

    /**
    Make an entry's other form and drop the one it has. Whatever fails on the way, the
    entry is where it was. On a file system that fails nothing it goes through
    exactly when the new name is free and the bytes can be repacked, or when what has
    the name is the content itself.
    */
    method Convert(entry: Entry, target: Form) returns (r: Result<(), Error>, ghost ops: seq<R.Op>)
      requires Valid() && Lawful(codec) && entry.form != target
      requires FileOf(layout, entry.path) == Some((entry.digest, entry.form))
      modifies this`keyProven, this`serial, fs`disk, fs`dirs
      ensures Valid() && old(fs.dirs) <= fs.dirs <= old(fs.dirs) + {[DIR]}
      ensures layout.Shard(entry.digest).None? ==> r == Err(DigestTooShort(entry.digest)) && fs.disk == old(fs.disk)
      ensures layout.Shard(entry.digest).Some? ==>
                var dest := Place(layout, entry.digest, target);
                && (r.Ok? ==> Moved(ThisWorld(), old(fs.Files()), fs.Files(), entry, dest))
                && (r.Err? ==> Kept(ThisWorld(), old(fs.Files()), fs.Files(), entry, dest))
                && (fs.reliable && entry.path in old(fs.Files()) ==>
                      r == ConvertComes(ThisWorld(), old(fs.dirs), old(fs.Files()), entry.path, entry.form, entry.digest, target))
      ensures Learns(old(keyProven), keyProven,
                     layout.Shard(entry.digest).Some? && ProvesIn(old(fs.Files()), Place(layout, entry.digest, target)),
                     r.Ok? || fs.reliable)
      ensures layout.Shard(entry.digest).Some? ==> ConvertRuns(entry, target, old(fs.disk), ops, fs.disk, r)
      ensures layout.Shard(entry.digest).Some? && target == Raw && Place(layout, entry.digest, Raw) !in old(fs.Files()) ==>
                Unpacked(ThisWorld(), old(fs.Files()), fs.Files(), entry, r.Ok?)
    {
      hide Converts, R.ConfigOf, Moved, Kept, Replaces, GoodAt, RewriteComes, Futile, Proves, CanMove, ConvertRuns, Unpacked;
      ops := [];
      if layout.Shard(entry.digest).None? {
        return Err(DigestTooShort(entry.digest)), ops;
      }
      ghost var d := fs.disk;
      var dest := Place(layout, entry.digest, target);
      PlaceNames(layout, entry.digest, target);
      if dest in fs.Files() {
        KeptAsIs(ThisWorld(), fs.Files(), entry, dest);
        r, ops := DropConverted(entry, target);
        ops := DropRuns(d, entry, target, ops, fs.disk, r);
        return;
      }
      ghost var before := fs.Files();
      r, ops := RewriteAndDrop(entry, target);
      ops := RewriteRuns(d, entry, target, ops, fs.disk, r);
      if target == Raw {
        NowUnpacked(ThisWorld(), before, fs.Files(), entry, r.Ok?);
      }
    }

    /**
    A conversion of an entry is a run of the machine from idle to idle; one that cannot
    work has made a temporary file and given it up.
    */
    ghost predicate ConvertRuns(entry: Entry, target: Form, d: Disk, ops: seq<R.Op>, d': Disk, r: Result<(), Error>)
      requires layout.Shard(entry.digest).Some?
    {
      if Place(layout, entry.digest, target) in Live(d) || CanMove(entry, target, Live(d))
      then Starts(entry, target, d) ==> Converts(Machine(), d, R.Idle, ops, d', R.Idle)
      else r.Err? && Futile(entry, d, d')
    }

    /** An entry there is, which one of the four passes converts this way. */
    ghost predicate Starts(entry: Entry, target: Form, d: Disk) {
      IsEntry(ThisWorld(), entry.path) && entry.path in Live(d) && R.Planned(entry.form, target)
    }

    lemma DropRuns(d: Disk, entry: Entry, target: Form, more: seq<R.Op>, d': Disk, r: Result<(), Error>) returns (ops: seq<R.Op>)
      requires layout.Shard(entry.digest).Some? && FileOf(layout, entry.path) == Some((entry.digest, entry.form))
      requires Place(layout, entry.digest, target) in Live(d)
      requires Converts(Machine(), d, R.Considering(JobFor(entry, target)), more, d', R.Idle)
      ensures ConvertRuns(entry, target, d, ops, d', r)
    {
      hide Converts, R.ConfigOf, CanMove, Futile;
      if Starts(entry, target, d) {
        ops := Started(d, entry, target, R.Considering(JobFor(entry, target)), more, d');
      } else {
        ops := [];
      }
    }

    lemma RewriteRuns(d: Disk, entry: Entry, target: Form, more: seq<R.Op>, d': Disk, r: Result<(), Error>) returns (ops: seq<R.Op>)
      requires layout.Shard(entry.digest).Some? && FileOf(layout, entry.path) == Some((entry.digest, entry.form))
      requires Place(layout, entry.digest, target) !in Live(d)
      requires if CanMove(entry, target, Live(d)) then Converts(Machine(), d, R.Opening(JobFor(entry, target)), more, d', R.Idle)
               else r.Err? && Futile(entry, d, d')
      ensures ConvertRuns(entry, target, d, ops, d', r)
    {
      hide Converts, R.ConfigOf, CanMove, Futile;
      if Starts(entry, target, d) && CanMove(entry, target, Live(d)) {
        ops := Started(d, entry, target, R.Opening(JobFor(entry, target)), more, d');
      } else {
        ops := [];
      }
    }

    /** A conversion as the machine has it. */
    ghost function JobFor(entry: Entry, target: Form): R.Job { R.Job(entry.path, entry.digest, entry.form, target) }

    /** An entry that is there and can be written in another form. */
    ghost predicate CanMove(entry: Entry, target: Form, files: Image) {
      entry.path in files && Repackable(ThisWorld(), entry.form, target, files[entry.path].bytes)
    }

    /** The first look of a conversion, and what follows it. */
    lemma Started(d: Disk, entry: Entry, target: Form, at: R.Conv, more: seq<R.Op>, d': Disk) returns (ops: seq<R.Op>)
      requires layout.Shard(entry.digest).Some? && FileOf(layout, entry.path) == Some((entry.digest, entry.form))
      requires IsEntry(ThisWorld(), entry.path) && entry.path in Live(d) && R.Planned(entry.form, target)
      requires at == R.Considering(JobFor(entry, target))
               || (at == R.Opening(JobFor(entry, target)) && Place(layout, entry.digest, target) !in Live(d))
      requires Converts(Machine(), d, at, more, d', R.Idle)
      ensures Converts(Machine(), d, R.Idle, ops, d', R.Idle)
    {
      hide Converts, Good;
      var job := JobFor(entry, target);
      ConvertsOne(Machine(), d, R.Idle, R.Start(entry.path, target), d, R.Considering(job));
      ops := [R.Start(entry.path, target)];
      if at.Opening? {
        ConvertsOne(Machine(), d, R.Considering(job), R.Look, d, at);
        ConvertsThen(Machine(), d, R.Idle, ops, d, R.Considering(job), [R.Look], d, at);
        ops := ops + [R.Look];
      }
      ConvertsThen(Machine(), d, R.Idle, ops, d, at, more, d', R.Idle);
      ops := ops + more;
    }

    /** The new name is free: make the new form, then let the old name go. */
    method RewriteAndDrop(entry: Entry, target: Form) returns (r: Result<(), Error>, ghost ops: seq<R.Op>)
      requires Valid() && Lawful(codec) && layout.Shard(entry.digest).Some? && entry.form != target
      requires FileOf(layout, entry.path) == Some((entry.digest, entry.form))
      requires Place(layout, entry.digest, target) !in fs.Files()
      modifies this`serial, fs`disk, fs`dirs
      ensures Valid() && old(fs.dirs) <= fs.dirs <= old(fs.dirs) + {[DIR]}
      ensures var dest := Place(layout, entry.digest, target);
              && (r.Ok? ==> Moved(ThisWorld(), old(fs.Files()), fs.Files(), entry, dest))
              && (r.Err? ==> Kept(ThisWorld(), old(fs.Files()), fs.Files(), entry, dest))
              && (fs.reliable && entry.path in old(fs.Files()) ==>
                    r == RewriteComes(ThisWorld(), old(fs.dirs), old(fs.Files()), entry.path, entry.form, dest, target))
      ensures if CanMove(entry, target, old(fs.Files()))
              then Converts(Machine(), old(fs.disk), R.Opening(JobFor(entry, target)), ops, fs.disk, R.Idle)
              else r.Err? && Futile(entry, old(fs.disk), fs.disk)
    {
      hide Converts, R.ConfigOf, CanMove, Futile, Replaces, Repackable, Reaches, PrepareComes;
      var dest := Place(layout, entry.digest, target);
      ghost var d, before := fs.disk, fs.Files();
      PlaceNames(layout, entry.digest, target);
      NotTemp(layout, entry.path);
      assert entry.path != dest;
      r, ops := Rewrite(entry, target);
      if r.Ok? {
        LetGo(ThisWorld(), before, fs.Files(), entry, dest);
        ghost var made := fs.disk;
        var removed := fs.RemoveFile(entry.path);
        ops := Unlinked(d, entry, target, R.Opening(JobFor(entry, target)), ops, made, removed.Ok?);
        if removed.Err? {
          return Err(Io), ops;
        }
      }
    }

    /** The last step of a conversion, whether it takes or not. */
    lemma Unlinked(d: Disk, entry: Entry, target: Form, from: R.Conv, ops: seq<R.Op>, made: Disk, gone: bool)
      returns (all: seq<R.Op>)
      requires Converts(Machine(), d, from, ops, made, R.Unlinking(JobFor(entry, target)))
      ensures Converts(Machine(), d, from, all, if gone then Unlink(made, entry.path) else made, R.Idle)
    {
      hide Converts, R.ConfigOf;
      var d', at := if gone then Unlink(made, entry.path) else made, R.Unlinking(JobFor(entry, target));
      ConvertsOne(Machine(), made, at, R.Op.Drop(gone), d', R.Idle);
      ConvertsThen(Machine(), d, from, ops, made, at, [R.Op.Drop(gone)], d', R.Idle);
      all := ops + [R.Op.Drop(gone)];
    }

    /** The new name is taken: the old file goes if what has the name is the content itself. */
    method DropConverted(entry: Entry, target: Form) returns (r: Result<(), Error>, ghost ops: seq<R.Op>)
      requires Valid() && layout.Shard(entry.digest).Some? && entry.form != target
      requires FileOf(layout, entry.path) == Some((entry.digest, entry.form))
      requires FileOf(layout, Place(layout, entry.digest, target)) == Some((entry.digest, target))
      requires Place(layout, entry.digest, target) in fs.Files()
      modifies this`keyProven, fs`disk
      ensures Valid()
      ensures var dest := Place(layout, entry.digest, target);
              && (r.Ok? ==> Moved(ThisWorld(), old(fs.Files()), fs.Files(), entry, dest))
              && (r.Err? ==> fs.disk == old(fs.disk))
              && (fs.reliable && entry.path in old(fs.Files()) ==>
                    r == if GoodAt(ThisWorld(), old(fs.Files()), dest, entry.digest) then Ok(()) else Err(Obstructed(dest)))
              && Learns(old(keyProven), keyProven, ProvesIn(old(fs.Files()), dest), r.Ok? || fs.reliable)
      ensures Converts(Machine(), old(fs.disk), R.Considering(JobFor(entry, target)), ops, fs.disk, R.Idle)
    {
      hide Converts, R.ConfigOf;
      ghost var d := fs.disk;
      var dest := Place(layout, entry.digest, target);
      var actual := DigestOf(dest);
      assert S.FormAt(layout, dest) == target;
      if actual != Ok(entry.digest) {
        ops := Unsettled(d, entry, target);
        return Err(Obstructed(dest)), ops;
      }
      var removed := fs.RemoveFile(entry.path);
      ops := Accepted(d, entry, target);
      ops := Unlinked(d, entry, target, R.Considering(JobFor(entry, target)), ops, d, removed.Ok?);
      return if removed.Ok? then Ok(()) else Err(Io), ops;
    }

    lemma Unsettled(d: Disk, entry: Entry, target: Form) returns (ops: seq<R.Op>)
      ensures Converts(Machine(), d, R.Considering(JobFor(entry, target)), ops, d, R.Idle)
    {
      hide Converts, R.ConfigOf;
      ops := [R.Fail(false)];
      ConvertsOne(Machine(), d, R.Considering(JobFor(entry, target)), R.Fail(false), d, R.Idle);
    }

    /** What has the name is the content itself. */
    lemma Accepted(d: Disk, entry: Entry, target: Form) returns (ops: seq<R.Op>)
      requires layout.Shard(entry.digest).Some? && Place(layout, entry.digest, target) in Live(d)
      requires Good(codec, key, target, Live(d)[Place(layout, entry.digest, target)].bytes, entry.digest)
      ensures Converts(Machine(), d, R.Considering(JobFor(entry, target)), ops, d, R.Unlinking(JobFor(entry, target)))
    {
      hide Converts, Good;
      ops := [R.Look];
      ConvertsOne(Machine(), d, R.Considering(JobFor(entry, target)), R.Look, d, R.Unlinking(JobFor(entry, target)));
    }

    /** Make the new form, next to the old one. */
    method Rewrite(entry: Entry, target: Form) returns (r: Result<(), Error>, ghost ops: seq<R.Op>)
      requires Valid() && Lawful(codec) && layout.Shard(entry.digest).Some? && entry.form != target
      requires FileOf(layout, entry.path) == Some((entry.digest, entry.form))
      requires Place(layout, entry.digest, target) !in fs.Files()
      modifies this`serial, fs`disk, fs`dirs
      ensures Valid() && old(fs.dirs) <= fs.dirs <= old(fs.dirs) + {[DIR]}
      ensures var dest := Place(layout, entry.digest, target);
              && (r.Ok? ==> SameBut(old(fs.Files()), fs.Files(), {dest})
                            && Replaces(ThisWorld(), old(fs.Files()), fs.Files(), entry.path, dest, entry.digest))
              && (r.Err? ==> SameBut(old(fs.Files()), fs.Files(), {}))
              && (fs.reliable && entry.path in old(fs.Files()) ==>
                    r == RewriteComes(ThisWorld(), old(fs.dirs), old(fs.Files()), entry.path, entry.form, dest, target))
      ensures if CanMove(entry, target, old(fs.Files()))
              then Converts(Machine(), old(fs.disk), R.Opening(JobFor(entry, target)), ops, fs.disk,
                            if r.Ok? then R.Unlinking(JobFor(entry, target)) else R.Idle)
              else r.Err? && Futile(entry, old(fs.disk), fs.disk)
    {
      hide Replaces, Repackable, Decode, Reaches, Converts, R.ConfigOf, CanMove, Futile, PrepareComes;
      var dest := Place(layout, entry.digest, target);
      PlaceNames(layout, entry.digest, target);
      ghost var d, dirs := fs.disk, fs.dirs;
      var temp: Result<TempFile, Error>;
      temp, ops := Prepare(entry, target);
      if temp.Err? {
        return Err(temp.error), ops;
      }
      ghost var full, job := fs.disk, JobFor(entry, target);
      ghost var put := Rewritten(temp.value.path, entry, target, fs.Files()[temp.value.path].bytes);
      StaysReached(layout, entry.digest, target, dirs, fs.dirs);
      ghost var place: seq<R.Op>;
      r, place := PersistNew(temp.value, entry, target, Live(d));
      ConvertsThen(Machine(), d, R.Opening(job), ops, full, R.Writing(job, put), place, fs.disk,
                   if r.Ok? then R.Unlinking(job) else R.Idle);
      ops := ops + place;
    }

    /** An entry in another form, written whole. */
    ghost function Rewritten(temp: Path, entry: Entry, target: Form, bytes: Bytes): R.Put {
      R.Put(temp, if layout.Shard(entry.digest).Some? then Place(layout, entry.digest, target) else [], bytes, R.Filling(|bytes|))
    }

    /** Put the new form under its name, which is free. */
    method PersistNew(temp: TempFile, entry: Entry, target: Form, ghost before: Image)
      returns (r: Result<(), Error>, ghost ops: seq<R.Op>)
      requires Valid() && temp.fs == fs && temp.Holding() && IsTempPath(temp.path) && layout.Shard(entry.digest).Some?
      requires SameBut(before, fs.Files(), {}) && entry.path in before && Place(layout, entry.digest, target) !in before
      requires FileOf(layout, entry.path) == Some((entry.digest, entry.form))
      requires Decode(codec, key, target, fs.Files()[temp.path].bytes) == Decode(codec, key, entry.form, before[entry.path].bytes)
      modifies temp, fs`disk
      ensures Valid()
      ensures var dest := Place(layout, entry.digest, target);
              && (r.Ok? ==> SameBut(before, fs.Files(), {dest})
                            && Replaces(ThisWorld(), before, fs.Files(), entry.path, dest, entry.digest))
              && (r.Err? ==> SameBut(before, fs.Files(), {}))
              && (fs.reliable ==> r == if Reaches(fs.dirs, dest) then Ok(()) else Err(Io))
      ensures Converts(Machine(), old(fs.disk),
                       R.Writing(JobFor(entry, target), Rewritten(temp.path, entry, target, old(fs.Files())[temp.path].bytes)), ops, fs.disk,
                       if r.Ok? then R.Unlinking(JobFor(entry, target)) else R.Idle)
    {
      hide Converts, R.ConfigOf, Reaches;
      var dest := Place(layout, entry.digest, target);
      PlaceNames(layout, entry.digest, target);
      ghost var filled := fs.Files();
      NowReplaces(ThisWorld(), before, filled, entry, temp.path, dest, target);
      r, ops := RenameNew(temp, entry, target);
      if r.Err? {
        SameThrough(before, filled, fs.Files(), {}, {});
      }
    }

    /** The rename itself, to a name nobody has. */
    method RenameNew(temp: TempFile, entry: Entry, target: Form) returns (r: Result<(), Error>, ghost ops: seq<R.Op>)
      requires Valid() && temp.fs == fs && temp.Holding() && IsTempPath(temp.path) && layout.Shard(entry.digest).Some?
      requires Place(layout, entry.digest, target) !in fs.Files()
      modifies temp, fs`disk
      ensures Valid()
      ensures var dest := Place(layout, entry.digest, target);
              && (r.Ok? ==> fs.Files() == (old(fs.Files()) - {temp.path})[dest := Blob(old(fs.Files())[temp.path].bytes, true)])
              && (r.Err? ==> SameBut(old(fs.Files()), fs.Files(), {}))
              && (fs.reliable ==> r == if Reaches(fs.dirs, dest) then Ok(()) else Err(Io))
      ensures Converts(Machine(), old(fs.disk),
                       R.Writing(JobFor(entry, target), Rewritten(temp.path, entry, target, old(fs.Files())[temp.path].bytes)), ops, fs.disk,
                       if r.Ok? then R.Unlinking(JobFor(entry, target)) else R.Idle)
    {
      hide Converts, Takes, R.ConfigOf, TempFile.Placed, TempFile.EndOf, IsTempPath, FileOf;
      var dest := Place(layout, entry.digest, target);
      PlaceNames(layout, entry.digest, target);
      ghost var d, put := fs.disk, Rewritten(temp.path, entry, target, fs.Files()[temp.path].bytes);
      var placed: Result<bool, Kind>;
      placed, ops := temp.Persist(dest);
      NameConverts(Machine(), d, JobFor(entry, target), put, ops, fs.disk, placed);
      assert placed.Ok? ==> placed == Ok(placed.value) && placed.value;
      return if placed.Ok? then Ok(()) else Err(Io), ops;
    }

    /** A temporary file holding an entry in another form. */
    method Prepare(entry: Entry, target: Form) returns (r: Result<TempFile, Error>, ghost ops: seq<R.Op>)
      requires Valid() && Lawful(codec) && FileOf(layout, entry.path) == Some((entry.digest, entry.form))
      modifies this`serial, fs`disk, fs`dirs
      ensures Valid() && old(fs.dirs) <= fs.dirs <= old(fs.dirs) + {[DIR]} && SameBut(old(fs.Files()), fs.Files(), {})
      ensures r.Ok? ==>
                && fresh(r.value) && r.value.fs == fs && r.value.Holding() && IsTempPath(r.value.path)
                && entry.path in old(fs.Files())
                && Decode(codec, key, target, fs.Files()[r.value.path].bytes)
                   == Decode(codec, key, entry.form, old(fs.Files())[entry.path].bytes)
      ensures fs.reliable && entry.path in old(fs.Files()) ==>
                Says(r, PrepareComes(ThisWorld(), old(fs.Files()), entry.path, entry.form, target))
      ensures if CanMove(entry, target, old(fs.Files()))
              then Converts(Machine(), old(fs.disk), R.Opening(JobFor(entry, target)), ops, fs.disk,
                            if r.Ok? then R.Writing(JobFor(entry, target), Rewritten(r.value.path, entry, target, fs.Files()[r.value.path].bytes))
                            else R.Idle)
              else r.Err? && Futile(entry, old(fs.disk), fs.disk)
    {
      hide Converts, R.ConfigOf, Decode, CanMove, PrepareComes, Wasted;
      ghost var d := fs.disk;
      if entry.path !in Live(d) || (entry.form.IsEncrypted() && key.None?) {
        Unopenable(entry, target, Live(d));
      }
      var open := Open(entry.path, entry.form);
      if open.Err? {
        NotOpened(d, entry, target);
        NotWasted(d);
        return Err(open.error), [R.Fail(false)];
      }
      r, ops := PrepareOpened(entry, target);
    }

    /** The file is opened: a temporary one for what it becomes. */
    method PrepareOpened(entry: Entry, target: Form) returns (r: Result<TempFile, Error>, ghost ops: seq<R.Op>)
      requires Valid() && Lawful(codec) && FileOf(layout, entry.path) == Some((entry.digest, entry.form))
      requires entry.path in fs.Files() && (entry.form.IsEncrypted() ==> key.Some?)
      modifies this`serial, fs`disk, fs`dirs
      ensures Valid() && old(fs.dirs) <= fs.dirs <= old(fs.dirs) + {[DIR]} && SameBut(old(fs.Files()), fs.Files(), {})
      ensures r.Ok? ==>
                && fresh(r.value) && r.value.fs == fs && r.value.Holding() && IsTempPath(r.value.path)
                && entry.path in old(fs.Files())
                && Decode(codec, key, target, fs.Files()[r.value.path].bytes)
                   == Decode(codec, key, entry.form, old(fs.Files())[entry.path].bytes)
      ensures fs.reliable && entry.path in old(fs.Files()) ==>
                Says(r, PrepareComes(ThisWorld(), old(fs.Files()), entry.path, entry.form, target))
      ensures if CanMove(entry, target, old(fs.Files()))
              then Converts(Machine(), old(fs.disk), R.Opening(JobFor(entry, target)), ops, fs.disk,
                            if r.Ok? then R.Writing(JobFor(entry, target), Rewritten(r.value.path, entry, target, fs.Files()[r.value.path].bytes))
                            else R.Idle)
              else r.Err? && Futile(entry, old(fs.disk), fs.disk)
    {
      hide Converts, R.ConfigOf, Decode, CanMove, PrepareComes, Futile, Wasted;
      NotTemp(layout, entry.path);
      ghost var d := fs.disk;
      OpenedComes(entry, target, d);
      var temp := NewTemp();
      if temp.Err? {
        NotOpened(d, entry, target);
        NotWasted(d);
        return temp, [R.Fail(false)];
      }
      var filled: Result<(), Error>;
      filled, ops := PrepareInto(temp.value, entry, target, d);
      return if filled.Ok? then temp else Err(filled.error), ops;
    }

    /** What can be opened comes to what it repacks to, where there is room. */
    lemma OpenedComes(entry: Entry, target: Form, d: Disk)
      requires entry.path in Live(d) && (entry.form.IsEncrypted() ==> key.Some?)
      ensures var repacked := Repack(codec, key, [], entry.form, target, Live(d)[entry.path].bytes);
              && (CanMove(entry, target, Live(d)) <==> repacked.Ok?)
              && (var comes := PrepareComes(ThisWorld(), Live(d), entry.path, entry.form, target);
                  if [DIR] in Live(d) then comes == Err(Io) else if repacked.Ok? then comes.Ok? else comes == Err(repacked.error))
      ensures forall d' :: Futile(entry, d, d') == Wasted(d, d')
    {
      hide Repack, Wasted;
    }

    /** And what goes into it. */
    method PrepareInto(temp: TempFile, entry: Entry, target: Form, ghost d: Disk) returns (r: Result<(), Error>, ghost ops: seq<R.Op>)
      requires Valid() && Lawful(codec) && temp.fs == fs && temp.Holding() && IsTempPath(temp.path) && temp.path !in Live(d)
      requires fs.disk == CreateFile(d, temp.path) && entry.path in Live(d) && !IsTempPath(entry.path)
      modifies fs`disk
      ensures Valid() && SameBut(Live(d), fs.Files(), {})
      ensures r.Ok? ==>
                && temp.Holding()
                && Decode(codec, key, target, fs.Files()[temp.path].bytes) == Decode(codec, key, entry.form, Live(d)[entry.path].bytes)
      ensures var repacked := Repack(codec, key, [], entry.form, target, Live(d)[entry.path].bytes);
              && (fs.reliable ==> Says(r, repacked))
              && if repacked.Ok?
                 then Converts(Machine(), d, R.Opening(JobFor(entry, target)), ops, fs.disk,
                               if r.Ok? then R.Writing(JobFor(entry, target), Rewritten(temp.path, entry, target, fs.Files()[temp.path].bytes))
                               else R.Idle)
                 else r.Err? && Wasted(d, fs.disk)
    {
      hide Converts, Takes, R.ConfigOf, Decode, Repack, Wasted;
      ghost var before, made := Live(d), fs.Files();
      var out, nonce := Repacked(entry.path, entry.form, target);
      if out.Err? {
        ghost var gone := temp.Drop();
        SameThrough(before, made, fs.Files(), {}, {});
        WastedBy(d, fs.disk, temp.path, gone);
        ops := [];
        if Repack(codec, key, [], entry.form, target, before[entry.path].bytes).Ok? {
          ops := Spoilt(d, entry, target, temp.path, gone);
        }
        return Err(out.error), ops;
      }
      ghost var put := Rewritten(temp.path, entry, target, out.value).(stage := R.Filling(0));
      var written, fill := WriteOut(temp, out.value, put.dest);
      SameThrough(before, made, fs.Files(), {}, {});
      ops := OpenedThen(d, entry, target, nonce, put, fill, fs.disk, written.Ok?);
      return if written.Err? then Err(written.error) else Ok(()), ops;
    }

    static lemma WastedBy(d: Disk, d': Disk, temp: Path, gone: bool)
      requires WastedOn(d, d', temp, gone)
      ensures Wasted(d, d')
    {
    }

    /** What cannot be opened comes to nothing. */
    lemma Unopenable(entry: Entry, target: Form, files: Image)
      requires entry.path !in files || (entry.form.IsEncrypted() && key.None?)
      ensures !CanMove(entry, target, files)
      ensures entry.path in files ==> PrepareComes(ThisWorld(), files, entry.path, entry.form, target) == Err(KeyRequired)
    {
    }

    static lemma NotWasted(d: Disk)
      ensures Wasted(d, d)
    {
    }

    lemma NotOpened(d: Disk, entry: Entry, target: Form)
      ensures Converts(Machine(), d, R.Opening(JobFor(entry, target)), [R.Fail(false)], d, R.Idle)
    {
      hide Converts, R.ConfigOf;
      ConvertsOne(Machine(), d, R.Opening(JobFor(entry, target)), R.Fail(false), d, R.Idle);
    }

    /** The file is there, and what is to go into it and where it is to go are settled. */
    lemma Opened(d: Disk, entry: Entry, target: Form, nonce: Bytes, put: R.Put)
      requires |nonce| == PREFIX && entry.path in Live(d) && IsTempPath(put.temp) && put.temp !in Live(d)
      requires Repack(codec, key, nonce, entry.form, target, Live(d)[entry.path].bytes) == Ok(put.data)
      requires put == Rewritten(put.temp, entry, target, put.data).(stage := R.Filling(0))
      ensures Converts(Machine(), d, R.Opening(JobFor(entry, target)), [R.Read(nonce, put.temp)], CreateFile(d, put.temp),
                       R.Writing(JobFor(entry, target), put))
    {
      hide Converts, Repack;
      ConvertsOne(Machine(), d, R.Opening(JobFor(entry, target)), R.Read(nonce, put.temp), CreateFile(d, put.temp),
                  R.Writing(JobFor(entry, target), put));
    }

    /** And however much of it went in. */
    lemma OpenedThen(d: Disk, entry: Entry, target: Form, nonce: Bytes, put: R.Put, fill: seq<R.Op>, d': Disk, whole: bool)
      returns (ops: seq<R.Op>)
      requires |nonce| == PREFIX && entry.path in Live(d) && IsTempPath(put.temp) && put.temp !in Live(d)
      requires Repack(codec, key, nonce, entry.form, target, Live(d)[entry.path].bytes) == Ok(put.data)
      requires put == Rewritten(put.temp, entry, target, put.data).(stage := R.Filling(0))
      requires Takes(CreateFile(d, put.temp), put, fill, d', put.(stage := if whole then R.Filling(|put.data|) else R.Broken))
      ensures Converts(Machine(), d, R.Opening(JobFor(entry, target)), ops, d',
                       if whole then R.Writing(JobFor(entry, target), put.(stage := R.Filling(|put.data|))) else R.Idle)
    {
      hide Converts, Takes, Repack, R.ConfigOf;
      var job, put' := JobFor(entry, target), put.(stage := if whole then R.Filling(|put.data|) else R.Broken);
      Opened(d, entry, target, nonce, put);
      PutConverts(Machine(), CreateFile(d, put.temp), job, put, fill, d', put');
      ConvertsThen(Machine(), d, R.Opening(job), [R.Read(nonce, put.temp)], CreateFile(d, put.temp), R.Writing(job, put), fill, d',
                   R.AfterWriting(job, put'));
      ops := [R.Read(nonce, put.temp)] + fill;
    }

    /** A file that could be moved, had reading it not failed. */
    lemma Spoilt(d: Disk, entry: Entry, target: Form, temp: Path, gone: bool) returns (ops: seq<R.Op>)
      requires CanMove(entry, target, Live(d)) && IsTempPath(temp) && temp !in Live(d)
      ensures Converts(Machine(), d, R.Opening(JobFor(entry, target)), ops, R.Remove(CreateFile(d, temp), temp, gone), R.Idle)
    {
      hide Converts, Takes, R.ConfigOf;
      var nonce: Bytes := seq(19, _ => Plain(0));
      RepackAnyNonce(codec, key, nonce, entry.form, target, Live(d)[entry.path].bytes);
      var created, put := CreateFile(d, temp),
                          Rewritten(temp, entry, target, Repack(codec, key, nonce, entry.form, target, Live(d)[entry.path].bytes).value)
                          .(stage := R.Filling(0));
      hide Repack;
      var fill := FillsInVain(created, put, 0, gone);
      assert put.data[..0] == [] && Live(created)[temp := Blob([], false)] == Live(created);
      assert WriteFile(created, temp, []) == created;
      ops := OpenedThen(d, entry, target, nonce, put, fill, R.Remove(created, temp, gone), false);
    }

    // -- changing the key -----------------------------------------------------

    /** Whether a key opens the file at a path. */
    method OpensWith(path: Path, k: Key) returns (r: Result<bool, Error>)
      requires Valid()
      ensures r != Err(Io) ==> path in fs.Files() && r == K.Probe(k, fs.Files()[path].bytes)
      ensures r == Err(Io) ==> !fs.reliable || path !in fs.Files()
      ensures r.Err? ==> Recoverable(r.error)
    {
      var read := fs.ReadFile(path);
      if read.Err? {
        return Err(Io);
      }
      var hiccups := Hiccups();
      var opens := C.OpensWith(k, read.value, hiccups);
      FirstChunk(k, k, read.value);
      match opens
      case Ok(yes) => return Ok(yes);
      case Err(Crate(reason)) => return Err(CrateError(reason));
      case Err(_) => return Err(Io);
    }

    /**
    Take one file off this store's key and put it under `newKey`, in place: false when
    the new key opens it already. Nothing else is touched, and a failure no later run
    can do anything about means that neither key opens the file whole.
    */
    method Reseal(path: Path, newKey: Key, ghost s: K.State) returns (r: Result<bool, Error>, ghost acts: seq<K.Act>)
      requires Valid() && key.Some? && path != [] && !IsTempPath(path)
      requires s.disk == fs.disk && s.stage == K.Probing(path)
      modifies this`serial, fs`disk, fs`dirs
      ensures Valid() && old(fs.dirs) <= fs.dirs <= old(fs.dirs) + {[DIR]}
      ensures r != Ok(true) ==> SameBut(old(fs.Files()), fs.Files(), {})
      ensures r == Ok(false) ==> path in old(fs.Files()) && K.Probe(newKey, old(fs.Files())[path].bytes) == Ok(true)
      ensures r == Ok(true) ==>
                && path in old(fs.Files()) && path in fs.Files() && SameBut(old(fs.Files()), fs.Files(), {path})
                && K.Probe(newKey, old(fs.Files())[path].bytes) == Ok(false) && fs.Files()[path].flushed
                && K.Whole(newKey, fs.Files()[path].bytes).Some?
                && K.Whole(newKey, fs.Files()[path].bytes) == K.Whole(key.value, old(fs.Files())[path].bytes)
      ensures r.Err? && !Recoverable(r.error) ==>
                && path in old(fs.Files()) && K.Probe(newKey, old(fs.Files())[path].bytes) == Ok(false)
                && K.Whole(key.value, old(fs.Files())[path].bytes).None?
      ensures fs.reliable && path in old(fs.Files()) ==>
                r == if [DIR] in old(fs.Files()) && K.Probe(newKey, old(fs.Files())[path].bytes) == Ok(false) then Err(Io)
                     else K.Resealed(key.value, newKey, old(fs.Files())[path].bytes)
      ensures path in Live(s.disk) ==> ResealRuns(path, newKey, s, acts, fs.disk, r)
    {
      hide K.Whole, K.Probe, K.Movable, K.RekeyOf, Rekeys, Settled;
      ghost var d, before := fs.disk, fs.Files();
      var opens := OpensWith(path, newKey);
      acts := [];
      if opens.Err? {
        if path in before {
          NotProbed(s, path, newKey);
        }
        return opens, [K.Ask(true)];
      }
      Probed(s, path, newKey, opens.value);
      if opens.value {
        return Ok(false), [K.Ask(false)];
      }
      ghost var asked := s.(stage := K.Copying(path));
      var open := Open(path, Enc);
      if open.Err? {
        NotStarted(s, path, newKey);
        return Err(open.error), [K.Ask(false)] + [K.Fault];
      }
      var temp := NewTemp();
      if temp.Err? {
        NotStarted(s, path, newKey);
        return Err(temp.error), [K.Ask(false)] + [K.Fault];
      }
      r, acts := ResealInto(temp.value, path, newKey, asked);
      assert r.Ok? ==> r == Ok(true);
      if K.Movable(key.value, before[path].bytes).Ok? {
        ResealedThen(s, path, newKey, acts, fs.disk, Mended(r));
      }
      acts := [K.Ask(false)] + acts;
    }

    /**
    A reseal is a run of the machine from the probe to the next file; one that cannot
    work has made a temporary file and given it up.
    */
    ghost predicate ResealRuns(path: Path, newKey: Key, s: K.State, acts: seq<K.Act>, d': Disk, r: Result<bool, Error>)
      requires key.Some? && path in Live(s.disk)
    {
      if K.Probe(newKey, Live(s.disk)[path].bytes) == Ok(false) && K.Movable(key.value, Live(s.disk)[path].bytes).Err?
      then r.Err? && Wasted(s.disk, d')
      else Rekeys(Changing(newKey), s, acts, Settled(s, d', path, Mended(r)))
    }

    /** What the key-change machine knows of this store. */
    ghost function Changing(newKey: Key): K.Rekey
      requires key.Some?
    {
      K.RekeyOf(layout, key.value, newKey)
    }

    /** Whether a file's turn leaves nothing that another run could mend. */
    static ghost predicate Mended(r: Result<bool, Error>) { r.Err? ==> !Recoverable(r.error) }

    lemma NotProbed(s: K.State, path: Path, newKey: Key)
      requires key.Some? && s.stage == K.Probing(path) && path in Live(s.disk)
      ensures Rekeys(Changing(newKey), s, [K.Ask(true)], Settled(s, s.disk, path, false))
    {
      hide Rekeys, K.RekeyOf;
      RekeysOne(Changing(newKey), s, K.Ask(true), Settled(s, s.disk, path, false));
    }

    lemma Probed(s: K.State, path: Path, newKey: Key, opens: bool)
      requires key.Some? && s.stage == K.Probing(path) && path in Live(s.disk)
      requires K.Probe(newKey, Live(s.disk)[path].bytes) == Ok(opens)
      ensures Rekeys(Changing(newKey), s, [K.Ask(false)],
                     if opens then Settled(s, s.disk, path, true) else s.(stage := K.Copying(path)))
    {
      hide Rekeys, K.Probe;
      RekeysOne(Changing(newKey), s, K.Ask(false), if opens then Settled(s, s.disk, path, true) else s.(stage := K.Copying(path)));
    }

    lemma NotStarted(s: K.State, path: Path, newKey: Key)
      requires key.Some? && s.stage == K.Probing(path) && path in Live(s.disk)
      requires K.Probe(newKey, Live(s.disk)[path].bytes) == Ok(false)
      ensures Rekeys(Changing(newKey), s, [K.Ask(false)] + [K.Fault], Settled(s, s.disk, path, false))
    {
      hide Rekeys, K.Probe, K.RekeyOf;
      var asked := s.(stage := K.Copying(path));
      Probed(s, path, newKey, false);
      RekeysOne(Changing(newKey), asked, K.Fault, Settled(asked, s.disk, path, false));
      RekeysThen(Changing(newKey), s, [K.Ask(false)], asked, [K.Fault], Settled(s, s.disk, path, false));
    }

    lemma ResealedThen(s: K.State, path: Path, newKey: Key, acts: seq<K.Act>, d': Disk, ok: bool)
      requires key.Some? && s.stage == K.Probing(path) && path in Live(s.disk)
      requires K.Probe(newKey, Live(s.disk)[path].bytes) == Ok(false)
      requires Rekeys(Changing(newKey), s.(stage := K.Copying(path)), acts, Settled(s.(stage := K.Copying(path)), d', path, ok))
      ensures Rekeys(Changing(newKey), s, [K.Ask(false)] + acts, Settled(s, d', path, ok))
    {
      hide Rekeys, K.Probe, K.RekeyOf;
      Probed(s, path, newKey, false);
      RekeysThen(Changing(newKey), s, [K.Ask(false)], s.(stage := K.Copying(path)), acts, Settled(s, d', path, ok));
    }

    /** The same answer, whatever comes with it. */
    static ghost predicate Says<T, U>(r: Result<T, Error>, s: Result<U, Error>) {
      match s case Ok(_) => r.Ok? case Err(error) => r == Err(error)
    }

    /** The second half of that, once there is a file to write to. */
    method ResealInto(temp: TempFile, path: Path, newKey: Key, ghost s: K.State) returns (r: Result<bool, Error>, ghost acts: seq<K.Act>)
      requires Valid() && key.Some? && path != [] && !IsTempPath(path) && path in Live(s.disk) && s.stage == K.Copying(path)
      requires temp.fs == fs && temp.Holding() && IsTempPath(temp.path) && temp.path !in Live(s.disk)
      requires fs.disk == CreateFile(s.disk, temp.path)
      modifies temp, fs`disk
      ensures Valid() && (r.Ok? ==> r.value)
      ensures r == Ok(true) ==>
                && path in fs.Files() && SameBut(Live(s.disk), fs.Files(), {path}) && fs.Files()[path].flushed
                && K.Whole(newKey, fs.Files()[path].bytes).Some?
                && K.Whole(newKey, fs.Files()[path].bytes) == K.Whole(key.value, Live(s.disk)[path].bytes)
      ensures r.Err? ==> SameBut(Live(s.disk), fs.Files(), {})
      ensures r.Err? && !Recoverable(r.error) ==> K.Whole(key.value, Live(s.disk)[path].bytes).None?
      ensures fs.reliable ==> r == K.Movable(key.value, Live(s.disk)[path].bytes)
      ensures if K.Movable(key.value, Live(s.disk)[path].bytes).Ok?
              then Rekeys(Changing(newKey), s, acts, Settled(s, fs.disk, path, Mended(r)))
              else r.Err? && Wasted(s.disk, fs.disk)
    {
      hide K.Whole, K.Movable, Rekeys, Settled, K.RekeyOf;
      ghost var before, made := Live(s.disk), fs.Files();
      acts := [];
      var out, nonce := Copied(path, newKey);
      if out.Err? {
        ghost var gone := temp.Drop();
        SameThrough(before, made, fs.Files(), {}, {});
        assert WastedOn(s.disk, fs.disk, temp.path, gone);
        if K.Movable(key.value, before[path].bytes).Ok? {
          acts := CopySpoilt(s, path, newKey, temp.path, gone);
        }
        return Err(out.error), acts;
      }
      r, acts := ResealOut(temp, path, newKey, out.value, nonce, s);
    }

    /** The copy is there: fill the file and put it onto the old one. */
    method ResealOut(temp: TempFile, path: Path, newKey: Key, data: Bytes, ghost nonce: Bytes, ghost s: K.State)
      returns (r: Result<bool, Error>, ghost acts: seq<K.Act>)
      requires Valid() && key.Some? && path != [] && !IsTempPath(path) && path in Live(s.disk) && s.stage == K.Copying(path)
      requires temp.fs == fs && temp.Holding() && IsTempPath(temp.path) && temp.path !in Live(s.disk)
      requires fs.disk == CreateFile(s.disk, temp.path)
      requires K.Copied(key.value, newKey, nonce, Live(s.disk)[path].bytes) == Ok(data)
      modifies temp, fs`disk
      ensures Valid() && (r.Ok? ==> r.value)
      ensures r == Ok(true) ==>
                path in fs.Files() && SameBut(Live(s.disk), fs.Files(), {path}) && fs.Files()[path] == Blob(data, true)
      ensures r.Err? ==> r == Err(Io) && SameBut(Live(s.disk), fs.Files(), {}) && !fs.reliable
      ensures Rekeys(Changing(newKey), s, acts, Settled(s, fs.disk, path, r.Ok?))
    {
      hide K.Copied, Rekeys, Settled, Takes, K.RekeyOf, Onto;
      ghost var before, made, created := Live(s.disk), fs.Files(), fs.disk;
      var written, _ := WriteOut(temp, data, []);
      ghost var filled, full := fs.Files(), fs.disk;
      SameThrough(before, made, filled, {}, {});
      if written.Err? {
        ghost var n, gone :| FilledInVain(created, full, temp.path, data, n, gone);
        acts := ResealFails(s, path, newKey, temp.path, data, nonce, n, gone);
        return Err(Io), acts;
      }
      r, acts := ResealOnto(temp, path, newKey, data, nonce, s);
      SameThrough(before, filled, fs.Files(), {}, if r.Ok? then {path} else {});
    }

    /** The file is whole: the rename onto the old one. */
    method ResealOnto(temp: TempFile, path: Path, newKey: Key, data: Bytes, ghost nonce: Bytes, ghost s: K.State)
      returns (r: Result<bool, Error>, ghost acts: seq<K.Act>)
      requires Valid() && key.Some? && path != [] && !IsTempPath(path) && path in fs.Files()
      requires path in Live(s.disk) && s.stage == K.Copying(path)
      requires temp.fs == fs && temp.Holding() && IsTempPath(temp.path) && temp.path !in Live(s.disk)
      requires fs.disk == WriteFile(CreateFile(s.disk, temp.path), temp.path, data)
      requires K.Copied(key.value, newKey, nonce, Live(s.disk)[path].bytes) == Ok(data)
      modifies temp, fs`disk
      ensures Valid() && (r.Ok? ==> r.value)
      ensures r == Ok(true) ==>
                path in fs.Files() && SameBut(old(fs.Files()), fs.Files(), {path}) && fs.Files()[path] == Blob(data, true)
      ensures r.Err? ==> r == Err(Io) && SameBut(old(fs.Files()), fs.Files(), {}) && !fs.reliable
      ensures Rekeys(Changing(newKey), s, acts, Settled(s, fs.disk, path, r.Ok?))
    {
      hide K.Copied, Rekeys, Settled, K.RekeyOf, Onto, IsTempName;
      ghost var full := fs.disk;
      var replaced := temp.Replace(path);
      if replaced.Ok? {
        ghost var durable :| temp.Placed(full, fs.disk, path, durable);
        acts := ResealPlaces(s, path, newKey, temp.path, data, nonce, durable);
        return Ok(true), acts;
      }
      ghost var flushed := !temp.Dropped(full, fs.disk);
      ghost var left := if flushed then FlushFile(full, temp.path) else full;
      acts := ResealMisses(s, path, newKey, temp.path, data, nonce, flushed, fs.disk != left);
      return Err(Io), acts;
    }

    /** The copy is settled and its file there. */
    lemma CopyStarts(s: K.State, path: Path, newKey: Key, temp: Path, data: Bytes, nonce: Bytes)
      requires key.Some? && path in Live(s.disk) && s.stage == K.Copying(path) && IsTempPath(temp) && temp !in Live(s.disk)
      requires K.Copied(key.value, newKey, nonce, Live(s.disk)[path].bytes) == Ok(data)
      ensures Rekeys(Changing(newKey), s, [K.Read(nonce, temp)],
                     Onto(s, CreateFile(s.disk, temp), path, K.Put(temp, data, K.Filling(0)), K.Filling(0)))
    {
      hide Rekeys, K.Copied;
      RekeysOne(Changing(newKey), s, K.Read(nonce, temp),
                Onto(s, CreateFile(s.disk, temp), path, K.Put(temp, data, K.Filling(0)), K.Filling(0)));
    }

    /** And so much of it went in. */
    lemma CopyFills(s: K.State, path: Path, newKey: Key, temp: Path, data: Bytes, nonce: Bytes, n: nat) returns (acts: seq<K.Act>)
      requires key.Some? && path in Live(s.disk) && s.stage == K.Copying(path) && IsTempPath(temp) && temp !in Live(s.disk)
      requires K.Copied(key.value, newKey, nonce, Live(s.disk)[path].bytes) == Ok(data) && n <= |data|
      ensures Rekeys(Changing(newKey), s, acts,
                     Onto(s, WriteFile(CreateFile(s.disk, temp), temp, data[..n]), path, K.Put(temp, data, K.Filling(0)), K.Filling(n)))
    {
      hide Rekeys, K.Copied, Onto, K.RekeyOf;
      var created, put := CreateFile(s.disk, temp), K.Put(temp, data, K.Filling(0));
      CopyStarts(s, path, newKey, temp, data, nonce);
      var fill := RekeyFills(Changing(newKey), s, created, path, put, n);
      RekeysThen(Changing(newKey), s, [K.Read(nonce, temp)], Onto(s, created, path, put, K.Filling(0)), fill,
                 Onto(s, WriteFile(created, temp, data[..n]), path, put, K.Filling(n)));
      acts := [K.Read(nonce, temp)] + fill;
    }

    lemma ResealFails(s: K.State, path: Path, newKey: Key, temp: Path, data: Bytes, nonce: Bytes, n: nat, gone: bool)
      returns (acts: seq<K.Act>)
      requires key.Some? && path in Live(s.disk) && s.stage == K.Copying(path) && IsTempPath(temp) && temp !in Live(s.disk)
      requires K.Copied(key.value, newKey, nonce, Live(s.disk)[path].bytes) == Ok(data) && n <= |data|
      ensures Rekeys(Changing(newKey), s, acts,
                     Settled(s, R.Remove(WriteFile(CreateFile(s.disk, temp), temp, data[..n]), temp, gone), path, false))
    {
      hide Rekeys, K.Copied, Onto, K.RekeyOf, Settled;
      var put, mid := K.Put(temp, data, K.Filling(0)), WriteFile(CreateFile(s.disk, temp), temp, data[..n]);
      var fill := CopyFills(s, path, newKey, temp, data, nonce, n);
      RekeyFails(Changing(newKey), s, mid, path, put, K.Filling(n), gone);
      RekeysThen(Changing(newKey), s, fill, Onto(s, mid, path, put, K.Filling(n)), [K.Fail(gone)],
                 Settled(s, R.Remove(mid, temp, gone), path, false));
      acts := fill + [K.Fail(gone)];
    }

    lemma ResealPlaces(s: K.State, path: Path, newKey: Key, temp: Path, data: Bytes, nonce: Bytes, durable: bool)
      returns (acts: seq<K.Act>)
      requires key.Some? && path in Live(s.disk) && s.stage == K.Copying(path) && IsTempPath(temp) && temp !in Live(s.disk)
      requires K.Copied(key.value, newKey, nonce, Live(s.disk)[path].bytes) == Ok(data)
      ensures var full := WriteFile(CreateFile(s.disk, temp), temp, data);
              Rekeys(Changing(newKey), s, acts, Settled(s, SyncDir(Move(FlushFile(full, temp), temp, path), durable), path, true))
    {
      hide Rekeys, K.Copied, Onto, K.RekeyOf, Settled;
      var put, full := K.Put(temp, data, K.Filling(0)), WriteFile(CreateFile(s.disk, temp), temp, data);
      assert data[..|data|] == data;
      var fill := CopyFills(s, path, newKey, temp, data, nonce, |data|);
      var place := RekeyPlaces(Changing(newKey), s, full, path, put, durable);
      RekeysThen(Changing(newKey), s, fill, Onto(s, full, path, put, K.Filling(|data|)), place,
                 Settled(s, SyncDir(Move(FlushFile(full, temp), temp, path), durable), path, true));
      acts := fill + place;
    }

    lemma ResealMisses(s: K.State, path: Path, newKey: Key, temp: Path, data: Bytes, nonce: Bytes, flushed: bool, gone: bool)
      returns (acts: seq<K.Act>)
      requires key.Some? && path in Live(s.disk) && s.stage == K.Copying(path) && IsTempPath(temp) && temp !in Live(s.disk)
      requires K.Copied(key.value, newKey, nonce, Live(s.disk)[path].bytes) == Ok(data)
      ensures var full := WriteFile(CreateFile(s.disk, temp), temp, data);
              var left := if flushed then FlushFile(full, temp) else full;
              Rekeys(Changing(newKey), s, acts, Settled(s, if gone then Unlink(left, temp) else left, path, false))
    {
      hide Rekeys, K.Copied, Onto, K.RekeyOf, Settled;
      var put, full := K.Put(temp, data, K.Filling(0)), WriteFile(CreateFile(s.disk, temp), temp, data);
      var left := if flushed then FlushFile(full, temp) else full;
      assert data[..|data|] == data;
      var fill := CopyFills(s, path, newKey, temp, data, nonce, |data|);
      var miss := RekeyMisses(Changing(newKey), s, full, path, put, flushed, gone);
      RekeysThen(Changing(newKey), s, fill, Onto(s, full, path, put, K.Filling(|data|)), miss,
                 Settled(s, if gone then Unlink(left, temp) else left, path, false));
      acts := fill + miss;
    }

    /** A file that could be moved, had reading it not failed. */
    lemma CopySpoilt(s: K.State, path: Path, newKey: Key, temp: Path, gone: bool) returns (acts: seq<K.Act>)
      requires key.Some? && path in Live(s.disk) && s.stage == K.Copying(path) && IsTempPath(temp) && temp !in Live(s.disk)
      requires K.Movable(key.value, Live(s.disk)[path].bytes).Ok?
      ensures Rekeys(Changing(newKey), s, acts, Settled(s, R.Remove(CreateFile(s.disk, temp), temp, gone), path, false))
    {
      hide Rekeys, Onto, K.RekeyOf, Settled;
      var nonce: Bytes := seq(19, _ => Plain(0));
      var created := CreateFile(s.disk, temp);
      var data := K.MovableCopies(key.value, newKey, nonce, Live(s.disk)[path].bytes);
      hide K.Copied;
      acts := ResealFails(s, path, newKey, temp, data, nonce, 0, gone);
      assert data[..0] == [] && Live(created)[temp := Blob([], false)] == Live(created);
      assert WriteFile(created, temp, data[..0]) == created;
    }

    /** A file's payload under this store's key, sealed under the new one: never in the clear in between. */
    method Copied(path: Path, newKey: Key) returns (r: Result<Bytes, Error>, ghost nonce: Bytes)
      requires Valid() && key.Some?
      ensures r.Ok? ==>
                && path in fs.Files() && K.Whole(key.value, fs.Files()[path].bytes).Some?
                && K.Whole(newKey, r.value) == K.Whole(key.value, fs.Files()[path].bytes)
      ensures r.Err? && !Recoverable(r.error) ==> path in fs.Files() && K.Whole(key.value, fs.Files()[path].bytes).None?
      ensures fs.reliable && path in fs.Files() ==> Says(r, K.Movable(key.value, fs.Files()[path].bytes))
      ensures r != Err(Io) ==> path in fs.Files() && Says(r, K.Movable(key.value, fs.Files()[path].bytes))
      ensures r.Ok? ==> K.Copied(key.value, newKey, nonce, fs.Files()[path].bytes) == r
    {
      var zeros: Bytes := seq(19, _ => Plain(0));
      var drawn: Bytes :| |drawn| == |zeros|;
      nonce := drawn;
      var read := fs.ReadFile(path);
      if read.Err? {
        return Err(Io), nonce;
      }
      var payload, _ := OpenSealed(key.value, read.value);
      if payload.Err? {
        return payload, nonce;
      }
      var whole := C.SealPieces(newKey, drawn, [payload.value]);
      assert C.Joined([payload.value]) == payload.value;
      ExactImage(key.value, read.value, payload.value);
      if whole.Err? {
        return Err(Error.TooManyChunks), nonce;
      }
      RoundTrip(newKey, drawn, payload.value);
      return Ok(whole.value), nonce;
    }
  }

  /** The directories that came: none as deep as the entries, but for the one of temporary files. */
  ghost predicate Branched(layout: Layout, dirs: set<Path>, dirs': set<Path>) {
    forall p | p in dirs' :: p in dirs || p == [DIR] || |p| <= layout.depth
  }

  lemma BranchedTo(layout: Layout, dirs: set<Path>, dirs': set<Path>, digest: Digest)
    requires layout.Shard(digest).Some? && forall d | d in dirs' :: d in dirs || d <= layout.Shard(digest).value
    ensures Branched(layout, dirs, dirs')
  {
  }

  lemma BranchedThen(layout: Layout, dirs: set<Path>, mid: set<Path>, dirs': set<Path>)
    requires mid <= dirs + {[DIR]}
    ensures Branched(layout, dirs, dirs) && Branched(layout, dirs, mid)
    ensures Branched(layout, mid, dirs') ==> Branched(layout, dirs, dirs')
  {
  }

  /** What an add leaves in order: its entry is in its shard, and its directories are none of the entries'. */
  lemma StaysInOrder(layout: Layout, files: Image, files': Image, dirs: set<Path>, dirs': set<Path>, digest: Digest, form: Form)
    requires layout.Valid() && layout.Shard(digest).Some? && SameBut(files, files', {Place(layout, digest, form)})
    requires Branched(layout, dirs, dirs')
    ensures WellPlaced(layout, files) ==> WellPlaced(layout, files')
    ensures NoEntryDirectories(layout, dirs) ==> NoEntryDirectories(layout, dirs')
  {
    hide Layout.ParseName, FileOf;
    PlaceNames(layout, digest, form);
    NoEntryIsTemp(layout);
    var place := Place(layout, digest, form);
    assert Name(place) == layout.FileName(digest, form) && Parent(place) == layout.Shard(digest).value;
    NameRoundTrip(layout, digest, form);
    if WellPlaced(layout, files) {
      forall p | p in Walked(OnlyEntries, layout, files')
        ensures layout.ParseName(Name(p)).Some? && layout.Shard(layout.ParseName(Name(p)).value.0) == Some(Parent(p))
      {
        if p != place {
          YieldsNoTemp(layout, p);
          assert p in Walked(OnlyEntries, layout, files);
        }
      }
    }
  }

  lemma YieldsNoTemp(layout: Layout, p: Path)
    requires Yields(OnlyEntries, layout, p)
    ensures !IsTempPath(p)
  {
  }

  /** An entry's file is no temporary file. */
  lemma NotTemp(layout: Layout, p: Path)
    requires layout.Valid() && FileOf(layout, p).Some?
    ensures !IsTempPath(p)
  {
    if IsTempPath(p) {
      TempNamesNothing(layout, p);
    }
  }
}
