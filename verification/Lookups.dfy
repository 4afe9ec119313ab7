/** What a lookup by digest or by prefix comes to, whatever the store remembers. */
module Lookups {
  import opened Wrappers
  import opened Digests
  import opened Layouts
  import opened Forms
  import opened Disks
  import opened FileSystems
  import opened Walks
  import opened Salvage

  // -- by digest ------------------------------------------------------------

  /** The first of these forms a file lies in. */
  function FirstFile(layout: Layout, files: Image, digest: Digest, forms: seq<Form>): Option<Form>
    requires layout.Shard(digest).Some?
  {
    if forms == [] then None
    else if Place(layout, digest, forms[0]) in files then Some(forms[0])
    else FirstFile(layout, files, digest, forms[1..])
  }

  /** The first of these forms anything lies under that can be opened, a directory included. */
  function FirstOpen(layout: Layout, dirs: set<Path>, files: Image, digest: Digest, forms: seq<Form>): Option<Form>
    requires layout.Shard(digest).Some?
  {
    if forms == [] then None
    else if Taken(dirs, files, Place(layout, digest, forms[0])) then Some(forms[0])
    else FirstOpen(layout, dirs, files, digest, forms[1..])
  }

  /** The names a lookup tries, in the order the last hit suggests. */
  function Candidates(hint: nat): seq<Form> { Form.FromU8(hint).WithOthersAfter() }

  ghost predicate NoDirectories(layout: Layout, dirs: set<Path>, digest: Digest)
    requires layout.Shard(digest).Some?
  {
    forall f: Form :: Place(layout, digest, f) !in dirs
  }

  lemma {:induction false} FirstOf(layout: Layout, dirs: set<Path>, files: Image, digest: Digest, forms: seq<Form>)
    requires layout.Shard(digest).Some?
    ensures var r := FirstFile(layout, files, digest, forms);
            && (r.Some? ==> r.value in forms && Place(layout, digest, r.value) in files)
            && (r.Some? ==> exists i :: 0 <= i < |forms| && forms[i] == r.value
                                        && forall j | 0 <= j < i :: Place(layout, digest, forms[j]) !in files)
            && (r.None? <==> forall f | f in forms :: Place(layout, digest, f) !in files)
    ensures NoDirectories(layout, dirs, digest) ==>
              FirstOpen(layout, dirs, files, digest, forms) == FirstFile(layout, files, digest, forms)
    decreases |forms|
  {
    if forms != [] {
      FirstOf(layout, dirs, files, digest, forms[1..]);
      assert forms == [forms[0]] + forms[1..];
    }
  }

  /** The order in full, for every form that answered last and whatever else is remembered. */
  lemma CandidatesSpelt(hint: nat)
    ensures Candidates(Raw.AsU8()) == [Raw, Zstd, Enc]
    ensures Candidates(Zstd.AsU8()) == [Zstd, Enc, Raw]
    ensures Candidates(Enc.AsU8()) == [Enc, Zstd, Raw]
    ensures hint > 2 ==> Candidates(hint) == Candidates(Raw.AsU8())
  {
  }

  lemma AllTried(hint: nat, f: Form)
    ensures f in Candidates(hint)
  {
    assert Candidates(hint)[0] in Candidates(hint) && Candidates(hint)[1] in Candidates(hint) && Candidates(hint)[2] in Candidates(hint);
  }

  /**
  The hint never changes an answer. Whatever form answered last, a lookup finds
  something exactly when one of the three forms is there, and so does an open where no
  directory lies under one of the names.
  */
  lemma {:induction false} HintNeverHides(layout: Layout, dirs: set<Path>, files: Image, digest: Digest, hint: nat)
    requires layout.Shard(digest).Some?
    ensures FirstFile(layout, files, digest, Candidates(hint)).Some? <==> exists f: Form :: Place(layout, digest, f) in files
    ensures NoDirectories(layout, dirs, digest) ==>
              FirstOpen(layout, dirs, files, digest, Candidates(hint)) == FirstFile(layout, files, digest, Candidates(hint))
  {
    FirstOf(layout, dirs, files, digest, Candidates(hint));
    forall f: Form
      ensures f in Candidates(hint)
    {
      AllTried(hint, f);
    }
  }

  /** What reading an entry through this hint hands back. */
  function ReadOf(layout: Layout, codec: Codec, key: Option<Key>, dirs: set<Path>, files: Image, digest: Digest,
                  hint: nat): Result<Option<Bytes>, Error>
    requires layout.Shard(digest).Some?
  {
    match FirstOpen(layout, dirs, files, digest, Candidates(hint))
    case None => Ok(None)
    case Some(form) =>
      var p := Place(layout, digest, form);
      if p !in files then Err(Io)
      else match Decode(codec, key, form, files[p].bytes)
        case Ok(content) => Ok(Some(content))
        case Err(error) => Err(error)
  }

  lemma {:induction false} FirstOpenAt(layout: Layout, dirs: set<Path>, files: Image, digest: Digest, forms: seq<Form>, i: nat)
    requires layout.Shard(digest).Some? && i <= |forms|
    requires forall j | 0 <= j < i :: !Taken(dirs, files, Place(layout, digest, forms[j]))
    ensures i == |forms| ==> FirstOpen(layout, dirs, files, digest, forms) == None
    ensures i < |forms| && Taken(dirs, files, Place(layout, digest, forms[i])) ==>
              FirstOpen(layout, dirs, files, digest, forms) == Some(forms[i])
    decreases i
  {
    if i > 0 {
      FirstOpenAt(layout, dirs, files, digest, forms[1..], i - 1);
    }
  }

  /**
  What that is, name by name: the first of the three in the hint's order that can be
  opened is read, whatever else there is, and its content or its error is the answer; no
  such name is no entry.
  */
  lemma {:induction false} ReadExact(layout: Layout, codec: Codec, key: Option<Key>, dirs: set<Path>, files: Image, digest: Digest,
                                     hint: nat, i: nat)
    requires layout.Shard(digest).Some? && i <= 3
    requires forall j | 0 <= j < i :: !Taken(dirs, files, Place(layout, digest, Candidates(hint)[j]))
    ensures var r := ReadOf(layout, codec, key, dirs, files, digest, hint);
            && (i == 3 ==> r == Ok(None))
            && (i < 3 ==>
                  var form := Candidates(hint)[i];
                  var p := Place(layout, digest, form);
                  && (p in files ==>
                        var content := Decode(codec, key, form, files[p].bytes);
                        r == if content.Ok? then Ok(Some(content.value)) else Err(content.error))
                  && (p !in files && p in dirs ==> r == Err(Io)))
  {
    FirstOpenAt(layout, dirs, files, digest, Candidates(hint), i);
  }

  /** No two contents with one hash among those of a digest's files. */
  ghost predicate OneContentPerHash(layout: Layout, codec: Codec, key: Option<Key>, files: Image, digest: Digest)
    requires layout.Shard(digest).Some?
  {
    forall f, f': Form ::
      Content(layout, codec, key, files, digest, f).Some? && Content(layout, codec, key, files, digest, f').Some?
      && codec.hash(Content(layout, codec, key, files, digest, f).value) == codec.hash(Content(layout, codec, key, files, digest, f').value)
      ==> Content(layout, codec, key, files, digest, f) == Content(layout, codec, key, files, digest, f')
  }

  /** What the file of this form decodes to, if it is there and does. */
  function Content(layout: Layout, codec: Codec, key: Option<Key>, files: Image, digest: Digest, form: Form): Option<Bytes>
    requires layout.Shard(digest).Some?
  {
    var p := Place(layout, digest, form);
    if p in files && Decode(codec, key, form, files[p].bytes).Ok? then Some(Decode(codec, key, form, files[p].bytes).value)
    else None
  }

  /** For that it is enough that the hash never gives two contents one name. */
  lemma InjectiveIsEnough(layout: Layout, codec: Codec, key: Option<Key>, files: Image, digest: Digest)
    requires layout.Shard(digest).Some? && forall x, y | codec.hash(x) == codec.hash(y) :: x == y
    ensures OneContentPerHash(layout, codec, key, files, digest)
  {
    hide Content;
  }

  /**
  Where every form that is there is good, a read hands back the same content through any
  two hints: content of that hash, or nothing where no form is there.
  */
  lemma {:induction false} HintNeverChangesContent(layout: Layout, codec: Codec, key: Option<Key>, dirs: set<Path>, files: Image,
                                                   digest: Digest, hint: nat, other: nat)
    requires layout.Shard(digest).Some? && forall f: Form :: Place(layout, digest, f) !in dirs
    requires forall f: Form :: Place(layout, digest, f) in files ==> Good(codec, key, f, files[Place(layout, digest, f)].bytes, digest)
    requires OneContentPerHash(layout, codec, key, files, digest)
    ensures ReadOf(layout, codec, key, dirs, files, digest, hint) == ReadOf(layout, codec, key, dirs, files, digest, other)
    ensures var r := ReadOf(layout, codec, key, dirs, files, digest, hint);
            && r.Ok? && (r.value.None? <==> forall f: Form :: Place(layout, digest, f) !in files)
            && (r.value.Some? ==> codec.hash(r.value.value) == digest)
  {
    HintNeverHides(layout, dirs, files, digest, hint);
    HintNeverHides(layout, dirs, files, digest, other);
    FirstOf(layout, dirs, files, digest, Candidates(hint));
    FirstOf(layout, dirs, files, digest, Candidates(other));
    var first := FirstFile(layout, files, digest, Candidates(hint));
    if first.Some? {
      var second := FirstFile(layout, files, digest, Candidates(other));
      assert Content(layout, codec, key, files, digest, first.value) == Content(layout, codec, key, files, digest, second.value);
    }
  }

  // -- sorted lists of digests ----------------------------------------------

  /** The order digests sort in. */
  predicate Less(a: string, b: string) {
    if b == "" then false
    else if a == "" then true
    else a[0] < b[0] || (a[0] == b[0] && Less(a[1..], b[1..]))
  }

  lemma {:induction false} LessOrders(a: string, b: string, c: string)
    ensures !Less(a, a) && (a == b || Less(a, b) || Less(b, a))
    ensures Less(a, b) && Less(b, c) ==> Less(a, c)
    decreases |a|
  {
    if a != "" {
      LessOrders(a[1..], if b == "" then "" else b[1..], if c == "" then "" else c[1..]);
      assert b != "" && a[0] == b[0] && a[1..] == b[1..] ==> a == b by {
        assert a == [a[0]] + a[1..] && (b != "" ==> b == [b[0]] + b[1..]);
      }
    }
  }

  /** The order of a dictionary: a string comes before what it begins, and where two differ first the smaller character decides. */
  lemma {:induction false} LessExact(a: string, b: string)
    ensures Less(a, b) <==> a < b || exists i :: DifferAt(a, b, i) && a[i] < b[i]
    decreases |a|
  {
    if a != "" && b != "" && a[0] == b[0] {
      var rest, rest' := a[1..], b[1..];
      LessExact(rest, rest');
      assert a == [a[0]] + rest && b == [b[0]] + rest';
      if i :| DifferAt(rest, rest', i) && rest[i] < rest'[i] {
        assert a[..i + 1] == [a[0]] + rest[..i] && b[..i + 1] == [b[0]] + rest'[..i];
        assert DifferAt(a, b, i + 1);
      }
      if i :| DifferAt(a, b, i) && a[i] < b[i] {
        assert rest[..i - 1] == a[..i][1..] && rest'[..i - 1] == b[..i][1..];
        assert DifferAt(rest, rest', i - 1);
      }
    } else if a != "" && b != "" {
      assert DifferAt(a, b, 0);
      forall i | 0 < i <= |a| && i <= |b|
        ensures a[..i] == b[..i] ==> a[0] == b[0]
      {
        assert a[..i][0] == a[0] && b[..i][0] == b[0];
      }
    }
  }

  /** The first place two strings differ. */
  ghost predicate DifferAt(a: string, b: string, i: int) {
    0 <= i < |a| && i < |b| && a[..i] == b[..i] && a[i] != b[i]
  }

  ghost predicate Increasing(s: seq<Digest>, strict: bool) {
    forall i, j | 0 <= i < j < |s| :: Less(s[i], s[j]) || (!strict && s[i] == s[j])
  }

  function Insert(d: Digest, s: seq<Digest>): seq<Digest> {
    if s == [] || !Less(s[0], d) then [d] + s else [s[0]] + Insert(d, s[1..])
  }

  function Sort(s: seq<Digest>): seq<Digest> {
    if s == [] then [] else Insert(s[0], Sort(s[1..]))
  }

  /** Drop every element that equals the one before it. */
  function Dedup(s: seq<Digest>): seq<Digest> {
    if |s| < 2 then s
    else if s[0] == s[1] then Dedup(s[1..])
    else [s[0]] + Dedup(s[1..])
  }

  lemma {:induction false} InsertSorts(d: Digest, s: seq<Digest>)
    requires Increasing(s, false)
    ensures Increasing(Insert(d, s), false) && forall e :: e in Insert(d, s) <==> e == d || e in s
    decreases |s|
  {
    if s == [] || !Less(s[0], d) {
      forall j | 0 <= j < |s|
        ensures d == s[j] || Less(d, s[j])
      {
        LessOrders(d, s[0], s[j]);
        LessOrders(s[0], d, s[j]);
      }
    } else {
      InsertSorts(d, s[1..]);
      var rest := Insert(d, s[1..]);
      assert s == [s[0]] + s[1..];
      forall j | 0 <= j < |rest|
        ensures Less(s[0], rest[j]) || s[0] == rest[j]
      {
        assert rest[j] in rest;
      }
    }
  }

  lemma {:induction false} SortSorts(s: seq<Digest>)
    ensures Increasing(Sort(s), false) && forall e :: e in Sort(s) <==> e in s
    decreases |s|
  {
    if s != [] {
      assert s == [s[0]] + s[1..];
      SortSorts(s[1..]);
      InsertSorts(s[0], Sort(s[1..]));
    }
  }

  lemma {:induction false} DedupStrict(s: seq<Digest>)
    requires Increasing(s, false)
    ensures Increasing(Dedup(s), true) && forall e :: e in Dedup(s) <==> e in s
    decreases |s|
  {
    if |s| >= 2 {
      assert s == [s[0]] + s[1..];
      DedupStrict(s[1..]);
      var rest := Dedup(s[1..]);
      if s[0] == s[1] {
        assert s[0] == s[1..][0];
      } else {
        forall j | 0 <= j < |rest|
          ensures Less(s[0], rest[j])
        {
          assert rest[j] in s[1..];
          var k :| 0 <= k < |s[1..]| && s[1..][k] == rest[j];
          LessOrders(s[0], s[1], s[k + 1]);
        }
      }
    }
  }

  /** Sorting and dropping repeats gives the one strictly sorted list of these digests. */
  lemma {:induction false} SortedOnce(s: seq<Digest>)
    ensures Increasing(Dedup(Sort(s)), true) && forall e :: e in Dedup(Sort(s)) <==> e in s
  {
    SortSorts(s);
    DedupStrict(Sort(s));
  }

  // -- by prefix ------------------------------------------------------------

  /** Whether a name in a shard is an entry's whose digest begins with the prefix. */
  predicate Names(layout: Layout, prefix: string, name: string, digest: Digest) {
    var named := layout.ParseName(name);
    named.Some? && named.value.0 == digest && prefix <= digest
  }

  /** Whether one of these names is such an entry's. */
  ghost predicate Listed(layout: Layout, prefix: string, names: seq<string>, digest: Digest) {
    exists i :: 0 <= i < |names| && Names(layout, prefix, names[i], digest)
  }

  lemma ListedMore(layout: Layout, prefix: string, names: seq<string>, i: nat)
    requires i < |names|
    ensures forall d :: Listed(layout, prefix, names[..i + 1], d) <==>
                        Listed(layout, prefix, names[..i], d) || Names(layout, prefix, names[i], d)
  {
    var more, done := names[..i + 1], names[..i];
    assert more == done + [names[i]] && more[i] == names[i];
    assert forall j | 0 <= j < i :: more[j] == done[j];
  }

  /** What one shard's listing says about a prefix. */
  ghost predicate InShard(layout: Layout, dirs: set<Path>, files: Image, prefix: string, digest: Digest) {
    var shard := Shards(prefix, layout.depth);
    shard.Some? && exists name :: Lists(dirs, files, shard.value, name) && Names(layout, prefix, name, digest)
  }

  lemma ListedIsInShard(layout: Layout, dirs: set<Path>, files: Image, prefix: string, names: seq<string>)
    requires Shards(prefix, layout.depth).Some?
    requires forall name :: name in names <==> Lists(dirs, files, Shards(prefix, layout.depth).value, name)
    ensures forall d :: Listed(layout, prefix, names, d) <==> InShard(layout, dirs, files, prefix, d)
  {
    var shard := Shards(prefix, layout.depth).value;
    forall d
      ensures Listed(layout, prefix, names, d) <==> InShard(layout, dirs, files, prefix, d)
    {
      if i :| 0 <= i < |names| && Names(layout, prefix, names[i], d) {
        assert names[i] in names && Lists(dirs, files, shard, names[i]);
      }
      if name :| Lists(dirs, files, shard, name) && Names(layout, prefix, name, d) {
        assert name in names;
      }
    }
  }

  /** What the walk over the whole tree says about it. */
  ghost predicate InTree(layout: Layout, files: Image, prefix: string, digest: Digest) {
    exists p :: p in Walked(OnlyEntries, layout, files) && Names(layout, prefix, Name(p), digest)
  }

  /** An entry of this digest, in any form and anywhere a walk goes. */
  ghost predicate HasEntry(layout: Layout, files: Image, digest: Digest) {
    exists p, form :: p in files && Yields(OnlyEntries, layout, p) && FileOf(layout, p) == Some((digest, form))
  }

  lemma {:induction false} InTreeExactly(layout: Layout, files: Image, prefix: string, digest: Digest)
    ensures InTree(layout, files, prefix, digest) <==> prefix <= digest && HasEntry(layout, files, digest)
  {
    hide Layout.ParseName;
    if p :| p in Walked(OnlyEntries, layout, files) && Names(layout, prefix, Name(p), digest) {
      assert FileOf(layout, p) == Some((digest, layout.ParseName(Name(p)).value.1));
    }
    if p, form :| p in files && Yields(OnlyEntries, layout, p) && FileOf(layout, p) == Some((digest, form)) {
      assert p in Walked(OnlyEntries, layout, files) && layout.ParseName(Name(p)) == Some((digest, form));
    }
  }

  /** Every entry lies in the shard its digest names. */
  ghost predicate WellPlaced(layout: Layout, files: Image) {
    forall p | p in Walked(OnlyEntries, layout, files) ::
      layout.ParseName(Name(p)).Some? && layout.Shard(layout.ParseName(Name(p)).value.0) == Some(Parent(p))
  }

  /** No directory among the entries has an entry's name. */
  ghost predicate NoEntryDirectories(layout: Layout, dirs: set<Path>) {
    forall d | d in dirs && |d| == layout.depth + 1 :: layout.ParseName(Name(d)).None?
  }

  /** A store that has nothing in it is in order. */
  lemma EmptyInOrder(layout: Layout)
    ensures WellPlaced(layout, map[]) && NoEntryDirectories(layout, {[]})
  {
  }

  /**
  One shard is enough. In a well-placed tree, what the prefix's shard lists is what
  the walk over everything finds, for every prefix that reaches the shard.
  */
  lemma {:induction false} ShardIsEnough(layout: Layout, dirs: set<Path>, files: Image, prefix: string, digest: Digest)
    requires layout.Valid() && TreeOk(dirs, files) && WellPlaced(layout, files) && NoEntryDirectories(layout, dirs)
    requires |prefix| >= layout.depth * 2
    ensures InShard(layout, dirs, files, prefix, digest) <==> InTree(layout, files, prefix, digest)
  {
    hide TreeOk, WellPlaced, NoEntryDirectories, Names, Lists, Layout.ParseName;
    var shard := Shards(prefix, layout.depth).value;
    if name :| Lists(dirs, files, shard, name) && Names(layout, prefix, name, digest) {
      ListedIsEntry(layout, dirs, files, prefix, name, digest);
    }
    if p :| p in Walked(OnlyEntries, layout, files) && Names(layout, prefix, Name(p), digest) {
      EntryIsListed(layout, dirs, files, prefix, p, digest);
    }
  }

  /** What the shard lists under an entry's name is an entry of the tree. */
  lemma ListedIsEntry(layout: Layout, dirs: set<Path>, files: Image, prefix: string, name: string, digest: Digest)
    requires layout.Valid() && NoEntryDirectories(layout, dirs) && |prefix| >= layout.depth * 2
    requires Lists(dirs, files, Shards(prefix, layout.depth).value, name) && Names(layout, prefix, name, digest)
    ensures var p := Shards(prefix, layout.depth).value + [name];
            Name(p) == name && p in Walked(OnlyEntries, layout, files)
  {
    hide Layout.ParseName;
    var p := Shards(prefix, layout.depth).value + [name];
    assert Name(p) == name && p in files;
    assert |p| > 1 ==> p[0] == prefix[0..2];
  }

  /** And an entry of the tree whose digest begins with the prefix is in the prefix's shard. */
  lemma EntryIsListed(layout: Layout, dirs: set<Path>, files: Image, prefix: string, p: Path, digest: Digest)
    requires TreeOk(dirs, files) && WellPlaced(layout, files) && |prefix| >= layout.depth * 2
    requires p in Walked(OnlyEntries, layout, files) && Names(layout, prefix, Name(p), digest)
    ensures Lists(dirs, files, Shards(prefix, layout.depth).value, Name(p))
  {
    hide Layout.ParseName;
    ShardsOfPrefix(prefix, digest, layout.depth);
    assert p == Shards(prefix, layout.depth).value + [Name(p)];
  }
}
