/**
The theorems about runs, said of a store as it is: its layout, its codec and its keys,
and the files it finds. Nothing here speaks of a configuration or of suspects.
*/
module StoreRuns {
  import opened Wrappers
  import opened Digests
  import opened Layouts
  import opened Forms
  import opened Disks
  import opened Conversions
  import K = KeyChange
  import R = Runs
  import W = Walks
  import T = RunTheorems

  ghost function Machine(w: World): R.Config { R.ConfigOf(w.layout, w.codec, w.key) }

  /** A store nobody is at work on: one directory state, and every entry in it flushed. */
  ghost predicate Resting(w: World, s: R.State) {
    && |s.disk| == 1 && s.writers == map[] && s.conv == R.Idle
    && forall p | p in s.disk[0] && IsEntry(w, p) :: s.disk[0][p].flushed
  }

  /** Any files will do, as long as the entries among them are flushed. */
  lemma AnyFilesRest(w: World, files: Image)
    requires forall p | p in files && IsEntry(w, p) :: files[p].flushed
    ensures Resting(w, R.State([files], map[], R.Idle))
  {
  }

  /** A digest with an entry that is not its content. */
  ghost predicate HasBadEntry(w: World, files: Image, digest: Digest) {
    exists p :: p in files && IsEntry(w, p) && DigestAt(w, p) == digest && !GoodAt(w, files, p, digest)
  }

  ghost function Suspects(w: World, files: Image): set<Digest> {
    set p | p in files && IsEntry(w, p) && !GoodAt(w, files, p, DigestAt(w, p)) :: DigestAt(w, p)
  }

  /** What the machine takes for a good file is a flushed good entry. */
  lemma GoodIsGood(w: World, files: Image, p: Path, digest: Digest)
    ensures R.IsGood(Machine(w), files, p, digest) <==>
            p in files && files[p].flushed && IsEntry(w, p) && DigestAt(w, p) == digest && GoodAt(w, files, p, digest)
  {
    hide Decode;
  }

  lemma {:induction false} RestIsRest(w: World, s: R.State)
    requires Resting(w, s)
    ensures T.AtRest(Machine(w), Suspects(w, s.disk[0]), s)
    ensures forall digest :: digest in Suspects(w, s.disk[0]) <==> HasBadEntry(w, s.disk[0], digest)
  {
    hide GoodAt, R.IsGood, R.ConfigOf;
    var cfg, files := Machine(w), s.disk[0];
    forall p | p in files && cfg.named(p).Some?
      ensures files[p].flushed
      ensures cfg.named(p).value.0 !in Suspects(w, files) ==> R.IsGood(cfg, files, p, cfg.named(p).value.0)
    {
      NamedIsEntry(w, p);
      GoodIsGood(w, files, p, DigestAt(w, p));
    }
  }

  lemma NamedIsEntry(w: World, p: Path)
    ensures Machine(w).named(p).Some? <==> IsEntry(w, p)
    ensures IsEntry(w, p) ==> Machine(w).named(p) == Some((DigestAt(w, p), FormOf(w, p)))
  {
  }

  /** A good file anywhere, or where a lookup goes, as the store has it. */
  lemma {:induction false} HasGoodIs(w: World, files: Image, digest: Digest)
    requires w.layout.Valid()
    ensures R.HasGood(Machine(w), R.Anywhere, files, digest) ==> HasGoodEntry(w, files, digest)
    ensures w.layout.Shard(digest).Some? && R.HasGood(Machine(w), R.OwnPlaces, files, digest) ==> HasGoodInPlace(w, files, digest)
    ensures (forall p | p in files && IsEntry(w, p) :: files[p].flushed) ==>
              && (HasGoodEntry(w, files, digest) ==> R.HasGood(Machine(w), R.Anywhere, files, digest))
              && (w.layout.Shard(digest).Some? && HasGoodInPlace(w, files, digest) ==> R.HasGood(Machine(w), R.OwnPlaces, files, digest))
  {
    hide R.IsGood, GoodAt;
    if p :| R.Counts(Machine(w), R.Anywhere, p, digest) && R.IsGood(Machine(w), files, p, digest) {
      GoodIsGood(w, files, p, digest);
    }
    if w.layout.Shard(digest).Some? {
      if p :| R.Counts(Machine(w), R.OwnPlaces, p, digest) && R.IsGood(Machine(w), files, p, digest) {
        var f: Form :| p == Machine(w).place(digest, f);
        InPlaceIs(w, files, digest, f);
      }
    }
    if forall p | p in files && IsEntry(w, p) :: files[p].flushed {
      if HasGoodEntry(w, files, digest) {
        var p :| p in files && IsEntry(w, p) && DigestAt(w, p) == digest && GoodAt(w, files, p, digest);
        GoodIsGood(w, files, p, digest);
        assert R.Counts(Machine(w), R.Anywhere, p, digest);
      }
      if w.layout.Shard(digest).Some? && HasGoodInPlace(w, files, digest) {
        var f: Form :| Place(w.layout, digest, f) in files && Good(w.codec, w.key, f, files[Place(w.layout, digest, f)].bytes, digest);
        InPlaceIs(w, files, digest, f);
        assert R.Counts(Machine(w), R.OwnPlaces, Place(w.layout, digest, f), digest) by {
          assert Place(w.layout, digest, f) == Machine(w).place(digest, f);
        }
      }
    }
  }

  lemma InPlaceIs(w: World, files: Image, digest: Digest, f: Form)
    requires w.layout.Valid() && w.layout.Shard(digest).Some?
    ensures var p := Place(w.layout, digest, f);
            && Machine(w).place(digest, f) == p && IsEntry(w, p)
            && (R.IsGood(Machine(w), files, p, digest) <==>
                  p in files && files[p].flushed && Good(w.codec, w.key, f, files[p].bytes, digest))
  {
    hide Decode;
    PlaceNames(w.layout, digest, f);
    W.PlaceIsEntry(w.layout, digest, f);
  }

  /**
  Crash safety. Whatever any number of writers and a conversion did, wherever they were
  cut off and whichever directory state comes back, every entry was flushed and is the
  content its name says, unless its digest had an entry before that was not.
  */
  lemma {:induction false} EntriesAreGood(w: World, s: R.State, acts: seq<R.Act>, at: nat, p: Path)
    requires w.layout.Valid() && Lawful(w.codec) && Resting(w, s) && R.Run(Machine(w), s, acts).Some?
    requires var disk := R.Run(Machine(w), s, acts).value.disk; at < |disk| && p in disk[at] && IsEntry(w, p)
    ensures var files := R.Run(Machine(w), s, acts).value.disk[at];
            && files[p].flushed
            && (GoodAt(w, files, p, DigestAt(w, p)) || HasBadEntry(w, s.disk[0], DigestAt(w, p)))
  {
    R.ConfigIsSound(w.layout, w.codec, w.key);
    RestIsRest(w, s);
    NamedIsEntry(w, p);
    hide R.Run, R.ConfigOf, Resting, Suspects, HasBadEntry, T.AtRest, R.Sound;
    T.EveryEntryGood(Machine(w), Suspects(w, s.disk[0]), s, acts, at, p);
    EntryGood(w, R.Run(Machine(w), s, acts).value.disk[at], p);
  }

  lemma EntryGood(w: World, files: Image, p: Path)
    requires p in files && IsEntry(w, p)
    ensures Machine(w).good(FormOf(w, p), files[p].bytes, DigestAt(w, p)) <==> GoodAt(w, files, p, DigestAt(w, p))
  {
    hide Decode;
  }

  /** Conservation. A digest with a good entry has one in every state of every run, and where a lookup finds it if it was there. */
  lemma {:induction false} GoodEntriesStay(w: World, s: R.State, acts: seq<R.Act>, at: nat, digest: Digest)
    requires w.layout.Valid() && Lawful(w.codec) && Resting(w, s) && R.Run(Machine(w), s, acts).Some?
    requires at < |R.Run(Machine(w), s, acts).value.disk|
    ensures var files := R.Run(Machine(w), s, acts).value.disk[at];
            && (HasGoodEntry(w, s.disk[0], digest) ==> HasGoodEntry(w, files, digest))
            && (w.layout.Shard(digest).Some? && HasGoodInPlace(w, s.disk[0], digest) ==> HasGoodInPlace(w, files, digest))
  {
    R.ConfigIsSound(w.layout, w.codec, w.key);
    RestIsRest(w, s);
    HasGoodIs(w, s.disk[0], digest);
    hide R.Run, R.ConfigOf, Suspects, HasGoodEntry, HasGoodInPlace, T.AtRest, R.Sound, R.HasGood, IsEntry;
    var disk := R.Run(Machine(w), s, acts).value.disk;
    HasGoodIs(w, disk[at], digest);
    if HasGoodEntry(w, s.disk[0], digest) {
      T.GoodStaysGood(Machine(w), R.Anywhere, Suspects(w, s.disk[0]), s, acts, digest);
    }
    if w.layout.Shard(digest).Some? && HasGoodInPlace(w, s.disk[0], digest) {
      T.GoodStaysGood(Machine(w), R.OwnPlaces, Suspects(w, s.disk[0]), s, acts, digest);
    }
  }

  /** Answers. An add that answered has good content where a lookup finds it, if its digest had no bad entry or a good one in place beside it. */
  lemma {:induction false} AnswersHold(w: World, s: R.State, acts: seq<R.Act>, id: nat)
    requires w.layout.Valid() && Lawful(w.codec) && Resting(w, s) && R.Run(Machine(w), s, acts).Some?
    requires var s' := R.Run(Machine(w), s, acts).value; id in s'.writers && s'.writers[id].stage.Done?
    requires var digest := w.codec.hash(R.Run(Machine(w), s, acts).value.writers[id].content);
             && w.layout.Shard(digest).Some?
             && (!HasBadEntry(w, s.disk[0], digest) || HasGoodInPlace(w, s.disk[0], digest))
    ensures var s' := R.Run(Machine(w), s, acts).value;
            HasGoodInPlace(w, Live(s'.disk), w.codec.hash(s'.writers[id].content))
  {
    var s' := R.Run(Machine(w), s, acts).value;
    var digest := w.codec.hash(s'.writers[id].content);
    R.ConfigIsSound(w.layout, w.codec, w.key);
    RestIsRest(w, s);
    HasGoodIs(w, s.disk[0], digest);
    HasGoodIs(w, Live(s'.disk), digest);
    assert R.DigestOf(Machine(w), s'.writers[id]) == digest;
    hide R.Run, R.ConfigOf, Suspects, HasGoodInPlace, HasGoodEntry, HasBadEntry, T.AtRest, R.Sound, R.HasGood, IsEntry;
    T.AnswerIsTrue(Machine(w), R.OwnPlaces, Suspects(w, s.disk[0]), s, acts, id);
  }

  /**
  Key changes. Over any number of them, cut off anywhere, a sealed file that one of the
  keys opened whole is there under its name in every state, flushed, and one of the keys
  opens it whole with the payload it had.
  */
  lemma {:induction false} PayloadsStay(layout: Layout, oldKey: Key, newKey: Key, s: K.State, acts: seq<K.Act>, at: nat, p: Path)
    requires layout.Valid() && oldKey != newKey
    requires |s.disk| == 1 && s.stage == K.Off && !s.clean
    requires forall q | q in s.disk[0] && K.IsSealed(layout, q) :: s.disk[0][q].flushed
    requires K.Run(K.RekeyOf(layout, oldKey, newKey), s, acts).Some?
    requires at < |K.Run(K.RekeyOf(layout, oldKey, newKey), s, acts).value.disk|
    requires p in s.disk[0] && K.IsSealed(layout, p)
    requires K.Whole(newKey, s.disk[0][p].bytes).Some? || K.Whole(oldKey, s.disk[0][p].bytes).Some?
    ensures var files, was := K.Run(K.RekeyOf(layout, oldKey, newKey), s, acts).value.disk[at], s.disk[0][p].bytes;
            var payload := if K.Whole(newKey, was).Some? then K.Whole(newKey, was) else K.Whole(oldKey, was);
            && p in files && files[p].flushed
            && (K.Whole(newKey, files[p].bytes) == payload || K.Whole(oldKey, files[p].bytes) == payload)
  {
    hide K.Run, K.Whole, K.IsSealed;
    K.RekeyIsSound(layout, oldKey, newKey);
    K.NothingIsLost(K.RekeyOf(layout, oldKey, newKey), s, acts, at, p);
  }
}
