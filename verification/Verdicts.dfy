/**
What checking a file against its name comes to, and when it depends on what else was
checked before.

A first chunk that does not open may mean a wrong key or damage. A store therefore
remembers whether its key ever opened a chunk, and answers that one failure
differently before and after.
*/
module Verdicts {
  import opened Wrappers
  import Aead
  import opened Frames
  import opened Digests
  import opened Layouts
  import opened Forms

  /** The hash of what a file decodes to; a frame the decoder refuses is damage. */
  function ContentDigest(codec: Codec, key: Option<Key>, form: Form, bytes: Bytes): Result<Digest, Error> {
    match Decode(codec, key, form, bytes)
    case Ok(content) => Ok(codec.hash(content))
    case Err(Decoder) => Err(Error.Damaged)
    case Err(error) => Err(error)
  }

  function Verdict(codec: Codec, key: Option<Key>, proven: bool, form: Form, bytes: Bytes, digest: Digest): Result<bool, Error> {
    match ContentDigest(codec, key, form, bytes)
    case Ok(actual) => Ok(actual == digest)
    case Err(error) =>
      if error.Damaged? || (error.Unsealable? && proven) then Ok(false) else Err(error)
  }

  /** Whether reading this file proves the key: its first chunk opens. */
  predicate Proves(key: Option<Key>, form: Form, bytes: Bytes) {
    form.IsEncrypted() && key.Some? && FirstChunkOpens(key.value, bytes)
  }

  /** True is said of good files and of no others, whatever was proven before. */
  lemma TrueMeansGood(codec: Codec, key: Option<Key>, proven: bool, form: Form, bytes: Bytes, digest: Digest)
    ensures Verdict(codec, key, proven, form, bytes, digest) == Ok(true) <==> Good(codec, key, form, bytes, digest)
  {
  }

  /**
  Before the key is proven the answer is the proven one, except where it withholds a
  false; and that is exactly for a sealed file whose first chunk does not open.
  */
  lemma {:induction false} UnprovenVerdict(codec: Codec, key: Option<Key>, form: Form, bytes: Bytes, digest: Digest)
    ensures var before, after := Verdict(codec, key, false, form, bytes, digest), Verdict(codec, key, true, form, bytes, digest);
            && (before == after || (before == Err(Error.Unsealable) && after == Ok(false)))
            && (before != after <==>
                  && form.IsEncrypted() && key.Some? && !FirstChunkOpens(key.value, bytes)
                  && !OtherVersion(bytes))
  {
    if key.Some? {
      FirstChunk(key.value, key.value, bytes);
      HeadDecides(key.value, bytes);
    }
  }

  /** Another version is an error under every key, proven or not, and says which: never a false. */
  lemma {:induction false} VersionNeverFalse(codec: Codec, key: Key, proven: bool, bytes: Bytes, digest: Digest)
    requires |bytes| >= 24 && bytes[..4] == [Aead.Plain(0x69), Aead.Plain(0x6d), Aead.Plain(0x6d), Aead.Plain(0x72)]
    requires bytes[4] != Aead.Plain(1)
    ensures Verdict(codec, Some(key), proven, Enc, bytes, digest) == Err(FrameVersion(bytes[4]))
  {
    HeadDecides(key, bytes);
  }

  /**
  What each answer means. False is a file that decodes to something else, a frame the
  decoder refuses, a chunk behind the first that does not open, and, once the key is
  proven, a first one; everything else that keeps a file from decoding is the answer itself.
  */
  lemma {:induction false} VerdictExact(codec: Codec, key: Option<Key>, proven: bool, form: Form, bytes: Bytes, digest: Digest)
    ensures var verdict, decoded := Verdict(codec, key, proven, form, bytes, digest), Decode(codec, key, form, bytes);
            && (verdict == Ok(true) <==> decoded.Ok? && codec.hash(decoded.value) == digest)
            && (verdict == Ok(false) <==>
                  || (decoded.Ok? && codec.hash(decoded.value) != digest)
                  || decoded == Err(Decoder) || decoded == Err(Error.Damaged) || (decoded == Err(Error.Unsealable) && proven))
            && (verdict.Err? ==> decoded == Err(verdict.error))
  {
  }

  // -- a pass in some order -------------------------------------------------

  datatype Check = Check(form: Form, bytes: Bytes, digest: Digest)

  /** Verify one file after another with one handle. */
  function Pass(codec: Codec, key: Option<Key>, proven: bool, checks: seq<Check>): (answers: seq<Result<bool, Error>>)
    ensures |answers| == |checks|
    decreases |checks|
  {
    if checks == [] then []
    else
      var c := checks[0];
      [Verdict(codec, key, proven, c.form, c.bytes, c.digest)]
      + Pass(codec, key, proven || Proves(key, c.form, c.bytes), checks[1..])
  }

  /** Whether one of these proves the key. */
  predicate Proven(key: Option<Key>, checks: seq<Check>) {
    exists i | 0 <= i < |checks| :: Proves(key, checks[i].form, checks[i].bytes)
  }

  function VerdictOf(codec: Codec, key: Option<Key>, proven: bool, c: Check): Result<bool, Error> {
    Verdict(codec, key, proven, c.form, c.bytes, c.digest)
  }

  /** What the answer for one file depends on: whether the key was proven to begin with, or by a file before it. */
  lemma {:induction false} PassAnswers(codec: Codec, key: Option<Key>, proven: bool, checks: seq<Check>, i: nat)
    requires i < |checks|
    ensures Pass(codec, key, proven, checks)[i] == VerdictOf(codec, key, proven || Proven(key, checks[..i]), checks[i])
    decreases |checks|
  {
    if i > 0 {
      PassAnswers(codec, key, proven || Proves(key, checks[0].form, checks[0].bytes), checks[1..], i - 1);
      ProvenFirst(key, checks, i);
    } else {
      assert checks[..0] == [];
    }
  }

  lemma ProvenFirst(key: Option<Key>, checks: seq<Check>, i: nat)
    requires 0 < i < |checks|
    ensures Proven(key, checks[..i]) <==> Proves(key, checks[0].form, checks[0].bytes) || Proven(key, checks[1..][..i - 1])
  {
    var first, rest := checks[..i], checks[1..][..i - 1];
    assert forall j | 0 <= j < |rest| :: first[j + 1] == rest[j];
    assert forall j | 0 < j < |first| :: rest[j - 1] == first[j];
    assert first[0] == checks[0];
  }

  /**
  Order independence. With the key proven, the answer for a file is the same wherever
  in whatever pass it comes up. Unproven, it is that answer unless the file is met
  before anything proved the key, and it is then withheld exactly where it would have
  been a false over a first chunk that does not open.
  */
  lemma {:induction false} OrderIndependent(codec: Codec, key: Option<Key>, checks: seq<Check>, i: nat,
                                            others: seq<Check>, j: nat)
    requires i < |checks| && j < |others| && checks[i] == others[j]
    ensures Pass(codec, key, true, checks)[i] == Pass(codec, key, true, others)[j]
    ensures Pass(codec, key, false, checks)[i] != Pass(codec, key, true, others)[j] ==>
              Pass(codec, key, false, checks)[i] == Err(Error.Unsealable) && Pass(codec, key, true, others)[j] == Ok(false)
    ensures Pass(codec, key, false, checks)[i] != Pass(codec, key, true, others)[j] <==>
              && VerdictOf(codec, key, false, checks[i]) == Err(Error.Unsealable)
              && !Proven(key, checks[..i])
  {
    PassAnswers(codec, key, true, checks, i);
    PassAnswers(codec, key, true, others, j);
    PassAnswers(codec, key, false, checks, i);
    UnprovenVerdict(codec, key, checks[i].form, checks[i].bytes, checks[i].digest);
  }
}
