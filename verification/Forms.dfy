/** What a stored file means: encoding, decoding and repacking between the three forms. */
module Forms {
  import opened Wrappers
  import Aead
  import opened Frames
  import opened Digests
  import opened Layouts

  type Bytes = Aead.Bytes
  type Key = Aead.Key

  datatype Error =
    | Io
    | Decoder
    | InvalidPrefix(prefix: string)
    | PrefixTooShort(prefix: string, depth: nat, needed: nat)
    | DigestTooShort(digest: Digest)
    | AlgorithmMismatch(digest: Digest)
    | KeyRequired
    | Unsealable
    | Damaged
    | FrameVersion(version: Aead.Cell)
    | TooManyChunks
    | Obstructed(path: Path)
    | QuarantineNamesTaken(path: Path)

  /** Whether trying again can help: everything but bytes no key of this store opens. */
  predicate Recoverable(error: Error) { !error.Unsealable? && !error.Damaged? }

  lemma RecoverableExactly(error: Error)
    ensures !Recoverable(error) <==> error == Error.Unsealable || error == Error.Damaged
  {
  }

  /** The two libraries underneath, as functions: a compressor with its decoder, and a hash. */
  datatype Codec = Codec(compress: Bytes -> Bytes, decompress: Bytes -> Option<Bytes>, hash: Bytes -> Digest)

  /** The one law that is relied on. Nothing is assumed of the hash. */
  ghost predicate Lawful(codec: Codec) {
    forall x :: codec.decompress(codec.compress(x)) == Some(x)
  }

  function CrateError(reason: Spoiled): Error {
    match reason
    case Unsealable => Error.Unsealable
    case Damaged => Error.Damaged
    case Version(version) => FrameVersion(version)
    case TooManyChunks => Error.TooManyChunks
    case Source(_, _) => Io
  }

  /** What a seal was put around: the stored bytes where there is none. */
  function Payload(key: Option<Key>, form: Form, bytes: Bytes): Result<Bytes, Error> {
    if !form.IsEncrypted() then Ok(bytes)
    else match key
      case None => Err(KeyRequired)
      case Some(k) =>
        match ReadAll(k, bytes).end
        case Clean => Ok(ReadAll(k, bytes).text)
        case Failed(reason) => Err(CrateError(reason))
  }

  function Decompress(codec: Codec, bytes: Bytes): Result<Bytes, Error> {
    match codec.decompress(bytes)
    case None => Err(Decoder)
    case Some(content) => Ok(content)
  }

  /** The content behind a file: unseal, then decompress. */
  function Decode(codec: Codec, key: Option<Key>, form: Form, bytes: Bytes): Result<Bytes, Error> {
    match Payload(key, form, bytes)
    case Err(error) => Err(error)
    case Ok(payload) => if form.IsCompressed() then Decompress(codec, payload) else Ok(payload)
  }

  /** Seal a payload if the form asks for it, under a nonce prefix drawn for this write. */
  function Wrap(key: Option<Key>, nonce: Bytes, form: Form, payload: Bytes): Result<Bytes, Error> {
    if !form.IsEncrypted() then Ok(payload)
    else match key
      case None => Err(KeyRequired)
      case Some(k) => if |payload| < LIMIT then Ok(Frame(k, nonce, payload)) else Err(Error.TooManyChunks)
  }

  /** Put content into a form: compress, then seal. */
  function Encode(codec: Codec, key: Option<Key>, nonce: Bytes, form: Form, content: Bytes): Result<Bytes, Error> {
    Wrap(key, nonce, form, if form.IsCompressed() then codec.compress(content) else content)
  }

  /** Rewrite a file from one form into another, changing only what differs. */
  function Repack(codec: Codec, key: Option<Key>, nonce: Bytes, from: Form, target: Form, bytes: Bytes): Result<Bytes, Error> {
    match Payload(key, from, bytes)
    case Err(error) => Err(error)
    case Ok(payload) =>
      var source := if from.IsCompressed() && !target.IsCompressed() then Decompress(codec, payload) else Ok(payload);
      match source
      case Err(error) => Err(error)
      case Ok(stream) =>
        Wrap(key, nonce, target, if !from.IsCompressed() && target.IsCompressed() then codec.compress(stream) else stream)
  }

  /** A file whose content hashes to the digest it is filed under. */
  predicate Good(codec: Codec, key: Option<Key>, form: Form, bytes: Bytes, digest: Digest) {
    var content := Decode(codec, key, form, bytes);
    content.Ok? && codec.hash(content.value) == digest
  }

  // -- each form, spelt out ----------------------------------------------

  /** What a seal comes off as: a frame of this key's, and nothing else, has a payload; any other stream has the reason it is none. */
  lemma {:induction false} PayloadExact(key: Option<Key>, bytes: Bytes, payload: Bytes)
    ensures Payload(key, Raw, bytes) == Payload(key, Zstd, bytes) == Ok(bytes)
    ensures Payload(key, Enc, bytes) == Ok(payload) <==> key.Some? && IsFrame(key.value, bytes, payload)
    ensures Payload(key, Enc, bytes) == Err(KeyRequired) <==> key.None?
    ensures key.Some? ==>
              var end, r := ReadAll(key.value, bytes).end, Payload(key, Enc, bytes);
              && (r == Err(Error.Unsealable) <==> end == Failed(Frames.Unsealable))
              && (r == Err(Error.Damaged) <==> end == Failed(Frames.Damaged))
              && (r == Err(Error.TooManyChunks) <==> end == Failed(Frames.TooManyChunks))
              && (forall v :: r == Err(FrameVersion(v)) <==> OtherVersion(bytes) && v == bytes[4])
    ensures Payload(key, Enc, bytes).Err? ==>
              var error := Payload(key, Enc, bytes).error;
              || error.KeyRequired? || error.Unsealable? || error.Damaged? || error.TooManyChunks? || error.FrameVersion?
  {
    if key.Some? {
      ExactImage(key.value, bytes, payload);
      EndingDiscipline(key.value, key.value, bytes);
      HeadDecides(key.value, bytes);
      hide ReadAll, IsFrame;
      assert ReadAll(key.value, bytes) == Reading(ReadAll(key.value, bytes).text, ReadAll(key.value, bytes).end);
    }
  }

  /**
  What a file decodes to, form by form: itself; what the decoder makes of it; or what it
  makes of the payload. The decoder's refusal is an error, and no other one is its.
  */
  lemma {:induction false} DecodeExact(codec: Codec, key: Option<Key>, bytes: Bytes, content: Bytes)
    ensures Decode(codec, key, Raw, bytes) == Ok(bytes)
    ensures Decode(codec, key, Zstd, bytes) == Ok(content) <==> codec.decompress(bytes) == Some(content)
    ensures Decode(codec, key, Zstd, bytes) == Err(Decoder) <==> codec.decompress(bytes) == None
    ensures Decode(codec, key, Enc, bytes) == Ok(content) <==>
            exists payload :: key.Some? && IsFrame(key.value, bytes, payload) && codec.decompress(payload) == Some(content)
    ensures Decode(codec, key, Enc, bytes) == Err(Decoder) <==>
            exists payload :: key.Some? && IsFrame(key.value, bytes, payload) && codec.decompress(payload) == None
    ensures Decode(codec, key, Enc, bytes).Err? && Decode(codec, key, Enc, bytes) != Err(Decoder) ==>
              Decode(codec, key, Enc, bytes) == Payload(key, Enc, bytes)
  {
    hide Payload, IsFrame;
    forall payload
      ensures Payload(key, Raw, bytes) == Payload(key, Zstd, bytes) == Ok(bytes)
      ensures Payload(key, Enc, bytes) == Ok(payload) <==> key.Some? && IsFrame(key.value, bytes, payload)
      ensures Payload(key, Enc, bytes) != Err(Decoder)
    {
      PayloadExact(key, bytes, payload);
    }
    if Payload(key, Enc, bytes).Ok? {
      var payload := Payload(key, Enc, bytes).value;
      assert IsFrame(key.value, bytes, payload);
      assert forall p | key.Some? && IsFrame(key.value, bytes, p) :: p == payload;
    }
  }

  /** What keeps a file from decoding is never a matter of names. */
  lemma DecodeErrors(codec: Codec, key: Option<Key>, form: Form, bytes: Bytes)
    ensures Decode(codec, key, form, bytes).Err? ==>
              var error := Decode(codec, key, form, bytes).error;
              error.Decoder? || error.KeyRequired? || error.Unsealable? || error.Damaged? || error.TooManyChunks? || error.FrameVersion? || error.Io?
  {
  }

  /** What is written, form by form: the content; compressed; or compressed and in a frame under the nonce drawn. */
  lemma {:induction false} EncodeExact(codec: Codec, key: Option<Key>, nonce: Bytes, content: Bytes)
    ensures Encode(codec, key, nonce, Raw, content) == Ok(content)
    ensures Encode(codec, key, nonce, Zstd, content) == Ok(codec.compress(content))
    ensures var r, payload := Encode(codec, key, nonce, Enc, content), codec.compress(content);
            if key.None? then r == Err(KeyRequired)
            else if |payload| >= 0xFFFF_FFFF_0000 then r == Err(Error.TooManyChunks)
            else r == Ok(Frame(key.value, nonce, payload))
  {
  }

  /**
  What a pass writes for each of the forms it takes and makes. A compressed payload is
  never unpacked on the way into a seal or out of it.
  */
  lemma {:induction false} RepackExact(codec: Codec, key: Option<Key>, nonce: Bytes, bytes: Bytes)
    ensures Repack(codec, key, nonce, Raw, Zstd, bytes) == Ok(codec.compress(bytes))
    ensures Repack(codec, key, nonce, Zstd, Raw, bytes) == Decode(codec, key, Zstd, bytes)
    ensures Repack(codec, key, nonce, Raw, Enc, bytes) == Encode(codec, key, nonce, Enc, bytes)
    ensures Repack(codec, key, nonce, Enc, Zstd, bytes) == Payload(key, Enc, bytes)
    ensures var r := Repack(codec, key, nonce, Zstd, Enc, bytes);
            if key.None? then r == Err(KeyRequired)
            else if |bytes| >= 0xFFFF_FFFF_0000 then r == Err(Error.TooManyChunks)
            else r == Ok(Frame(key.value, nonce, bytes))
  {
    hide Frame, ReadAll;
  }

  lemma {:induction false} WrapPayload(key: Option<Key>, nonce: Bytes, form: Form, payload: Bytes)
    requires |nonce| == PREFIX && Wrap(key, nonce, form, payload).Ok?
    ensures Payload(key, form, Wrap(key, nonce, form, payload).value) == Ok(payload)
  {
    if form.IsEncrypted() {
      RoundTrip(key.value, nonce, payload);
    }
  }

  /** What is written decodes to what was given, in every form. */
  lemma {:induction false} EncodeDecode(codec: Codec, key: Option<Key>, nonce: Bytes, form: Form, content: Bytes)
    requires Lawful(codec) && |nonce| == PREFIX && Encode(codec, key, nonce, form, content).Ok?
    ensures Decode(codec, key, form, Encode(codec, key, nonce, form, content).value) == Ok(content)
  {
    WrapPayload(key, nonce, form, if form.IsCompressed() then codec.compress(content) else content);
  }

  /**
  Repacking preserves meaning: whatever the old file decoded to, its refusal to decode
  included, the new one decodes to; and between two compressed forms the compressed
  stream passes through unchanged.
  */
  lemma {:induction false} RepackMeaning(codec: Codec, key: Option<Key>, nonce: Bytes, from: Form, target: Form, bytes: Bytes)
    requires Lawful(codec) && |nonce| == PREFIX && Repack(codec, key, nonce, from, target, bytes).Ok?
    ensures var out := Repack(codec, key, nonce, from, target, bytes).value;
            && Decode(codec, key, target, out) == Decode(codec, key, from, bytes)
            && (from.IsCompressed() && target.IsCompressed() ==>
                  Payload(key, target, out) == Payload(key, from, bytes))
  {
    var payload := Payload(key, from, bytes).value;
    var stream := if from.IsCompressed() && !target.IsCompressed() then Decompress(codec, payload).value else payload;
    WrapPayload(key, nonce, target, if !from.IsCompressed() && target.IsCompressed() then codec.compress(stream) else stream);
  }

  /** Repacking a good file gives a good file. */
  lemma {:induction false} RepackGood(codec: Codec, key: Option<Key>, nonce: Bytes, from: Form, target: Form,
                                      bytes: Bytes, digest: Digest)
    requires Lawful(codec) && |nonce| == PREFIX && Repack(codec, key, nonce, from, target, bytes).Ok?
    ensures Good(codec, key, target, Repack(codec, key, nonce, from, target, bytes).value, digest)
            == Good(codec, key, from, bytes, digest)
  {
    RepackMeaning(codec, key, nonce, from, target, bytes);
  }

  /** Whether a repack succeeds does not depend on the nonce drawn. */
  lemma RepackAnyNonce(codec: Codec, key: Option<Key>, nonce: Bytes, from: Form, target: Form, bytes: Bytes)
    ensures Repack(codec, key, nonce, from, target, bytes).Ok? <==> Repack(codec, key, [], from, target, bytes).Ok?
  {
  }

  /** What a repack needs to succeed on a good file: the key for a seal, and a payload the counter reaches over. */
  lemma {:induction false} RepackSucceeds(codec: Codec, key: Option<Key>, nonce: Bytes, from: Form, target: Form, bytes: Bytes)
    requires Decode(codec, key, from, bytes).Ok?
    ensures var content := Decode(codec, key, from, bytes).value;
            var payload := if from.IsCompressed() then Payload(key, from, bytes).value else codec.compress(content);
            Repack(codec, key, nonce, from, target, bytes).Ok? <==>
            (target.IsEncrypted() ==> key.Some? && |payload| < LIMIT)
  {
  }
}
