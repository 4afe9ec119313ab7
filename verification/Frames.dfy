/**
The frame format as two plain functions: what sealing a blob whole writes, and
what reading any stream whatsoever comes to. The stateful machines in `Cipher`
are proved against these.
*/
module Frames {
  import opened Wrappers
  import opened Aead

  const CHUNK: nat := 0x1_0000
  const SEALED_CHUNK: nat := 0x1_0010
  const PREFIX: nat := 19
  const MAGIC: Bytes := [Plain(0x69), Plain(0x6d), Plain(0x6d), Plain(0x72)]
  const VERSION: Cell := Plain(1)
  const HEADER: nat := 5
  const HEAD: nat := 24
  const U32_MAX: nat := 0xFFFF_FFFF

  /** One byte more than the longest blob the chunk counter can name. */
  const LIMIT: nat := 0xFFFF_FFFF_0000

  /** Why a reader ended. */
  datatype Spoiled =
    | Unsealable
    | Damaged
    | Version(version: Cell)
    | TooManyChunks
    | Source(kind: nat, message: string)

  datatype Ending = Clean | Failed(reason: Spoiled)

  /** All that reading a stream ever hands out, and how it ends. */
  datatype Reading = Reading(text: Bytes, end: Ending)

  /** Where the `i`-th chunk of a text begins. */
  function Start(i: nat): nat { i * 0x1_0000 }

  /** Where the `i`-th chunk of a sealed body begins. */
  function SealedStart(i: nat): nat { i * 0x1_0010 }

  /** How many full chunks a text has. */
  function FullOnes(text: Bytes): nat { |text| / 0x1_0000 }

  function NumberBytes(number: nat): (bytes: Bytes)
    requires number <= U32_MAX
    ensures |bytes| == 4
  {
    [Plain((number / 0x100_0000) as Byte),
     Plain((number / 0x1_0000 % 0x100) as Byte),
     Plain((number / 0x100 % 0x100) as Byte),
     Plain((number % 0x100) as Byte)]
  }

  /** A chunk's nonce: blob prefix, big-endian chunk number, end flag. */
  function ChunkNonce(prefix: Bytes, number: nat, last: bool): (nonce: Bytes)
    requires number <= U32_MAX
    ensures |nonce| == |prefix| + 5
  {
    prefix + NumberBytes(number) + [Plain(if last then 1 else 0)]
  }

  lemma ChunkNonceInjective(p: Bytes, n: nat, last: bool, p': Bytes, n': nat, last': bool)
    requires n <= U32_MAX && n' <= U32_MAX && |p| == |p'|
    requires ChunkNonce(p, n, last) == ChunkNonce(p', n', last')
    ensures p == p' && n == n' && last == last'
  {
    var a, b := ChunkNonce(p, n, last), ChunkNonce(p', n', last');
    assert p == a[..|p|] && p' == b[..|p|];
    assert NumberBytes(n) == a[|p|..|p| + 4] && NumberBytes(n') == b[|p|..|p| + 4];
    assert a[|p| + 4] == b[|p| + 4];
    assert forall i | 0 <= i < 4 :: NumberBytes(n)[i] == NumberBytes(n')[i];
    assert NumberBytes(n)[0].value == NumberBytes(n')[0].value;
    assert NumberBytes(n)[1].value == NumberBytes(n')[1].value;
    assert NumberBytes(n)[2].value == NumberBytes(n')[2].value;
    assert NumberBytes(n)[3].value == NumberBytes(n')[3].value;
    NumberFromBytes(n);
    NumberFromBytes(n');
  }

  /** Where a chunk's nonce keeps what: the number big-endian behind the prefix, then 1 for the last chunk and 0 for any other. */
  lemma ChunkNonceBytes(prefix: Bytes, number: nat, last: bool)
    requires |prefix| == 19 && number <= 0xFFFF_FFFF
    ensures var nonce := ChunkNonce(prefix, number, last);
            && |nonce| == 24 && nonce[..19] == prefix
            && nonce[19].Plain? && nonce[20].Plain? && nonce[21].Plain? && nonce[22].Plain?
            && number == ((nonce[19].value as int * 256 + nonce[20].value as int) * 256 + nonce[21].value as int) * 256
                         + nonce[22].value as int
            && nonce[23] == Plain(if last then 1 else 0)
  {
    NumberFromBytes(number);
    assert ChunkNonce(prefix, number, last)[19..23] == NumberBytes(number);
  }

  lemma NumberFromBytes(n: nat)
    requires n <= U32_MAX
    ensures n == (n / 0x100_0000) * 0x100_0000 + (n / 0x1_0000 % 0x100) * 0x1_0000
                 + (n / 0x100 % 0x100) * 0x100 + n % 0x100
  {
    assert n / 0x1_0000 / 0x100 == n / 0x100_0000;
    assert n / 0x100 / 0x100 == n / 0x1_0000;
  }

  /** Magic, version and nonce prefix: what lies ahead of the first chunk. */
  function Header(prefix: Bytes): (head: Bytes)
    ensures |head| == HEADER + |prefix|
  {
    MAGIC + [VERSION] + prefix
  }

  /** Whether the counter reaches to the end of `text` when its first chunk is `number`. */
  predicate Fits(number: nat, text: Bytes) {
    number + FullOnes(text) < U32_MAX
  }

  /** The chunks of `text` from `number` on: full ones, then one strictly shorter that ends it. */
  function Chunks(key: Key, prefix: Bytes, number: nat, text: Bytes): (sealed: Bytes)
    requires Fits(number, text)
    decreases |text|
  {
    if |text| < CHUNK then Enc(key, ChunkNonce(prefix, number, true), text)
    else
      Enc(key, ChunkNonce(prefix, number, false), text[..CHUNK])
      + Chunks(key, prefix, number + 1, text[CHUNK..])
  }

  /** A blob, sealed whole. */
  function Frame(key: Key, prefix: Bytes, text: Bytes): (sealed: Bytes)
    requires |text| < LIMIT
  {
    Header(prefix) + Chunks(key, prefix, 0, text)
  }

  /** How many bytes a sealed blob has. */
  lemma {:induction false} FrameLength(key: Key, prefix: Bytes, text: Bytes)
    requires |prefix| == 19 && |text| < 0xFFFF_FFFF_0000
    ensures |Frame(key, prefix, text)| == 24 + |text| + (|text| / 65536 + 1) * 16
  {
    ChunksLength(key, prefix, 0, text);
  }

  /** What every frame begins with: the letters `immr`, the version, the blob's nonce. */
  lemma FrameBegins(key: Key, prefix: Bytes, text: Bytes)
    requires |prefix| == 19 && |text| < 0xFFFF_FFFF_0000
    ensures var frame := Frame(key, prefix, text);
            |frame| >= 24 && frame[..5] == [Plain(0x69), Plain(0x6d), Plain(0x6d), Plain(0x72), Plain(1)] && frame[5..24] == prefix
  {
  }

  lemma {:induction false} ChunksLength(key: Key, prefix: Bytes, number: nat, text: Bytes)
    requires Fits(number, text)
    ensures |Chunks(key, prefix, number, text)| == |text| + (FullOnes(text) + 1) * TAG
    decreases |text|
  {
    if |text| >= CHUNK {
      ChunksLength(key, prefix, number + 1, text[CHUNK..]);
    }
  }

  /** The plaintext of the `i`-th chunk of a blob. */
  function Slice(text: Bytes, i: nat): (slice: Bytes)
    requires i <= FullOnes(text)
    ensures |slice| == CHUNK <==> i < FullOnes(text)
    ensures |slice| <= CHUNK
  {
    if i < FullOnes(text) then text[Start(i)..Start(i + 1)] else text[Start(i)..]
  }

  lemma SliceOfRest(text: Bytes, i: nat)
    requires |text| >= CHUNK && i <= FullOnes(text[CHUNK..])
    ensures FullOnes(text[CHUNK..]) == FullOnes(text) - 1
    ensures Slice(text[CHUNK..], i) == Slice(text, i + 1)
  {
    var rest := text[CHUNK..];
    assert Start(i + 1) == CHUNK + Start(i);
    if i < FullOnes(rest) {
      assert rest[Start(i)..Start(i + 1)] == text[Start(i + 1)..Start(i + 2)];
    } else {
      assert rest[Start(i)..] == text[Start(i + 1)..];
    }
  }

  /** Where each chunk lies in a frame, what it holds, and the nonce it went out under. */
  lemma {:induction false} ChunkAt(key: Key, prefix: Bytes, number: nat, text: Bytes, i: nat)
    requires Fits(number, text) && i <= FullOnes(text)
    ensures SealedStart(i) <= |Chunks(key, prefix, number, text)|
    ensures Enc(key, ChunkNonce(prefix, number + i, i == FullOnes(text)), Slice(text, i))
            <= Chunks(key, prefix, number, text)[SealedStart(i)..]
    decreases i
  {
    hide Enc, ChunkNonce;
    var whole := Chunks(key, prefix, number, text);
    if i == 0 {
      FirstOfChunks(key, prefix, number, text);
      assert whole[0..] == whole;
    } else {
      var first := Enc(key, ChunkNonce(prefix, number, false), text[..CHUNK]);
      var rest := text[CHUNK..];
      var tail := Chunks(key, prefix, number + 1, rest);
      SliceOfRest(text, i - 1);
      ChunkAt(key, prefix, number + 1, rest, i - 1);
      assert whole == first + tail && SealedStart(i) == |first| + SealedStart(i - 1);
      DropTwice(first, tail, SealedStart(i - 1));
    }
  }

  lemma FirstOfChunks(key: Key, prefix: Bytes, number: nat, text: Bytes)
    requires Fits(number, text)
    ensures Enc(key, ChunkNonce(prefix, number, FullOnes(text) == 0), Slice(text, 0)) <= Chunks(key, prefix, number, text)
  {
    assert Slice(text, 0) == if |text| < CHUNK then text else text[..CHUNK];
  }

  lemma DropTwice(a: Bytes, b: Bytes, i: nat)
    requires i <= |b|
    ensures (a + b)[|a| + i..] == b[i..]
  {
  }

  /** How reading ends at a chunk that does not open: the first one may be a wrong key's, no other can. */
  function FailureAt(number: nat): Spoiled {
    if number == 0 then Unsealable else Damaged
  }

  /** Reading `stream` from chunk `number` on. A short chunk is the last one. */
  function ReadBody(key: Key, prefix: Bytes, number: nat, stream: Bytes): (r: Reading)
    requires number <= U32_MAX
    decreases |stream|
  {
    var size := if |stream| < SEALED_CHUNK then |stream| else SEALED_CHUNK;
    var last := size < SEALED_CHUNK;
    if last && size < TAG then Reading([], Failed(FailureAt(number)))
    else match Dec(key, ChunkNonce(prefix, number, last), stream[..size])
      case None => Reading([], Failed(FailureAt(number)))
      case Some(text) =>
        if number == U32_MAX then Reading([], Failed(TooManyChunks))
        else if last then Reading(text, Clean)
        else Prepend(text, ReadBody(key, prefix, number + 1, stream[size..]))
  }

  function Prepend(text: Bytes, r: Reading): Reading {
    Reading(text + r.text, r.end)
  }

  /** Reading a whole stream: all that is handed out, and how it ends. */
  function ReadAll(key: Key, stream: Bytes): Reading {
    if |stream| < HEAD || stream[..4] != MAGIC then Reading([], Failed(Unsealable))
    else if stream[4] != VERSION then Reading([], Failed(Version(stream[4])))
    else ReadBody(key, stream[HEADER..HEAD], 0, stream[HEAD..])
  }

  /**
  What the first 24 bytes decide, and they alone, whatever the key: too few of them or
  other letters at the front is no frame; another version is named as it stands there.
  */
  lemma {:induction false} HeadDecides(key: Key, stream: Bytes)
    ensures var r, immr := ReadAll(key, stream), [Plain(0x69), Plain(0x6d), Plain(0x6d), Plain(0x72)];
            && (|stream| < 24 || stream[..4] != immr ==> r == Reading([], Failed(Unsealable)))
            && (|stream| >= 24 && stream[..4] == immr && stream[4] != Plain(1) ==> r == Reading([], Failed(Version(stream[4]))))
            && (|stream| >= 24 && stream[..4] == immr && stream[4] == Plain(1) ==> !(r.end.Failed? && r.end.reason.Version?))
  {
    if |stream| >= HEAD && stream[..4] == MAGIC && stream[4] == VERSION {
      BodyEnding(key, stream[HEADER..HEAD], 0, stream[HEAD..]);
    }
  }

  /** A frame by its first bytes, but of another version. */
  predicate OtherVersion(stream: Bytes) {
    |stream| >= 24 && stream[..4] == [Plain(0x69), Plain(0x6d), Plain(0x6d), Plain(0x72)] && stream[4] != Plain(1)
  }

  /** The `i`-th chunk of a body that begins with chunk `number` is the full one of its number and of this text. */
  ghost predicate FullAt(key: Key, prefix: Bytes, number: nat, body: Bytes, text: Bytes, i: nat)
    requires number + i <= 0xFFFF_FFFF && SealedStart(i + 1) <= |body| && Start(i + 1) <= |text|
  {
    body[SealedStart(i)..SealedStart(i + 1)] == Enc(key, ChunkNonce(prefix, number + i, false), text[Start(i)..Start(i + 1)])
  }

  /** The first `n` chunks of a body are full ones and open, to this text. */
  ghost predicate OpensUpTo(key: Key, prefix: Bytes, number: nat, body: Bytes, text: Bytes, n: nat) {
    && number + n <= 0xFFFF_FFFF && |text| == Start(n) && |body| >= SealedStart(n)
    && forall i | 0 <= i < n :: FullAt(key, prefix, number, body, text, i)
  }

  /** Whether what a body begins with, a full chunk or all there is, is a chunk of this number. */
  ghost predicate BeginsWith(key: Key, prefix: Bytes, number: nat, body: Bytes)
    requires number <= 0xFFFF_FFFF
  {
    if |body| < 0x1_0010 then exists text :: body == Enc(key, ChunkNonce(prefix, number, true), text)
    else exists text :: body[..0x1_0010] == Enc(key, ChunkNonce(prefix, number, false), text)
  }

  /** Why reading stops at a chunk: the first one does not open, a later one does not, or the counter is at its end. */
  ghost predicate StopsFor(key: Key, prefix: Bytes, number: nat, body: Bytes, reason: Spoiled)
    requires number <= 0xFFFF_FFFF
  {
    if BeginsWith(key, prefix, number, body) then number == 0xFFFF_FFFF && reason == TooManyChunks
    else reason == if number == 0 then Unsealable else Damaged
  }

  ghost predicate StopsAt(key: Key, prefix: Bytes, number: nat, body: Bytes, text: Bytes, reason: Spoiled, n: nat) {
    OpensUpTo(key, prefix, number, body, text, n) && StopsFor(key, prefix, number + n, body[SealedStart(n)..], reason)
  }

  lemma {:induction false} BeginsAsRead(key: Key, prefix: Bytes, number: nat, body: Bytes)
    requires number <= U32_MAX
    ensures var size := if |body| < SEALED_CHUNK then |body| else SEALED_CHUNK;
            BeginsWith(key, prefix, number, body)
            <==> !(size < TAG) && Dec(key, ChunkNonce(prefix, number, size < SEALED_CHUNK), body[..size]).Some?
  {
    var size := if |body| < SEALED_CHUNK then |body| else SEALED_CHUNK;
    var nonce := ChunkNonce(prefix, number, size < SEALED_CHUNK);
    assert body[..size] == if |body| < 0x1_0010 then body else body[..0x1_0010];
    forall text
      ensures Dec(key, nonce, body[..size]) == Some(text) <==> body[..size] == Enc(key, nonce, text)
    {
      DecExact(key, nonce, body[..size], text);
    }
  }

  /** One chunk further into the body. */
  lemma FullOnward(key: Key, prefix: Bytes, number: nat, body: Bytes, text: Bytes, i: nat)
    requires number + i + 1 <= U32_MAX && SealedStart(i + 2) <= |body| && Start(i + 2) <= |text|
    ensures FullAt(key, prefix, number + 1, body[SEALED_CHUNK..], text[CHUNK..], i) == FullAt(key, prefix, number, body, text, i + 1)
  {
    hide Enc, ChunkNonce;
    var rest, more := body[SEALED_CHUNK..], text[CHUNK..];
    assert rest[SealedStart(i)..SealedStart(i + 1)] == body[SealedStart(i + 1)..SealedStart(i + 2)];
    assert more[Start(i)..Start(i + 1)] == text[Start(i + 1)..Start(i + 2)];
  }

  lemma {:induction false} OpensOnward(key: Key, prefix: Bytes, number: nat, body: Bytes, text: Bytes, n: nat)
    requires n > 0 && |body| >= SEALED_CHUNK && |text| >= CHUNK && number <= U32_MAX
    ensures OpensUpTo(key, prefix, number, body, text, n) <==>
            && body[..SEALED_CHUNK] == Enc(key, ChunkNonce(prefix, number, false), text[..CHUNK])
            && OpensUpTo(key, prefix, number + 1, body[SEALED_CHUNK..], text[CHUNK..], n - 1)
  {
    var rest, more, next := body[SEALED_CHUNK..], text[CHUNK..], number + 1;
    assert body[SealedStart(0)..SealedStart(1)] == body[..SEALED_CHUNK] && text[Start(0)..Start(1)] == text[..CHUNK];
    assert FullAt(key, prefix, number, body, text, 0) <==> body[..SEALED_CHUNK] == Enc(key, ChunkNonce(prefix, number, false), text[..CHUNK]);
    hide FullAt, Enc, ChunkNonce;
    if number + n <= U32_MAX && |text| == Start(n) && |body| >= SealedStart(n) {
      forall i | 0 <= i < n - 1
        ensures FullAt(key, prefix, next, rest, more, i) == FullAt(key, prefix, number, body, text, i + 1)
      {
        FullOnward(key, prefix, number, body, text, i);
      }
      if OpensUpTo(key, prefix, number, body, text, n) {
        forall i | 0 <= i < n - 1
          ensures FullAt(key, prefix, next, rest, more, i)
        {
          assert FullAt(key, prefix, number, body, text, i + 1);
        }
      }
      if OpensUpTo(key, prefix, next, rest, more, n - 1) && FullAt(key, prefix, number, body, text, 0) {
        forall i | 0 <= i < n
          ensures FullAt(key, prefix, number, body, text, i)
        {
          assert i > 0 ==> FullAt(key, prefix, next, rest, more, i - 1);
        }
      }
    }
  }

  lemma {:induction false} StopsOnward(key: Key, prefix: Bytes, number: nat, body: Bytes, text: Bytes, reason: Spoiled, n: nat)
    requires n > 0 && |body| >= SEALED_CHUNK && |text| >= CHUNK && number < U32_MAX
    ensures StopsAt(key, prefix, number, body, text, reason, n) <==>
            && body[..SEALED_CHUNK] == Enc(key, ChunkNonce(prefix, number, false), text[..CHUNK])
            && StopsAt(key, prefix, number + 1, body[SEALED_CHUNK..], text[CHUNK..], reason, n - 1)
  {
    OpensOnward(key, prefix, number, body, text, n);
    hide StopsFor, Enc, ChunkNonce, FullAt;
    if |body| >= SealedStart(n) {
      assert body[SEALED_CHUNK..][SealedStart(n - 1)..] == body[SealedStart(n)..];
      assert number + n == number + 1 + (n - 1);
    }
  }

  /** A full chunk that opens, and what reading comes to behind it. */
  lemma {:induction false} ReadOnward(key: Key, prefix: Bytes, number: nat, body: Bytes, text: Bytes, reason: Spoiled)
    requires number < U32_MAX && |body| >= SEALED_CHUNK && BeginsWith(key, prefix, number, body)
    ensures ReadBody(key, prefix, number, body) == Reading(text, Failed(reason)) <==>
            && |text| >= CHUNK && body[..SEALED_CHUNK] == Enc(key, ChunkNonce(prefix, number, false), text[..CHUNK])
            && ReadBody(key, prefix, number + 1, body[SEALED_CHUNK..]) == Reading(text[CHUNK..], Failed(reason))
  {
    hide Enc, ChunkNonce, Dec;
    var nonce, rest := ChunkNonce(prefix, number, false), ReadBody(key, prefix, number + 1, body[SEALED_CHUNK..]);
    var first: Bytes :| body[..SEALED_CHUNK] == Enc(key, nonce, first);
    DecExact(key, nonce, body[..SEALED_CHUNK], first);
    assert ReadBody(key, prefix, number, body) == Reading(first + rest.text, rest.end);
    if |text| >= CHUNK {
      DecExact(key, nonce, body[..SEALED_CHUNK], text[..CHUNK]);
      assert text == text[..CHUNK] + text[CHUNK..];
    }
    assert (first + rest.text)[..CHUNK] == first && (first + rest.text)[CHUNK..] == rest.text;
  }

  lemma {:induction false} ReadStops(key: Key, prefix: Bytes, number: nat, body: Bytes, text: Bytes, reason: Spoiled) returns (n: nat)
    requires number <= U32_MAX && ReadBody(key, prefix, number, body) == Reading(text, Failed(reason))
    ensures StopsAt(key, prefix, number, body, text, reason, n)
    decreases |body|
  {
    hide ReadBody, Enc, ChunkNonce, OpensUpTo, StopsFor, BeginsWith;
    if |body| >= SEALED_CHUNK && number < U32_MAX && BeginsWith(key, prefix, number, body) {
      ReadOnward(key, prefix, number, body, text, reason);
      var m := ReadStops(key, prefix, number + 1, body[SEALED_CHUNK..], text[CHUNK..], reason);
      n := m + 1;
      StopsOnward(key, prefix, number, body, text, reason, n);
    } else {
      ReadHere(key, prefix, number, body, text, reason);
      StopsHere(key, prefix, number, body, text, reason);
      n :| StopsAt(key, prefix, number, body, text, reason, n);
    }
  }

  lemma {:induction false} StopsRead(key: Key, prefix: Bytes, number: nat, body: Bytes, text: Bytes, reason: Spoiled, n: nat)
    requires number <= U32_MAX && StopsAt(key, prefix, number, body, text, reason, n)
    ensures ReadBody(key, prefix, number, body) == Reading(text, Failed(reason))
    decreases |body|
  {
    hide ReadBody, Enc, ChunkNonce, OpensUpTo, StopsFor, BeginsWith;
    if |body| >= SEALED_CHUNK && number < U32_MAX && BeginsWith(key, prefix, number, body) {
      StopsLater(key, prefix, number, body, text, reason, n);
      StopsOnward(key, prefix, number, body, text, reason, n);
      StopsRead(key, prefix, number + 1, body[SEALED_CHUNK..], text[CHUNK..], reason, n - 1);
      ReadOnward(key, prefix, number, body, text, reason);
    } else {
      StopsHere(key, prefix, number, body, text, reason);
      ReadHere(key, prefix, number, body, text, reason);
    }
  }

  lemma StopsLater(key: Key, prefix: Bytes, number: nat, body: Bytes, text: Bytes, reason: Spoiled, n: nat)
    requires number < U32_MAX && BeginsWith(key, prefix, number, body) && StopsAt(key, prefix, number, body, text, reason, n)
    ensures n > 0 && |text| >= CHUNK
  {
    assert body[SealedStart(0)..] == body;
  }

  lemma {:induction false} ReadHere(key: Key, prefix: Bytes, number: nat, body: Bytes, text: Bytes, reason: Spoiled)
    requires number <= U32_MAX
    requires BeginsWith(key, prefix, number, body) ==> |body| < SEALED_CHUNK || number == U32_MAX
    ensures ReadBody(key, prefix, number, body) == Reading(text, Failed(reason)) <==> text == [] && StopsFor(key, prefix, number, body, reason)
  {
    BeginsAsRead(key, prefix, number, body);
    hide Enc, ChunkNonce, Dec, BeginsWith;
  }

  lemma {:induction false} StopsHere(key: Key, prefix: Bytes, number: nat, body: Bytes, text: Bytes, reason: Spoiled)
    requires number <= U32_MAX
    requires BeginsWith(key, prefix, number, body) ==> |body| < SEALED_CHUNK || number == U32_MAX
    ensures (exists n :: StopsAt(key, prefix, number, body, text, reason, n))
            <==> text == [] && StopsFor(key, prefix, number, body, reason)
  {
    assert body[SealedStart(0)..] == body;
    if text == [] && StopsFor(key, prefix, number, body, reason) {
      assert StopsAt(key, prefix, number, body, text, reason, 0);
    }
    if n :| StopsAt(key, prefix, number, body, text, reason, n) {
      if n > 0 {
        OpensOnward(key, prefix, number, body, text, n);
      }
    }
  }

  /**
  Every reading that fails in the chunks, told from the bytes alone: so many full chunks
  open one after another, what comes next is no chunk of the next number, and the reason
  is Unsealable for the first and Damaged for any other; or it is one, of the last
  number there is.
  */
  lemma {:induction false} StopsExactly(key: Key, stream: Bytes, text: Bytes, reason: Spoiled)
    requires |stream| >= 24 && stream[..5] == [Plain(0x69), Plain(0x6d), Plain(0x6d), Plain(0x72), Plain(1)]
    ensures ReadAll(key, stream) == Reading(text, Failed(reason))
            <==> exists n :: StopsAt(key, stream[5..24], 0, stream[24..], text, reason, n)
  {
    assert stream[..4] == stream[..5][..4] && stream[4] == stream[..5][4];
    if ReadAll(key, stream) == Reading(text, Failed(reason)) {
      var n := ReadStops(key, stream[5..24], 0, stream[24..], text, reason);
    }
    if n :| StopsAt(key, stream[5..24], 0, stream[24..], text, reason, n) {
      StopsRead(key, stream[5..24], 0, stream[24..], text, reason, n);
    }
  }

  lemma {:induction false} ReadsBackChunks(key: Key, prefix: Bytes, number: nat, text: Bytes)
    requires Fits(number, text)
    ensures ReadBody(key, prefix, number, Chunks(key, prefix, number, text)) == Reading(text, Clean)
    decreases |text|
  {
    var stream := Chunks(key, prefix, number, text);
    if |text| < CHUNK {
      DecExact(key, ChunkNonce(prefix, number, true), stream, text);
      assert stream[..|stream|] == stream;
    } else {
      var first := Enc(key, ChunkNonce(prefix, number, false), text[..CHUNK]);
      var rest := Chunks(key, prefix, number + 1, text[CHUNK..]);
      assert stream[..SEALED_CHUNK] == first && stream[SEALED_CHUNK..] == rest;
      DecExact(key, ChunkNonce(prefix, number, false), first, text[..CHUNK]);
      ReadsBackChunks(key, prefix, number + 1, text[CHUNK..]);
      assert text[..CHUNK] + text[CHUNK..] == text;
    }
  }

  lemma {:induction false} OnlyChunksEndCleanly(key: Key, prefix: Bytes, number: nat, stream: Bytes)
    requires number <= U32_MAX
    requires ReadBody(key, prefix, number, stream).end == Clean
    ensures var text := ReadBody(key, prefix, number, stream).text;
            Fits(number, text) && stream == Chunks(key, prefix, number, text)
    decreases |stream|
  {
    var text := ReadBody(key, prefix, number, stream).text;
    if |stream| < SEALED_CHUNK {
      assert stream[..|stream|] == stream;
      DecExact(key, ChunkNonce(prefix, number, true), stream, text);
    } else {
      var first := Dec(key, ChunkNonce(prefix, number, false), stream[..SEALED_CHUNK]).value;
      DecExact(key, ChunkNonce(prefix, number, false), stream[..SEALED_CHUNK], first);
      OnlyChunksEndCleanly(key, prefix, number + 1, stream[SEALED_CHUNK..]);
      assert text[..CHUNK] == first;
      assert text[CHUNK..] == ReadBody(key, prefix, number + 1, stream[SEALED_CHUNK..]).text;
      assert stream == stream[..SEALED_CHUNK] + stream[SEALED_CHUNK..];
    }
  }

  ghost predicate IsFrame(key: Key, stream: Bytes, text: Bytes) {
    && |text| < LIMIT
    && exists prefix: Bytes :: |prefix| == PREFIX && stream == Frame(key, prefix, text)
  }

  /**
  The reader accepts exactly what the sealer writes: a stream read under a key ends
  cleanly with a text if and only if it is that text's frame under that key.
  */
  lemma {:induction false} ExactImage(key: Key, stream: Bytes, text: Bytes)
    ensures ReadAll(key, stream) == Reading(text, Clean) <==> IsFrame(key, stream, text)
  {
    if ReadAll(key, stream) == Reading(text, Clean) {
      var prefix := stream[HEADER..HEAD];
      OnlyChunksEndCleanly(key, prefix, 0, stream[HEAD..]);
      assert stream == stream[..4] + [stream[4]] + stream[HEADER..HEAD] + stream[HEAD..];
      assert stream == Frame(key, prefix, text);
    }
    if IsFrame(key, stream, text) {
      var prefix: Bytes :| |prefix| == PREFIX && stream == Frame(key, prefix, text);
      RoundTrip(key, prefix, text);
    }
  }

  /** What was sealed opens, whatever the nonce was. */
  lemma {:induction false} RoundTrip(key: Key, prefix: Bytes, text: Bytes)
    requires |prefix| == PREFIX && |text| < LIMIT
    ensures ReadAll(key, Frame(key, prefix, text)) == Reading(text, Clean)
  {
    var stream := Frame(key, prefix, text);
    assert stream[..4] == MAGIC && stream[4] == VERSION;
    assert stream[HEADER..HEAD] == prefix && stream[HEAD..] == Chunks(key, prefix, 0, text);
    ReadsBackChunks(key, prefix, 0, text);
  }

  /**
  No frame is a strict prefix of another, so a frame cut short and a frame with
  anything after it are both refused.
  */
  lemma {:induction false} PrefixFree(key: Key, stream: Bytes, longer: Bytes)
    requires ReadAll(key, stream).end == Clean && ReadAll(key, longer).end == Clean
    requires stream <= longer
    ensures stream == longer
  {
    var prefix := stream[HEADER..HEAD];
    assert prefix == longer[HEADER..HEAD];
    BodyPrefixFree(key, prefix, 0, stream[HEAD..], longer[HEAD..]);
    assert stream == stream[..HEAD] + stream[HEAD..] && longer == longer[..HEAD] + longer[HEAD..];
  }

  lemma {:induction false} BodyPrefixFree(key: Key, prefix: Bytes, number: nat, stream: Bytes, longer: Bytes)
    requires number <= U32_MAX && stream <= longer
    requires ReadBody(key, prefix, number, stream).end == Clean
    requires ReadBody(key, prefix, number, longer).end == Clean
    ensures stream == longer
    decreases |stream|
  {
    if |stream| < SEALED_CHUNK {
      assert stream[..|stream|] == stream;
      var nonce := ChunkNonce(prefix, number, true);
      DecExact(key, nonce, stream, Dec(key, nonce, stream).value);
      assert stream[0] == longer[0];
      var size := if |longer| < SEALED_CHUNK then |longer| else SEALED_CHUNK;
      var nonce' := ChunkNonce(prefix, number, size < SEALED_CHUNK);
      DecExact(key, nonce', longer[..size], Dec(key, nonce', longer[..size]).value);
      assert longer[..size][0] == longer[0];
      ChunkNonceInjective(prefix, number, true, prefix, number, size < SEALED_CHUNK);
      assert longer[..|longer|] == longer;
    } else {
      assert stream[..SEALED_CHUNK] == longer[..SEALED_CHUNK];
      BodyPrefixFree(key, prefix, number + 1, stream[SEALED_CHUNK..], longer[SEALED_CHUNK..]);
      assert stream == stream[..SEALED_CHUNK] + stream[SEALED_CHUNK..];
      assert longer == longer[..SEALED_CHUNK] + longer[SEALED_CHUNK..];
    }
  }

  /** A cell that sealing under this key and prefix made. */
  predicate Ours(key: Key, prefix: Bytes, c: Cell) {
    c.Sealed? && c.key == key && prefix <= c.nonce
  }

  /** Every sealed cell of this key and prefix in `stream` came from sealing `text`. */
  ghost predicate OnlyBlob(key: Key, prefix: Bytes, text: Bytes, stream: Bytes)
    requires |text| < LIMIT
  {
    forall c | c in stream && Ours(key, prefix, c) :: c in Chunks(key, prefix, 0, text)
  }

  /** A cell that says which chunk of a blob it came from. */
  ghost predicate OfChunk(prefix: Bytes, text: Bytes, c: Cell, i: nat) {
    && i <= FullOnes(text) && i <= U32_MAX && c.Sealed?
    && c.nonce == ChunkNonce(prefix, i, i == FullOnes(text)) && c.text == Slice(text, i)
  }

  /** Every sealed cell of this key and prefix in `stream` is one of some chunk of the blob. */
  ghost predicate Genuine(key: Key, prefix: Bytes, text: Bytes, stream: Bytes) {
    forall c {:trigger Ours(key, prefix, c)} | c in stream && Ours(key, prefix, c) ::
      exists i :: OfChunk(prefix, text, c, i)
  }

  lemma {:induction false} CellOfChunks(key: Key, prefix: Bytes, number: nat, text: Bytes, c: Cell) returns (i: nat)
    requires Fits(number, text) && c in Chunks(key, prefix, number, text)
    ensures i <= FullOnes(text) && c.Sealed?
    ensures c.nonce == ChunkNonce(prefix, number + i, i == FullOnes(text)) && c.text == Slice(text, i)
    decreases |text|
  {
    if |text| < CHUNK {
      i := 0;
      assert Slice(text, 0) == text;
      InEnc(key, ChunkNonce(prefix, number, true), text, c);
    } else {
      var first := Enc(key, ChunkNonce(prefix, number, false), text[..CHUNK]);
      if c in first {
        i := 0;
        assert Slice(text, 0) == text[..CHUNK];
        InEnc(key, ChunkNonce(prefix, number, false), text[..CHUNK], c);
      } else {
        var j := CellOfChunks(key, prefix, number + 1, text[CHUNK..], c);
        i := j + 1;
        SliceOfRest(text, j);
      }
    }
  }

  lemma InEnc(key: Key, nonce: Bytes, text: Bytes, c: Cell)
    requires c in Enc(key, nonce, text)
    ensures c.Sealed? && c.nonce == nonce && c.text == text
  {
  }

  lemma {:induction false} OnlyBlobGenuine(key: Key, prefix: Bytes, text: Bytes, stream: Bytes)
    requires |text| < LIMIT && OnlyBlob(key, prefix, text, stream)
    ensures Genuine(key, prefix, text, stream)
  {
    forall c | c in stream && Ours(key, prefix, c)
      ensures exists i :: OfChunk(prefix, text, c, i)
    {
      var i := CellOfChunks(key, prefix, 0, text, c);
      assert OfChunk(prefix, text, c, i);
    }
  }

  /** A chunk that opens at its place is the blob's own chunk of that number. */
  lemma {:induction false} OpenedChunk(key: Key, prefix: Bytes, number: nat, last: bool, text: Bytes, all: Bytes, chunk: Bytes)
    requires number <= U32_MAX && Genuine(key, prefix, text, all)
    requires chunk != [] && chunk[0] in all && Dec(key, ChunkNonce(prefix, number, last), chunk).Some?
    ensures number <= FullOnes(text) && last == (number == FullOnes(text))
    ensures chunk == Enc(key, ChunkNonce(prefix, number, last), Slice(text, number))
    ensures Dec(key, ChunkNonce(prefix, number, last), chunk) == Some(Slice(text, number))
  {
    var nonce := ChunkNonce(prefix, number, last);
    var plain := Dec(key, nonce, chunk).value;
    DecExact(key, nonce, chunk, plain);
    var c := chunk[0];
    assert Ours(key, prefix, c);
    var i :| OfChunk(prefix, text, c, i);
    ChunkNonceInjective(prefix, number, last, prefix, i, i == FullOnes(text));
  }

  /**
  Prefix integrity. Fed any stream at all, as long as only one blob was ever sealed
  under the key and the stream's nonce prefix, what comes out is a prefix of that
  blob, and a clean end means the stream is that blob's frame, whole. Chunks that
  were swapped, dropped, repeated or cut are all such streams.
  */
  lemma {:induction false} PrefixIntegrity(key: Key, stream: Bytes, text: Bytes)
    requires |text| < LIMIT && |stream| >= HEAD
    requires OnlyBlob(key, stream[HEADER..HEAD], text, stream[HEAD..])
    ensures ReadAll(key, stream).text <= text
    ensures ReadAll(key, stream).end == Clean <==> stream == Frame(key, stream[HEADER..HEAD], text)
  {
    var prefix := stream[HEADER..HEAD];
    if stream[..4] == MAGIC && stream[4] == VERSION {
      var body := stream[HEAD..];
      OnlyBlobGenuine(key, prefix, text, body);
      BodyIntegrity(key, prefix, 0, text, body, 0);
      assert body[0..] == body && text[Start(0)..] == text;
      assert stream == stream[..4] + [stream[4]] + prefix + stream[HEAD..];
    }
    if stream == Frame(key, prefix, text) {
      RoundTrip(key, prefix, text);
    }
  }

  /**
  So a frame that is tampered with behind its head, its chunks or single bytes of them
  swapped, dropped, repeated, cut or written over with plain bytes, hands out a beginning
  of its text, and ends cleanly only if nothing was changed.
  */
  lemma {:induction false} TamperedFrame(key: Key, prefix: Bytes, text: Bytes, body: Bytes)
    requires |prefix| == 19 && |text| < 0xFFFF_FFFF_0000 && (forall c | c in prefix :: c.Plain?)
    requires forall c | c in body :: c.Plain? || c in Frame(key, prefix, text)
    ensures var frame, stream := Frame(key, prefix, text), Frame(key, prefix, text)[..24] + body;
            ReadAll(key, stream).text <= text && (ReadAll(key, stream).end == Clean <==> stream == frame)
  {
    var frame := Frame(key, prefix, text);
    var stream := frame[..24] + body;
    FrameBegins(key, prefix, text);
    assert stream[HEADER..HEAD] == prefix && stream[HEAD..] == body;
    assert frame == frame[..24] + Chunks(key, prefix, 0, text);
    forall c | c in body && Ours(key, prefix, c)
      ensures c in Chunks(key, prefix, 0, text)
    {
      assert c in frame;
      if c in frame[..24] {
        HeadIsPlain(key, prefix, text, c);
      }
    }
    PrefixIntegrity(key, stream, text);
  }

  lemma HeadIsPlain(key: Key, prefix: Bytes, text: Bytes, c: Cell)
    requires |prefix| == 19 && |text| < LIMIT && (forall c | c in prefix :: c.Plain?) && c in Frame(key, prefix, text)[..24]
    ensures c.Plain?
  {
    assert Frame(key, prefix, text)[..24] == Header(prefix);
  }

  /** What reading came to so far, from a chunk boundary of the blob on. */
  ghost predicate Intact(key: Key, prefix: Bytes, number: nat, text: Bytes, stream: Bytes)
    requires |text| < LIMIT && number <= FullOnes(text)
  {
    var r := ReadBody(key, prefix, number, stream);
    && r.text <= text[Start(number)..]
    && (r.end == Clean ==> stream == Chunks(key, prefix, number, text[Start(number)..]))
  }

  lemma {:induction false} BodyIntegrity(key: Key, prefix: Bytes, number: nat, text: Bytes, all: Bytes, at: nat)
    requires |text| < LIMIT && number <= FullOnes(text) && at <= |all| && Genuine(key, prefix, text, all)
    ensures Intact(key, prefix, number, text, all[at..])
    decreases |all| - at
  {
    var stream := all[at..];
    var last := |stream| < SEALED_CHUNK;
    var size := if last then |stream| else SEALED_CHUNK;
    var chunk, rest := stream[..size], stream[size..];
    assert stream == chunk + rest && rest == all[at + size..];
    if Dec(key, ChunkNonce(prefix, number, last), chunk).None? {
      IntactRefused(key, prefix, number, text, stream);
    } else {
      assert chunk[0] == all[at];
      OpenedChunk(key, prefix, number, last, text, all, chunk);
      if last {
        IntactLast(key, prefix, number, text, chunk);
      } else {
        BodyIntegrity(key, prefix, number + 1, text, all, at + size);
        IntactStep(key, prefix, number, text, chunk, rest);
      }
    }
  }

  lemma {:induction false} IntactRefused(key: Key, prefix: Bytes, number: nat, text: Bytes, stream: Bytes)
    requires |text| < LIMIT && number <= FullOnes(text)
    requires var size := if |stream| < SEALED_CHUNK then |stream| else SEALED_CHUNK;
             Dec(key, ChunkNonce(prefix, number, size < SEALED_CHUNK), stream[..size]).None?
    ensures Intact(key, prefix, number, text, stream)
  {
  }

  lemma {:induction false} IntactLast(key: Key, prefix: Bytes, number: nat, text: Bytes, chunk: Bytes)
    requires |text| < LIMIT && number == FullOnes(text)
    requires chunk == Enc(key, ChunkNonce(prefix, number, true), Slice(text, number))
    ensures Intact(key, prefix, number, text, chunk)
  {
    assert chunk[..|chunk|] == chunk;
    DecExact(key, ChunkNonce(prefix, number, true), chunk, Slice(text, number));
  }

  lemma {:induction false} IntactStep(key: Key, prefix: Bytes, number: nat, text: Bytes, chunk: Bytes, rest: Bytes)
    requires |text| < LIMIT && number < FullOnes(text)
    requires chunk == Enc(key, ChunkNonce(prefix, number, false), Slice(text, number))
    requires Intact(key, prefix, number + 1, text, rest)
    ensures Intact(key, prefix, number, text, chunk + rest)
  {
    var stream := chunk + rest;
    assert stream[..SEALED_CHUNK] == chunk && stream[SEALED_CHUNK..] == rest;
    DecExact(key, ChunkNonce(prefix, number, false), chunk, Slice(text, number));
    TextFrom(text, number);
    PrefixBehind(Slice(text, number), ReadBody(key, prefix, number + 1, rest).text, text[Start(number + 1)..]);
  }

  /** What is left of a text at a chunk boundary is that chunk's slice and what follows it. */
  lemma TextFrom(text: Bytes, number: nat)
    requires number < FullOnes(text)
    ensures var rest := text[Start(number)..];
            && rest == Slice(text, number) + text[Start(number + 1)..]
            && |rest| >= CHUNK && rest[..CHUNK] == Slice(text, number) && rest[CHUNK..] == text[Start(number + 1)..]
  {
  }

  lemma PrefixBehind(head: Bytes, a: Bytes, b: Bytes)
    requires a <= b
    ensures head + a <= head + b
  {
  }

  /**
  How a stream can end. Nothing is handed out before an Unsealable or a Version, at
  least one whole chunk was before a Damaged, and a Version is the same for every key.
  */
  lemma {:induction false} EndingDiscipline(key: Key, key': Key, stream: Bytes)
    ensures var r := ReadAll(key, stream);
            && (r.end == Failed(Unsealable) ==> r.text == [])
            && (r.end == Failed(Damaged) || r.end == Failed(TooManyChunks) ==> |r.text| >= CHUNK)
            && (r.end.Failed? && r.end.reason.Version? ==> r.text == [] && ReadAll(key', stream) == r)
            && !(r.end.Failed? && r.end.reason.Source?)
  {
    if |stream| >= HEAD && stream[..4] == MAGIC && stream[4] == VERSION {
      BodyEnding(key, stream[HEADER..HEAD], 0, stream[HEAD..]);
    }
  }

  lemma {:induction false} BodyEnding(key: Key, prefix: Bytes, number: nat, stream: Bytes)
    requires number <= U32_MAX
    ensures var r := ReadBody(key, prefix, number, stream);
            && (r.end == Failed(Unsealable) ==> r.text == [] && number == 0)
            && (r.end == Failed(Damaged) ==> number > 0 || |r.text| >= CHUNK)
            && (r.end == Failed(TooManyChunks) ==> number == U32_MAX || |r.text| >= CHUNK)
            && !(r.end.Failed? && (r.end.reason.Source? || r.end.reason.Version?))
    decreases |stream|
  {
    if |stream| >= SEALED_CHUNK && number < U32_MAX {
      var nonce := ChunkNonce(prefix, number, false);
      if Dec(key, nonce, stream[..SEALED_CHUNK]).Some? {
        DecExact(key, nonce, stream[..SEALED_CHUNK], Dec(key, nonce, stream[..SEALED_CHUNK]).value);
        BodyEnding(key, prefix, number + 1, stream[SEALED_CHUNK..]);
      }
    }
  }

  /** The first chunk of a stream opens under this key: what proves a key. */
  predicate FirstChunkOpens(key: Key, stream: Bytes) {
    && |stream| >= HEAD && stream[..4] == MAGIC && stream[4] == VERSION
    && var body := stream[HEAD..];
       var size := if |body| < SEALED_CHUNK then |body| else SEALED_CHUNK;
       Dec(key, ChunkNonce(stream[HEADER..HEAD], 0, size < SEALED_CHUNK), body[..size]).Some?
  }

  /**
  The first chunk opens exactly when the stream does not end as Unsealable or as a
  Version. Two keys never both open a first chunk, so a stream one key opens in part
  is Unsealable under every other.
  */
  lemma {:induction false} FirstChunk(key: Key, key': Key, stream: Bytes)
    ensures var end := ReadAll(key, stream).end;
            FirstChunkOpens(key, stream) <==> !(end.Failed? && (end.reason.Unsealable? || end.reason.Version?))
    ensures FirstChunkOpens(key, stream) && key != key' ==> ReadAll(key', stream) == Reading([], Failed(Unsealable))
  {
    if |stream| >= HEAD && stream[..4] == MAGIC && stream[4] == VERSION {
      var prefix, body := stream[HEADER..HEAD], stream[HEAD..];
      var size := if |body| < SEALED_CHUNK then |body| else SEALED_CHUNK;
      var nonce := ChunkNonce(prefix, 0, size < SEALED_CHUNK);
      if Dec(key, nonce, body[..size]).Some? {
        if Dec(key', nonce, body[..size]).Some? {
          DecBinds(key, nonce, key', nonce, body[..size]);
        }
        if size == SEALED_CHUNK {
          BodyEnding(key, prefix, 1, body[size..]);
        }
      }
    }
  }
}
