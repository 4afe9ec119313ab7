/**
The two stream machines: `Sealer` cuts what is written through it into numbered
chunks, `Opener` reads a frame back from a source that may deliver any amount at a
time, be interrupted, fail, or hold altered bytes.
*/
module Cipher {
  import opened Wrappers
  import opened Aead
  import opened Frames

  /** What a read or a write can fail with: a source's own failure, or an answer of this crate's. */
  datatype IoError =
    | Interrupted
    | Other(kind: nat, message: string)
    | Crate(reason: Spoiled)

  /** A destination. One that is not reliable may fail any write, with part of it gone out. */
  class Sink {
    var written: Bytes
    const reliable: bool

    constructor (reliable: bool)
      ensures written == [] && this.reliable == reliable
    {
      written := [];
      this.reliable := reliable;
    }

    method WriteAll(data: Bytes) returns (r: Result<(), IoError>)
      modifies this
      ensures r.Ok? ==> written == old(written) + data
      ensures old(written) <= written <= old(written) + data
      ensures reliable ==> r.Ok?
    {
      var fails: bool := *;
      if !reliable && fails {
        var gone: nat :| gone <= |data|;
        written := written + data[..gone];
        return Err(Other(0, "write"));
      }
      written := written + data;
      return Ok(());
    }
  }

  /** The first `number` chunks of a text, all of them full. */
  function FullChunks(key: Key, prefix: Bytes, number: nat, text: Bytes): Bytes
    requires number <= U32_MAX && |text| == Start(number)
  {
    if number == 0 then []
    else
      FullChunks(key, prefix, number - 1, text[..Start(number - 1)])
      + Enc(key, ChunkNonce(prefix, number - 1, false), text[Start(number - 1)..])
  }

  /** Full chunks sent one by one, and the rest behind them, are the whole text's chunks. */
  lemma {:induction false} FullChunksThenRest(key: Key, prefix: Bytes, number: nat, text: Bytes)
    requires number <= FullOnes(text) && Fits(0, text)
    ensures Fits(number, text[Start(number)..])
    ensures FullChunks(key, prefix, number, text[..Start(number)])
            + Chunks(key, prefix, number, text[Start(number)..]) == Chunks(key, prefix, 0, text)
    decreases number
  {
    if number == 0 {
      assert text[0..] == text;
    } else {
      var sent, rest := text[..Start(number)], text[Start(number)..];
      var before := text[Start(number - 1)..];
      FullChunksThenRest(key, prefix, number - 1, text);
      assert sent[..Start(number - 1)] == text[..Start(number - 1)];
      assert sent[Start(number - 1)..] == before[..CHUNK];
      assert before[CHUNK..] == rest;
    }
  }

  /** One more full chunk at the end of those already sent. */
  lemma FullChunksStep(key: Key, prefix: Bytes, number: nat, text: Bytes)
    requires number < U32_MAX && |text| == Start(number + 1)
    ensures FullChunks(key, prefix, number + 1, text)
            == FullChunks(key, prefix, number, text[..Start(number)])
               + Enc(key, ChunkNonce(prefix, number, false), text[Start(number)..])
  {
  }

  /** What a sealer has used a chunk nonce for: the number and the end marker, under its one prefix, and the text. */
  datatype Issued = Issued(number: nat, last: bool, text: Bytes)

  /** Whether a byte is one of a chunk's. */
  ghost predicate OfChunk(key: Key, nonce: Bytes, c: Cell, chunk: Issued) {
    && chunk.number <= U32_MAX && c.Sealed? && c.key == key
    && c.nonce == ChunkNonce(nonce, chunk.number, chunk.last) && c.text == chunk.text
  }

  /** Every byte is the header's or one of a chunk that was issued. */
  ghost predicate Traced(key: Key, nonce: Bytes, issued: seq<Issued>, out: Bytes) {
    forall c | c in out :: c in Header(nonce) || exists i :: 0 <= i < |issued| && OfChunk(key, nonce, c, issued[i])
  }

  /** However much of one more chunk goes out. */
  lemma TracedMore(key: Key, nonce: Bytes, issued: seq<Issued>, out: Bytes, chunk: Issued, more: Bytes)
    requires Traced(key, nonce, issued, out) && chunk.number <= U32_MAX
    requires more <= Enc(key, ChunkNonce(nonce, chunk.number, chunk.last), chunk.text)
    ensures Traced(key, nonce, issued + [chunk], out + more)
  {
    var all := issued + [chunk];
    assert all[|issued|] == chunk && forall i | 0 <= i < |issued| :: all[i] == issued[i];
    forall c | c in out + more
      ensures c in Header(nonce) || exists i :: 0 <= i < |all| && OfChunk(key, nonce, c, all[i])
    {
      if c in more {
        assert OfChunk(key, nonce, c, all[|issued|]);
      } else if c !in Header(nonce) {
        var i :| 0 <= i < |issued| && OfChunk(key, nonce, c, issued[i]);
        assert OfChunk(key, nonce, c, all[i]);
      }
    }
  }

  class Sealer {
    const key: Key
    const nonce: Bytes
    var number: nat
    var pending: Bytes
    var chunk: Bytes
    const dst: Sink

    /** Everything taken so far. */
    ghost var taken: Bytes
    /** What the destination held before this sealer wrote to it. */
    ghost const before: Bytes
    /** The nonce of every chunk that went to the destination, in order. */
    ghost var issued: seq<Issued>
    /** A write to the destination or the counter failed. */
    ghost var broken: bool
    ghost var finished: bool

    /** What holds whatever failed. */
    ghost predicate Valid0()
      reads this, dst
    {
      && before <= dst.written && Traced(key, nonce, issued, dst.written[|before|..])
      && |nonce| == PREFIX && number <= U32_MAX && |pending| <= CHUNK
      && (forall i | 0 <= i < |issued| :: issued[i].number < number)
      && (forall i, j | 0 <= i < j < |issued| :: issued[i].number < issued[j].number)
    }

    ghost predicate Valid()
      reads this, dst
    {
      && Valid0()
      && (!broken && !finished ==>
            && |taken| == Start(number) + |pending|
            && (|taken| > 0 ==> |pending| > 0)
            && taken[Start(number)..] == pending
            && dst.written == Sent(taken[..Start(number)]))
    }

    /** What lies in the destination once these full chunks went out. */
    ghost function Sent(text: Bytes): Bytes
      requires number <= U32_MAX && |text| == Start(number)
      reads this
    {
      before + Header(nonce) + FullChunks(key, nonce, number, text)
    }

    /** Randomness is a parameter here; the header goes out at once. */
    constructor (key: Key, nonce: Bytes, dst: Sink)
      requires |nonce| == PREFIX
      modifies dst
      ensures Valid() && !finished && taken == [] && fresh(this)
      ensures this.key == key && this.nonce == nonce && this.dst == dst && before == old(dst.written)
      ensures dst.reliable ==> !broken
    {
      this.key, this.nonce, this.dst := key, nonce, dst;
      number, pending, chunk := 0, [], [];
      taken, before, issued, finished := [], dst.written, [], false;
      broken := false;
      new;
      var r := dst.WriteAll(Header(nonce));
      broken := r.Err?;
      assert forall c | c in dst.written[|before|..] :: c in Header(nonce);
      assert FullChunks(key, nonce, 0, taken[..0]) == [];
    }

    method SealChunk(len: nat, last: bool) returns (r: Result<(), IoError>)
      requires Valid0() && len <= |pending|
      modifies this`number, this`pending, this`chunk, this`issued, this`broken, dst
      ensures Valid0() && pending == old(pending)[len..]
      ensures old(number) == U32_MAX ==> r == Err(Crate(TooManyChunks)) && number == U32_MAX
      ensures old(number) == U32_MAX ==> dst.written == old(dst.written) && issued == old(issued)
      ensures old(number) < U32_MAX ==>
                && number == old(number) + 1 && issued == old(issued) + [Issued(old(number), last, old(pending)[..len])]
                && (dst.reliable ==> r.Ok?)
                && (r.Ok? ==>
                      dst.written == old(dst.written)
                                     + Enc(key, ChunkNonce(nonce, old(number), last), old(pending)[..len]))
      ensures broken == (old(broken) || r.Err?)
    {
      chunk := pending[..len];
      pending := pending[len..];
      chunk := Enc(key, ChunkNonce(nonce, number, last), chunk);
      if number == U32_MAX {
        broken := true;
        return Err(Crate(TooManyChunks));
      }
      ghost var out, text := dst.written, old(pending)[..len];
      issued := issued + [Issued(number, last, text)];
      number := number + 1;
      r := dst.WriteAll(chunk);
      ghost var gone := dst.written[|out|..];
      TracedMore(key, nonce, old(issued), out[|before|..], Issued(number - 1, last, text), gone);
      assert dst.written[|before|..] == out[|before|..] + gone;
      broken := broken || r.Err?;
    }

    /** Seal a full buffer as an ordinary chunk, because something follows it. */
    method SealFull() returns (r: Result<(), IoError>)
      requires Valid() && !finished && |pending| == CHUNK
      modifies this`number, this`pending, this`chunk, this`issued, this`broken, dst
      ensures Valid0() && pending == [] && broken == (old(broken) || r.Err?)
      ensures r.Ok? ==> number == old(number) + 1
      ensures r.Ok? && !broken ==> |taken| == Start(number) && dst.written == Sent(taken)
      ensures dst.reliable && r.Err? ==> old(number) == U32_MAX
    {
      ghost var full := pending;
      r := SealChunk(CHUNK, false);
      if r.Ok? && !broken {
        assert full[..CHUNK] == full;
        FullChunksStep(key, nonce, number - 1, taken);
      }
    }

    /** A full buffer goes out once something follows it; what is taken is never more than a chunk. */
    method Write(data: Bytes) returns (r: Result<nat, IoError>)
      requires Valid() && !finished
      modifies this`number, this`pending, this`chunk, this`issued, this`broken, this`taken, dst
      ensures Valid()
      ensures r.Ok? ==> r.value <= |data| && (data != [] ==> r.value > 0) && taken == old(taken) + data[..r.value]
      ensures r.Ok? ==> broken == old(broken)
      ensures r.Err? ==> broken && data != []
      ensures dst.reliable && !old(broken) && r.Err? ==> |old(taken)| >= LIMIT
    {
      if data == [] {
        assert taken == taken + data[..0];
        return Ok(0);
      }
      if |pending| == CHUNK {
        var full := SealFull();
        if full.Err? {
          return Err(full.error);
        }
        assert !broken ==> taken[..Start(number)] == taken && taken[Start(number)..] == [];
      }
      var take := if CHUNK - |pending| < |data| then CHUNK - |pending| else |data|;
      if !broken {
        Extend(taken, data[..take], Start(number));
      }
      pending := pending + data[..take];
      taken := taken + data[..take];
      return Ok(take);
    }

    /** Sends the end chunk, which never fills a whole one. */
    method Finish() returns (r: Result<(), IoError>)
      requires Valid() && !finished
      modifies this`number, this`pending, this`chunk, this`issued, this`broken, this`finished, dst
      ensures Valid() && finished
      ensures r.Ok? && !old(broken) ==> |taken| < LIMIT && dst.written == before + Frame(key, nonce, taken)
      ensures !old(broken) && dst.reliable ==> (r.Ok? <==> |taken| < LIMIT)
    {
      if |pending| == CHUNK {
        var full := SealFull();
        if full.Err? {
          finished := true;
          return Err(full.error);
        }
        assert !broken ==> taken[..Start(number)] == taken && taken[Start(number)..] == [];
      }
      r := SealRest();
      finished := true;
    }

    /** Seal what is left, less than a full chunk, as the last one. */
    method SealRest() returns (r: Result<(), IoError>)
      requires Valid0() && |pending| < CHUNK && !finished
      requires !broken ==> |taken| == Start(number) + |pending| && taken[Start(number)..] == pending
      requires !broken ==> dst.written == Sent(taken[..Start(number)])
      modifies this`number, this`pending, this`chunk, this`issued, this`broken, dst
      ensures Valid0() && broken == (old(broken) || r.Err?)
      ensures r.Ok? && !old(broken) ==> |taken| < LIMIT && dst.written == before + Frame(key, nonce, taken)
      ensures !old(broken) && dst.reliable ==> (r.Ok? <==> |taken| < LIMIT)
    {
      ghost var sent, rest := number, pending;
      r := SealChunk(|pending|, true);
      assert rest[..|rest|] == rest;
      if r.Ok? && !broken {
        FullChunksThenRest(key, nonce, sent, taken);
        Regroup(before, Header(nonce), FullChunks(key, nonce, sent, taken[..Start(sent)]),
                Enc(key, ChunkNonce(nonce, sent, true), rest));
      }
    }
  }

  lemma Extend(taken: Bytes, more: Bytes, at: nat)
    requires at <= |taken|
    ensures (taken + more)[..at] == taken[..at] && (taken + more)[at..] == taken[at..] + more
  {
  }

  lemma Regroup(a: Bytes, b: Bytes, c: Bytes, d: Bytes)
    ensures a + b + c + d == a + (b + (c + d))
  {
  }

  /** No two chunks a sealer lets out share a nonce, its failed writes included. */
  lemma NoNonceTwice(sealer: Sealer, i: nat, j: nat)
    requires sealer.Valid() && i < j < |sealer.issued|
    ensures sealer.issued[j].number <= U32_MAX && sealer.issued[i].number <= U32_MAX
    ensures ChunkNonce(sealer.nonce, sealer.issued[i].number, sealer.issued[i].last)
            != ChunkNonce(sealer.nonce, sealer.issued[j].number, sealer.issued[j].last)
  {
    var a, b := sealer.issued[i], sealer.issued[j];
    if ChunkNonce(sealer.nonce, a.number, a.last) == ChunkNonce(sealer.nonce, b.number, b.last) {
      ChunkNonceInjective(sealer.nonce, a.number, a.last, sealer.nonce, b.number, b.last);
    }
  }

  /**
  So no nonce ever went out over two texts, whatever failed and however much of a chunk
  went out: two of the bytes behind the header that name one nonce are of one text.
  */
  lemma {:induction false} OneTextPerNonce(sealer: Sealer, c: Cell, d: Cell)
    requires sealer.Valid() && c.Sealed? && d.Sealed? && c.nonce == d.nonce
    requires c in sealer.dst.written[|sealer.before|..] && d in sealer.dst.written[|sealer.before|..]
    requires c !in Header(sealer.nonce) && d !in Header(sealer.nonce)
    ensures c.key == d.key == sealer.key && c.text == d.text
  {
    var i :| 0 <= i < |sealer.issued| && OfChunk(sealer.key, sealer.nonce, c, sealer.issued[i]);
    var j :| 0 <= j < |sealer.issued| && OfChunk(sealer.key, sealer.nonce, d, sealer.issued[j]);
    if i < j {
      NoNonceTwice(sealer, i, j);
    } else if j < i {
      NoNonceTwice(sealer, j, i);
    }
  }

  /** Offer one piece again and again until all of it is taken. */
  method WriteWhole(sealer: Sealer, piece: Bytes) returns (r: Result<(), IoError>)
    requires sealer.Valid() && !sealer.finished && !sealer.broken && sealer.dst.reliable
    modifies sealer`number, sealer`pending, sealer`chunk, sealer`issued, sealer`broken, sealer`taken, sealer.dst
    ensures sealer.Valid()
    ensures r.Ok? ==> !sealer.broken && sealer.taken == old(sealer.taken) + piece
    ensures r.Err? ==> |old(sealer.taken) + piece| >= LIMIT
  {
    var data := piece;
    while data != []
      invariant sealer.Valid() && !sealer.finished && !sealer.broken
      invariant sealer.taken + data == old(sealer.taken) + piece
      decreases |data|
    {
      var took := sealer.Write(data);
      if took.Err? {
        return Err(took.error);
      }
      data := data[took.value..];
    }
    return Ok(());
  }

  /** Seals a blob written in any pieces: the frame is that of the whole, however it was cut. */
  method SealPieces(key: Key, nonce: Bytes, pieces: seq<Bytes>) returns (r: Result<Bytes, IoError>)
    requires |nonce| == PREFIX
    ensures r.Ok? <==> |Joined(pieces)| < 0xFFFF_FFFF_0000
    ensures r.Ok? ==> r.value == Frame(key, nonce, Joined(pieces))
  {
    var dst := new Sink(true);
    var sealer := new Sealer(key, nonce, dst);
    for i := 0 to |pieces|
      invariant sealer.Valid() && !sealer.finished && !sealer.broken
      invariant sealer.taken + Joined(pieces[i..]) == Joined(pieces)
    {
      assert pieces[i..][1..] == pieces[i + 1..];
      assert |sealer.taken + pieces[i]| <= |sealer.taken + Joined(pieces[i..])|;
      var written := WriteWhole(sealer, pieces[i]);
      if written.Err? {
        return Err(written.error);
      }
    }
    assert sealer.taken == sealer.taken + Joined(pieces[|pieces|..]);
    var end := sealer.Finish();
    if end.Err? {
      return Err(end.error);
    }
    return Ok(dst.written);
  }

  function Joined(pieces: seq<Bytes>): Bytes {
    if pieces == [] then [] else pieces[0] + Joined(pieces[1..])
  }

  /** What a source does out of turn: a short read, an interruption, a failure. */
  datatype Hiccup =
    | Short(most: nat)
    | Interruption
    | Failure(kind: nat, message: string)

  predicate Steady(hiccups: seq<Hiccup>) {
    forall h | h in hiccups :: !h.Failure?
  }

  class Source {
    var rest: Bytes
    var hiccups: seq<Hiccup>

    constructor (stream: Bytes, hiccups: seq<Hiccup>)
      ensures rest == stream && this.hiccups == hiccups
    {
      rest := stream;
      this.hiccups := hiccups;
    }

    /** Read into `buffer` from `at` on. Nothing read means the stream is spent. */
    method Read(buffer: array<Cell>, at: nat) returns (r: Result<nat, IoError>)
      requires at < buffer.Length
      modifies this, buffer
      ensures r.Ok? ==> r.value <= |old(rest)| && at + r.value <= buffer.Length
      ensures r.Ok? ==> rest == old(rest)[r.value..]
      ensures r.Ok? ==> buffer[..] == old(buffer[..at]) + old(rest)[..r.value] + old(buffer[..])[at + r.value..]
      ensures r.Ok? && r.value == 0 ==> rest == []
      ensures r.Err? ==> rest == old(rest) && buffer[..] == old(buffer[..]) && !r.error.Crate?
      ensures r.Err? ==> |hiccups| < |old(hiccups)|
      ensures r.Err? && r.error.Other? ==> !Steady(old(hiccups))
      ensures hiccups == old(hiccups) || (old(hiccups) != [] && hiccups == old(hiccups)[1..])
    {
      var most := buffer.Length - at;
      if hiccups != [] {
        var hiccup := hiccups[0];
        hiccups := hiccups[1..];
        match hiccup
        case Interruption => return Err(Interrupted);
        case Failure(kind, message) =>
          assert hiccup in old(hiccups);
          return Err(Other(kind, message));
        case Short(n) => most := if n < most - 1 then n + 1 else most;
      }
      var n := if most < |rest| then most else |rest|;
      forall i | 0 <= i < n {
        buffer[at + i] := rest[i];
      }
      rest := rest[n..];
      return Ok(n);
    }
  }

  /** As many bytes as fit and there are, over short reads and interruptions. */
  method Fill(src: Source, buffer: array<Cell>) returns (r: Result<nat, IoError>)
    modifies src, buffer
    ensures r.Ok? ==> r.value == if |old(src.rest)| < buffer.Length then |old(src.rest)| else buffer.Length
    ensures r.Ok? ==> buffer[..r.value] == old(src.rest)[..r.value] && src.rest == old(src.rest)[r.value..]
    ensures r.Err? ==> r.error.Other? && !Steady(old(src.hiccups))
    ensures Steady(old(src.hiccups)) ==> Steady(src.hiccups)
  {
    var filled := 0;
    while filled < buffer.Length
      invariant filled <= buffer.Length && filled <= |old(src.rest)|
      invariant buffer[..filled] == old(src.rest)[..filled] && src.rest == old(src.rest)[filled..]
      invariant forall h | h in src.hiccups :: h in old(src.hiccups)
      decreases |src.hiccups|, buffer.Length - filled
    {
      ghost var was := src.hiccups;
      var read := src.Read(buffer, filled);
      match read
      case Ok(n) =>
        if n == 0 {
          break;
        }
        filled := filled + n;
      case Err(Interrupted) =>
      case Err(error) =>
        return Err(error);
    }
    return Ok(filled);
  }

  /** A kept reason as a caller sees it. */
  function ErrorOf(reason: Spoiled): IoError {
    match reason
    case Source(kind, message) => Other(kind, message)
    case _ => Crate(reason)
  }

  class Opener {
    const key: Key
    var nonce: Option<Bytes>
    var number: nat
    var plain: Bytes
    var taken: nat
    const src: Source
    var done: bool
    var spoiled: Option<Spoiled>

    /** What the source held when this reader was made. */
    ghost const stream: Bytes
    /** Whether the source was going to fail by itself. */
    ghost const steady: bool
    /** What reading the whole stream comes to. */
    ghost const total: Reading
    /** Every byte handed to the caller so far. */
    ghost var handed: Bytes
    /** What is still to be handed out if the source holds, and how it will end. */
    ghost var ahead: Reading

    /** What was handed out and what is ahead is, together, always the whole reading. */
    ghost predicate Valid()
      reads this, src
    {
      && number <= U32_MAX && taken <= |plain|
      && (steady ==> Steady(src.hiccups))
      && total == Prepend(handed, ahead)
      && match spoiled
         case None => (nonce.None? ==> number == 0 && plain == [] && !done) && ahead == AheadOf()
         case Some(Source(_, _)) => plain == [] && taken == 0 && !steady
         case Some(reason) => plain == [] && taken == 0 && ahead == Reading([], Failed(reason))
    }

    ghost function AheadOf(): Reading
      requires number <= U32_MAX && taken <= |plain|
      reads this, src
    {
      Prepend(plain[taken..], Tail())
    }

    /** What comes once everything buffered is handed out. */
    ghost function Tail(): Reading
      requires number <= U32_MAX
      reads this`done, this`nonce, this`number, src`rest
    {
      if done then Reading([], Clean)
      else match nonce
        case None => ReadAll(key, src.rest)
        case Some(prefix) => ReadBody(key, prefix, number, src.rest)
    }

    constructor (key: Key, src: Source)
      ensures Valid() && this.key == key && this.src == src && stream == src.rest && steady == Steady(src.hiccups)
      ensures total == ReadAll(key, stream) && handed == [] && spoiled.None? && !done
    {
      this.key, this.src := key, src;
      nonce, number, plain, taken, done, spoiled := None, 0, [], 0, false, None;
      stream, steady, handed := src.rest, Steady(src.hiccups), [];
      total, ahead := ReadAll(key, src.rest), ReadAll(key, src.rest);
    }

    method Spoil(reason: Spoiled) returns (error: IoError)
      modifies this`plain, this`taken, this`spoiled
      ensures plain == [] && taken == 0 && spoiled == Some(reason) && error == ErrorOf(reason)
    {
      plain, taken := [], 0;
      error := ErrorOf(reason);
      spoiled := Some(reason);
    }

    method SpoilSource(error: IoError) returns (same: IoError)
      requires error.Other?
      modifies this`plain, this`taken, this`spoiled
      ensures plain == [] && taken == 0 && same == error
      ensures spoiled == Some(Source(error.kind, error.message)) && error == ErrorOf(spoiled.value)
    {
      plain, taken := [], 0;
      spoiled := Some(Source(error.kind, error.message));
      same := error;
    }

    /** Read the header off the front, once. */
    method Head() returns (r: Result<Bytes, IoError>)
      requires Valid() && spoiled.None? && !done && taken == |plain|
      modifies this`nonce, this`plain, this`taken, this`spoiled, src
      ensures Valid()
      ensures r.Ok? ==> spoiled.None? && nonce == Some(r.value) && taken == |plain|
      ensures r.Err? ==> spoiled.Some? && r.error == ErrorOf(spoiled.value)
    {
      if nonce.Some? {
        return Ok(nonce.value);
      }
      ghost var rest := src.rest;
      var head := new Cell[HEAD];
      var read := Fill(src, head);
      if read.Err? {
        var error := SpoilSource(read.error);
        return Err(error);
      }
      if read.value < head.Length {
        var error := Spoil(FailureAt(0));
        return Err(error);
      }
      var bytes := head[..];
      assert bytes == head[..read.value] == rest[..HEAD];
      assert bytes[..4] == rest[..4] && bytes[4] == rest[4] && bytes[HEADER..] == rest[HEADER..HEAD];
      if bytes[..4] != MAGIC {
        var error := Spoil(FailureAt(0));
        return Err(error);
      }
      if bytes[4] != VERSION {
        var error := Spoil(Version(bytes[4]));
        return Err(error);
      }
      nonce := Some(bytes[HEADER..]);
      PrependNothing(ahead);
      return Ok(bytes[HEADER..]);
    }

    /** One chunk from the source into the buffer, opened; the buffer is empty unless this says Ok. */
    method NextChunk() returns (r: Result<(), IoError>)
      requires Valid() && spoiled.None? && !done && taken == |plain|
      modifies this`nonce, this`number, this`plain, this`taken, this`done, this`spoiled, src
      ensures Valid()
      ensures r.Ok? ==> spoiled.None? && taken == 0 && (plain != [] || done)
      ensures r.Err? ==> spoiled.Some? && r.error == ErrorOf(spoiled.value)
    {
      var head := Head();
      if head.Err? {
        return Err(head.error);
      }
      var prefix := head.value;
      ghost var rest := src.rest;
      PrependNothing(ReadBody(key, prefix, number, rest));
      assert ahead == ReadBody(key, prefix, number, rest);
      var buffer := new Cell[SEALED_CHUNK];
      var filled := Fill(src, buffer);
      plain := buffer[..];
      if filled.Err? {
        var error := SpoilSource(filled.error);
        return Err(error);
      }
      var read := filled.value;
      plain := buffer[..read];
      taken := 0;
      assert plain == rest[..read] && src.rest == rest[read..];
      r := OpenChunk(prefix, rest);
    }

    /** Open the chunk that was read into the buffer, in place. */
    method OpenChunk(prefix: Bytes, ghost rest: Bytes) returns (r: Result<(), IoError>)
      requires number <= U32_MAX && taken == 0 && (steady ==> Steady(src.hiccups))
      requires spoiled.None? && !done && nonce == Some(prefix)
      requires total == Prepend(handed, ahead) && ahead == ReadBody(key, prefix, number, rest)
      requires |plain| == if |rest| < SEALED_CHUNK then |rest| else SEALED_CHUNK
      requires plain == rest[..|plain|] && src.rest == rest[|plain|..]
      modifies this`number, this`plain, this`taken, this`done, this`spoiled
      ensures Valid()
      ensures r.Ok? ==> spoiled.None? && taken == 0 && (plain != [] || done)
      ensures r.Err? ==> spoiled.Some? && r.error == ErrorOf(spoiled.value)
    {
      var read := |plain|;
      var last := read < SEALED_CHUNK;
      if last && read < TAG {
        var error := Spoil(FailureAt(number));
        return Err(error);
      }
      var opening := Dec(key, ChunkNonce(prefix, number, last), plain);
      if opening.None? {
        var error := Spoil(FailureAt(number));
        return Err(error);
      }
      DecExact(key, ChunkNonce(prefix, number, last), plain, opening.value);
      plain := opening.value;
      if number == U32_MAX {
        var error := Spoil(TooManyChunks);
        return Err(error);
      }
      number := number + 1;
      done := last;
      assert plain[0..] == plain;
      assert ahead == AheadOf();
      return Ok(());
    }

    /**
    Hand out at most a bufferful. What was handed out so far and what is buffered is
    always a prefix of what the whole stream comes to; nothing handed out means it
    came to a clean end; a failure ends the reader for good and is repeated as it was.
    */
    method Read(out: array<Cell>) returns (r: Result<nat, IoError>, ghost rounds: nat)
      requires Valid()
      modifies this`nonce, this`number, this`plain, this`taken, this`done, this`spoiled, this`handed, this`ahead
      modifies src, out
      ensures Valid() && rounds <= 2
      ensures handed <= total.text
      ensures out.Length == 0 ==> r == Ok(0) && spoiled == old(spoiled)
      ensures r.Ok? ==> r.value <= out.Length && handed == old(handed) + out[..r.value]
      ensures r.Ok? ==> out[r.value..] == old(out[..])[r.value..]
      ensures r == Ok(0) && out.Length > 0 ==> total == Reading(handed, Clean)
      ensures r.Err? ==> spoiled.Some? && r.error == ErrorOf(spoiled.value)
      ensures r.Err? ==> handed == old(handed) && out[..] == old(out[..])
      ensures r.Ok? ==> spoiled == old(spoiled)
      ensures old(spoiled).Some? && out.Length > 0 ==>
                r == Err(ErrorOf(old(spoiled).value)) && spoiled == old(spoiled) && handed == old(handed)
    {
      rounds := 0;
      if out.Length == 0 {
        assert handed == handed + out[..0];
        return Ok(0), rounds;
      }
      if spoiled.Some? {
        return Err(ErrorOf(spoiled.value)), rounds;
      }
      while taken == |plain|
        invariant Valid() && spoiled.None? && handed == old(handed) && ahead == old(ahead)
        invariant rounds <= if taken == |plain| && !done then 0 else 1
        invariant out[..] == old(out[..])
        decreases !done, taken == |plain|
      {
        rounds := rounds + 1;
        if done {
          assert handed == handed + out[..0] == handed + plain[taken..];
          return Ok(0), rounds;
        }
        var next := NextChunk();
        if next.Err? {
          return Err(next.error), rounds;
        }
      }
      var take := HandOver(out);
      return Ok(take), rounds;
    }

    /** Copy what is waiting into `out`, as much as fits. */
    method HandOver(out: array<Cell>) returns (take: nat)
      requires Valid() && spoiled.None? && taken < |plain| && out.Length > 0
      modifies this`taken, this`handed, this`ahead, out
      ensures Valid() && 0 < take <= out.Length
      ensures handed == old(handed) + out[..take] && out[take..] == old(out[..])[take..]
    {
      hide ReadAll, ReadBody;
      take := if out.Length < |plain| - taken then out.Length else |plain| - taken;
      var given := plain[taken..taken + take];
      ghost var tail := Tail();
      Handed(handed, given, plain[taken + take..], tail);
      assert plain[taken..] == given + plain[taken + take..];
      handed := handed + given;
      taken := taken + take;
      ahead := Prepend(plain[taken..], tail);
      CopyInto(out, given);
      assert Tail() == tail;
    }
  }

  method CopyInto(out: array<Cell>, bytes: Bytes)
    requires |bytes| <= out.Length
    modifies out
    ensures out[..] == bytes + old(out[..])[|bytes|..]
  {
    forall i | 0 <= i < |bytes| {
      out[i] := bytes[i];
    }
  }

  /** Moving bytes from what waits to what was handed out changes nothing about the whole. */
  lemma Handed(handed: Bytes, given: Bytes, waiting: Bytes, tail: Reading)
    ensures Prepend(handed, Prepend(given + waiting, tail)) == Prepend(handed + given, Prepend(waiting, tail))
  {
  }

  lemma PrependNothing(r: Reading)
    ensures Prepend([], r) == r
  {
  }

  /** Whether what an opener handed out so far means that a chunk opened. */
  lemma {:induction false} HandedProves(key: Key, stream: Bytes, handed: Bytes)
    requires handed <= ReadAll(key, stream).text && (handed != [] || ReadAll(key, stream).end == Clean)
    ensures FirstChunkOpens(key, stream)
  {
    FirstChunk(key, key, stream);
    EndingDiscipline(key, key, stream);
  }

  /** A stream that fails before anything was handed out does not open in its first chunk. */
  lemma {:induction false} FailedAtOnce(key: Key, stream: Bytes, reason: Spoiled)
    requires ReadAll(key, stream) == Reading([], Failed(reason))
    ensures !FirstChunkOpens(key, stream)
  {
    FirstChunk(key, key, stream);
    EndingDiscipline(key, key, stream);
  }

  /**
  Unseals a blob whole, whatever the source does on the way, and says whether any read
  came back: then the key opened the first chunk, and never otherwise.
  */
  method OpenWhole(key: Key, sealed: Bytes, hiccups: seq<Hiccup>, size: nat) returns (r: Result<Bytes, IoError>, proven: bool)
    requires size > 0
    ensures r.Ok? ==> ReadAll(key, sealed) == Reading(r.value, Clean)
    ensures r.Err? && !r.error.Other? ==> exists reason :: ReadAll(key, sealed).end == Failed(reason) && r.error == ErrorOf(reason)
    ensures Steady(hiccups) ==> r.Ok? || !r.error.Other?
    ensures proven ==> FirstChunkOpens(key, sealed)
    ensures r.Ok? || !r.error.Other? ==> proven == FirstChunkOpens(key, sealed)
  {
    var src := new Source(sealed, hiccups);
    var opener := new Opener(key, src);
    var text: Bytes := [];
    proven := false;
    while true
      invariant opener.Valid() && opener.handed == text && fresh(opener) && fresh(opener.src)
      invariant opener.total == ReadAll(key, sealed) && opener.steady == Steady(hiccups)
      invariant text <= opener.total.text
      invariant proven == (text != []) && (proven ==> FirstChunkOpens(key, sealed))
      decreases |opener.total.text| - |text|
    {
      var buffer := new Cell[size];
      var read, _ := opener.Read(buffer);
      match read
      case Ok(n) =>
        proven := true;
        HandedProves(key, sealed, opener.handed);
        if n == 0 {
          return Ok(text), proven;
        }
        text := text + buffer[..n];
      case Err(error) =>
        Ended(opener, error);
        return Err(error), proven;
    }
  }

  /** What a failed reader says about the stream: how it ends, and that its first chunk opens if anything came out. */
  lemma {:induction false} Ended(opener: Opener, error: IoError)
    requires opener.Valid() && opener.spoiled.Some? && error == ErrorOf(opener.spoiled.value)
    requires opener.total == ReadAll(opener.key, opener.stream)
    ensures error.Other? ==> !opener.steady
    ensures !error.Other? ==>
              && opener.total == Reading(opener.handed, Failed(opener.spoiled.value))
              && (FirstChunkOpens(opener.key, opener.stream) <==> opener.handed != [])
  {
    if !error.Other? {
      assert opener.handed + [] == opener.handed;
      if opener.handed == [] {
        FailedAtOnce(opener.key, opener.stream, opener.spoiled.value);
      } else {
        HandedProves(opener.key, opener.stream, opener.handed);
      }
    }
  }

  /**
  Read a stream with buffers of any sizes, from a source that does what it likes. All
  that is ever handed out is the beginning of what the stream comes to; and where one
  blob only was sealed under the stream's key and nonce, of that blob's text.
  */
  method ReadInSizes(key: Key, stream: Bytes, hiccups: seq<Hiccup>, sizes: seq<nat>) returns (out: Bytes, clean: bool)
    ensures out <= ReadAll(key, stream).text && (clean ==> ReadAll(key, stream) == Reading(out, Clean))
    ensures |stream| >= HEAD ==>
              forall text: Bytes | |text| < LIMIT && OnlyBlob(key, stream[HEADER..HEAD], text, stream[HEAD..]) ::
                out <= text && (clean ==> out == text)
  {
    var src := new Source(stream, hiccups);
    var opener := new Opener(key, src);
    out, clean := [], false;
    for i := 0 to |sizes|
      invariant opener.Valid() && opener.handed == out && fresh(opener) && fresh(opener.src)
      invariant opener.total == ReadAll(key, stream) && out <= opener.total.text
      invariant clean ==> opener.total == Reading(out, Clean)
    {
      var buffer := new Cell[sizes[i]];
      var read, _ := opener.Read(buffer);
      match read
      case Ok(n) =>
        out := out + buffer[..n];
        clean := clean || (n == 0 && sizes[i] > 0);
      case Err(_) =>
    }
    if |stream| >= HEAD {
      forall text: Bytes | |text| < LIMIT && OnlyBlob(key, stream[HEADER..HEAD], text, stream[HEAD..])
        ensures out <= text && (clean ==> out == text)
      {
        PrefixIntegrity(key, stream, text);
        if clean {
          RoundTrip(key, stream[HEADER..HEAD], text);
        }
      }
    }
  }

  /** Whether a key opens a blob, by one byte of it: settled by the first chunk, or not at all. */
  method OpensWith(key: Key, sealed: Bytes, hiccups: seq<Hiccup>) returns (r: Result<bool, IoError>)
    ensures r.Ok? ==> r.value == FirstChunkOpens(key, sealed)
    ensures r == Ok(false) ==> ReadAll(key, sealed).end == Failed(Unsealable)
    ensures r.Err? && !r.error.Other? ==>
              && !FirstChunkOpens(key, sealed)
              && exists reason :: ReadAll(key, sealed).end == Failed(reason) && reason != Unsealable && r.error == ErrorOf(reason)
    ensures Steady(hiccups) ==> r.Ok? || !r.error.Other?
  {
    var src := new Source(sealed, hiccups);
    var opener := new Opener(key, src);
    var probe := new Cell[1];
    var read, _ := opener.Read(probe);
    match read
    case Ok(n) =>
      HandedProves(key, sealed, opener.handed);
      return Ok(true);
    case Err(error) =>
      Ended(opener, error);
      if error == Crate(Unsealable) {
        return Ok(false);
      }
      return Err(error);
  }
}
