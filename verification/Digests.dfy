/** Hashes as names: lower-case hex, and how strings become one. */
module Digests {
  import opened Wrappers
  import opened Aead
  import opened Sequences

  predicate IsDigit(c: char) { '0' <= c <= '9' }

  predicate IsHex(c: char) { IsDigit(c) || 'a' <= c <= 'f' || 'A' <= c <= 'F' }

  predicate IsLowerHex(c: char) { IsDigit(c) || 'a' <= c <= 'f' }

  predicate AllHex(s: string) { forall i | 0 <= i < |s| :: IsHex(s[i]) }

  predicate AllLowerHex(s: string) { forall i | 0 <= i < |s| :: IsLowerHex(s[i]) }

  predicate IsDigest(s: string) {
    |s| > 0 && |s| % 2 == 0 && AllLowerHex(s)
  }

  /** A validated digest. There is no other kind. */
  type Digest = s: string | IsDigest(s) witness "00"

  function LowerChar(c: char): char {
    if 'A' <= c <= 'Z' then ((c as int) + 32) as char else c
  }

  function Lower(s: string): (t: string)
    ensures |t| == |s|
  {
    seq(|s|, i requires 0 <= i < |s| => LowerChar(s[i]))
  }

  function Parse(s: string): Option<Digest> {
    if s == "" || |s| % 2 != 0 || !AllHex(s) then None else LowerIsDigest(s); Some(Lower(s))
  }

  lemma LowerIsDigest(s: string)
    requires |s| > 0 && |s| % 2 == 0 && AllHex(s)
    ensures IsDigest(Lower(s))
  {
  }

  /** Parsing normalises case and nothing else, and leaves a digest as it is. */
  lemma ParseCanonical(s: string)
    ensures Parse(s) == Some(s) <==> IsDigest(s)
  {
    if IsDigest(s) {
      assert Lower(s) == s;
    }
  }

  /** What a hex character stands for, in either case. */
  function HexValue(c: char): int {
    if '0' <= c <= '9' then c as int - 48 else if 'a' <= c <= 'f' then c as int - 87 else if 'A' <= c <= 'F' then c as int - 55 else -1
  }

  /** Lowering keeps what every hex character stands for. */
  lemma {:induction false} LowerExact(s: string)
    ensures AllHex(Lower(s)) <==> AllHex(s)
    ensures forall i | 0 <= i < |s| :: IsHex(s[i]) ==> Lower(s)[i] in "0123456789abcdef" && HexValue(Lower(s)[i]) == HexValue(s[i])
  {
    forall i | 0 <= i < |s|
      ensures IsHex(Lower(s)[i]) <==> IsHex(s[i])
      ensures IsHex(s[i]) ==> Lower(s)[i] in "0123456789abcdef" && HexValue(Lower(s)[i]) == HexValue(s[i])
    {
      HexCharacters(s[i]);
    }
  }

  /**
  A string becomes a digest exactly if it is hex of even length, and the digest is the
  one lower-case string that stands, character by character, for the same.
  */
  lemma {:induction false} ParseExact(s: string, digest: Digest)
    ensures Parse(s).Some? <==> s != "" && |s| % 2 == 0 && forall i | 0 <= i < |s| :: s[i] in "0123456789abcdefABCDEF"
    ensures Parse(s) == Some(digest) <==>
            && |digest| == |s|
            && forall i | 0 <= i < |s| :: digest[i] in "0123456789abcdef" && HexValue(digest[i]) == HexValue(s[i])
  {
    forall c: char
      ensures IsHex(c) <==> c in "0123456789abcdefABCDEF"
      ensures IsHex(c) ==> LowerChar(c) in "0123456789abcdef" && HexValue(LowerChar(c)) == HexValue(c)
    {
      HexCharacters(c);
    }
    if |digest| == |s| && forall i | 0 <= i < |s| :: digest[i] in "0123456789abcdef" && HexValue(digest[i]) == HexValue(s[i]) {
      forall i | 0 <= i < |s|
        ensures digest[i] == LowerChar(s[i])
      {
        SameValue(digest[i], s[i]);
      }
      assert Lower(s) == digest;
    }
  }

  /** A lower-case character of the same value is the character in lower case. */
  lemma SameValue(low: char, c: char)
    requires low in "0123456789abcdef" && HexValue(low) == HexValue(c)
    ensures IsHex(c) && low == LowerChar(c)
  {
  }

  lemma HexCharacters(c: char)
    ensures IsHex(c) <==> c in "0123456789abcdefABCDEF"
    ensures IsHex(c) ==> LowerChar(c) in "0123456789abcdef" && HexValue(LowerChar(c)) == HexValue(c)
  {
  }

  /** The first `depth` two-character components, if there are that many. */
  function Shards(digest: string, depth: nat): Option<seq<string>> {
    if |digest| < depth * 2 then None
    else Some(seq(depth, i requires 0 <= i < depth => digest[i * 2..i * 2 + 2]))
  }

  /** Cutting off shards takes two characters for each, from the front, and fails only for want of them. */
  lemma {:induction false} ShardsExact(digest: string, depth: nat)
    ensures Shards(digest, depth).Some? <==> |digest| >= 2 * depth
    ensures Shards(digest, depth).Some? ==>
              var shards := Shards(digest, depth).value;
              |shards| == depth && forall i | 0 <= i < depth :: shards[i] == [digest[2 * i], digest[2 * i + 1]]
  {
  }

  /** A prefix long enough to name the shard names the same shard as the whole digest. */
  lemma ShardsOfPrefix(prefix: string, digest: string, depth: nat)
    requires prefix <= digest && |prefix| >= depth * 2
    ensures Shards(prefix, depth) == Shards(digest, depth) && Shards(digest, depth).Some?
  {
    forall i | 0 <= i < depth
      ensures prefix[i * 2..i * 2 + 2] == digest[i * 2..i * 2 + 2]
    {
    }
    assert Shards(prefix, depth).value == Shards(digest, depth).value;
  }

  function HexChar(n: nat): (c: char)
    requires n < 16
    ensures IsLowerHex(c)
  {
    if n < 10 then ('0' as int + n) as char else ('a' as int + n - 10) as char
  }

  function HexOf(bytes: seq<Byte>): string {
    if bytes == [] then ""
    else HexOf(bytes[..|bytes| - 1]) + [HexChar(bytes[|bytes| - 1] as int / 16), HexChar(bytes[|bytes| - 1] as int % 16)]
  }

  method ToHex(bytes: seq<Byte>) returns (out: string)
    ensures out == HexOf(bytes)
  {
    out := "";
    for i := 0 to |bytes|
      invariant out == HexOf(bytes[..i])
    {
      assert bytes[..i + 1][..i] == bytes[..i];
      out := out + [HexChar(bytes[i] as int / 16), HexChar(bytes[i] as int % 16)];
    }
    assert bytes[..|bytes|] == bytes;
  }

  /** Hex of any hash is a digest of twice its length. */
  lemma {:induction false} HexOfHash(bytes: seq<Byte>)
    ensures |HexOf(bytes)| == 2 * |bytes| && AllLowerHex(HexOf(bytes))
    ensures bytes != [] ==> IsDigest(HexOf(bytes))
    decreases |bytes|
  {
    if bytes != [] {
      HexOfHash(bytes[..|bytes| - 1]);
    }
  }

  /** Different hashes of one algorithm never get one name. */
  lemma {:induction false} HexInjective(bytes: seq<Byte>, other: seq<Byte>)
    requires |bytes| == |other| && HexOf(bytes) == HexOf(other)
    ensures bytes == other
    decreases |bytes|
  {
    if bytes != [] {
      var n := |bytes| - 1;
      HexLast(bytes);
      HexLast(other);
      HexInjective(bytes[..n], other[..n]);
      SameLast(bytes, other);
    }
  }

  lemma HexChars(n: nat)
    requires n < 16
    ensures HexChar(n) == "0123456789abcdef"[n]
  {
  }

  /** Where each byte of a hash is in its hex: two characters, the upper half first. */
  lemma {:induction false} HexAt(bytes: seq<Byte>, i: nat)
    requires i < |bytes|
    ensures |HexOf(bytes)| == 2 * |bytes|
    ensures HexOf(bytes)[2 * i] == "0123456789abcdef"[bytes[i] as int / 16]
    ensures HexOf(bytes)[2 * i + 1] == "0123456789abcdef"[bytes[i] as int % 16]
    decreases |bytes|
  {
    var n := |bytes| - 1;
    HexLast(bytes);
    HexOfHash(bytes);
    HexChars(bytes[i] as int / 16);
    HexChars(bytes[i] as int % 16);
    hide HexChar;
    if i < n {
      HexAt(bytes[..n], i);
    }
  }

  lemma HexLast(bytes: seq<Byte>)
    requires bytes != []
    ensures var n, hex := |bytes| - 1, HexOf(bytes);
            && |hex| == 2 * n + 2 && HexOf(bytes[..n]) == hex[..2 * n]
            && hex[2 * n] == HexChar(bytes[n] as int / 16) && hex[2 * n + 1] == HexChar(bytes[n] as int % 16)
  {
    HexOfHash(bytes[..|bytes| - 1]);
  }
}
