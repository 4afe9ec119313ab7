/**
The cipher, symbolically. A byte of a file is a cell: either a plain byte or one
of the bytes an encryption produced, which remembers the key, the nonce and the
text it came from and its place among them. Cells nest, so sealed bytes can be
content, and can even stand where a nonce is read.

Decryption succeeds on a complete, in-order run of cells of one encryption and on
nothing else. That is all the frame format relies on, and it is proved here from
the definitions rather than assumed.
*/
module Aead {
  import opened Wrappers

  newtype Byte = b: int | 0 <= b < 256

  datatype Key = Key(bytes: seq<Byte>)

  datatype Cell =
    | Plain(value: Byte)
    | Sealed(key: Key, nonce: seq<Cell>, text: seq<Cell>, index: nat)

  type Bytes = seq<Cell>

  /** What the authenticator adds to every chunk. */
  const TAG: nat := 16

  function Enc(key: Key, nonce: Bytes, text: Bytes): (sealed: Bytes)
    ensures |sealed| == |text| + TAG
  {
    seq(|text| + TAG, i requires 0 <= i => Sealed(key, nonce, text, i))
  }

  function Dec(key: Key, nonce: Bytes, sealed: Bytes): Option<Bytes> {
    if |sealed| < TAG then None
    else match sealed[0]
      case Plain(_) => None
      case Sealed(_, _, text, _) => if sealed == Enc(key, nonce, text) then Some(text) else None
  }

  /** Decryption is exactly the inverse of encryption under the same key and nonce. */
  lemma DecExact(key: Key, nonce: Bytes, sealed: Bytes, text: Bytes)
    ensures Dec(key, nonce, sealed) == Some(text) <==> sealed == Enc(key, nonce, text)
  {
    if sealed == Enc(key, nonce, text) {
      assert sealed[0] == Sealed(key, nonce, text, 0);
    }
  }

  /** What opens under one key and nonce opens under no other. */
  lemma DecBinds(key: Key, nonce: Bytes, key': Key, nonce': Bytes, sealed: Bytes)
    requires Dec(key, nonce, sealed).Some? && Dec(key', nonce', sealed).Some?
    ensures key == key' && nonce == nonce'
  {
    var text, text' := Dec(key, nonce, sealed).value, Dec(key', nonce', sealed).value;
    assert Enc(key, nonce, text)[0] == Enc(key', nonce', text')[0];
  }
}
