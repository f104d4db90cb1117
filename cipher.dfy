/** Frame decryption: a Salsa20/20 keystream, keyed with the fixed 32-byte packet key
    and an 8-byte nonce derived from four bytes of the ciphertext itself, XORed over
    the whole frame.

    The keystream generator is not modelled: `Keystream` stands for "byte `i` of the
    Salsa20/20 stream for this key and nonce", a parameter of every operation here. */
module Cipher {
  import opened Bytes
  import opened Outcomes

  /** Where the nonce seed sits in the ciphertext, and how wide it is. */
  const IV_OFFSET: nat := 64
  const IV_SIZE: nat := 4
  const EXPECTED_KEY_LEN: nat := 32
  /** The constant XORed into the seed for the first half of the nonce. */
  const IV_SALT: bv32 := 0xDEADBEAF

  /** Decryption failures (gt7/src/errors.rs). */
  datatype CypherError =
    | InputTooShortForIv(len: nat)
    | InvalidIvStructure
    | InvalidKeyLength(len: nat)
    | CipherOperationFailed

  /** Byte `i` of the keystream for `(key, nonce)`. */
  type Keystream = (seq<byte>, seq<byte>, nat) -> byte

  /** The little-endian `u32` at bytes 64..67 of the ciphertext. */
  function Seed(data: seq<byte>): bv32
    requires |data| >= IV_OFFSET + IV_SIZE
  {
    U32At(data, IV_OFFSET)
  }

  /** The nonce of a frame is the nonce of its seed. */
  function Nonce(data: seq<byte>): (n: seq<byte>)
    requires |data| >= IV_OFFSET + IV_SIZE
  {
    NonceOf(Seed(data))
  }

  /** The nonce for a seed: `le(seed ^ 0xDEADBEAF) ++ le(seed)`. */
  function NonceOf(seed: bv32): (n: seq<byte>)
    ensures |n| == 8
    ensures U32At(n, 0) == seed ^ IV_SALT
    ensures U32At(n, 4) == seed
  {
    var n := LeBytes32(seed ^ IV_SALT) + LeBytes32(seed);
    assert n[0..4] == LeBytes32(seed ^ IV_SALT);
    assert n[4..8] == LeBytes32(seed);
    ReadWritten32(n, 0, seed ^ IV_SALT);
    ReadWritten32(n, 4, seed);
    n
  }

  /** The nonce depends on bytes 64..67 of the frame and on nothing else. */
  lemma NonceOnlyReadsSeed(a: seq<byte>, b: seq<byte>)
    requires |a| >= IV_OFFSET + IV_SIZE && |b| >= IV_OFFSET + IV_SIZE
    requires a[IV_OFFSET..IV_OFFSET + IV_SIZE] == b[IV_OFFSET..IV_OFFSET + IV_SIZE]
    ensures Nonce(a) == Nonce(b)
  {
    U32AtSameBytes(a, b, IV_OFFSET);
  }

  /** XOR of `data` with the keystream, position by position. */
  function ApplyKeystream(ks: Keystream, key: seq<byte>, nonce: seq<byte>, data: seq<byte>): (out: seq<byte>)
    ensures |out| == |data|
  {
    seq(|data|, i requires 0 <= i < |data| => data[i] ^ ks(key, nonce, i))
  }

  /** `apply_keystream` on a mutable buffer, one byte at a time. */
  method ApplyKeystreamInPlace(ks: Keystream, key: seq<byte>, nonce: seq<byte>, buf: array<byte>)
    modifies buf
    ensures buf[..] == ApplyKeystream(ks, key, nonce, old(buf[..]))
  {
    ghost var original := buf[..];
    for i := 0 to buf.Length
      invariant buf[..i] == ApplyKeystream(ks, key, nonce, original)[..i]
      invariant buf[i..] == original[i..]
    {
      buf[i] := buf[i] ^ ks(key, nonce, i);
    }
  }

  /** Applying the same keystream twice gives back the input: encryption and decryption
      are the same operation. */
  lemma KeystreamSelfInverse(ks: Keystream, key: seq<byte>, nonce: seq<byte>, data: seq<byte>)
    ensures ApplyKeystream(ks, key, nonce, ApplyKeystream(ks, key, nonce, data)) == data
  {
    var once := ApplyKeystream(ks, key, nonce, data);
    var twice := ApplyKeystream(ks, key, nonce, once);
    forall i | 0 <= i < |data|
      ensures twice[i] == data[i]
    {
      XorTwice(data[i], ks(key, nonce, i));
    }
  }

  lemma XorTwice(x: byte, k: byte)
    ensures (x ^ k) ^ k == x
  {
  }

  /** Position `i` of the output depends only on position `i` of the input. */
  lemma KeystreamPointwise(ks: Keystream, key: seq<byte>, nonce: seq<byte>, a: seq<byte>, b: seq<byte>, lo: nat, hi: nat)
    requires |a| == |b| && lo <= hi <= |a|
    requires a[lo..hi] == b[lo..hi]
    ensures ApplyKeystream(ks, key, nonce, a)[lo..hi] == ApplyKeystream(ks, key, nonce, b)[lo..hi]
  {
    var x, y := ApplyKeystream(ks, key, nonce, a), ApplyKeystream(ks, key, nonce, b);
    forall i | lo <= i < hi
      ensures x[i] == y[i]
    {
      assert a[i] == a[lo..hi][i - lo];
    }
  }

  /** `cypher::decrypt`: the frame must hold the nonce seed and the key must be 32
      bytes long; the plaintext has the frame's length and re-encrypts to the frame. */
  function Decrypt(ks: Keystream, key: seq<byte>, data: seq<byte>): (r: Result<seq<byte>, CypherError>)
    ensures |data| < IV_OFFSET + IV_SIZE <==> r == Err(InputTooShortForIv(|data|))
    ensures |data| >= IV_OFFSET + IV_SIZE && |key| != EXPECTED_KEY_LEN <==> r == Err(InvalidKeyLength(|key|))
    ensures r.Ok? <==> |data| >= IV_OFFSET + IV_SIZE && |key| == EXPECTED_KEY_LEN
    ensures r.Ok? ==> |r.value| == |data| && ApplyKeystream(ks, key, Nonce(data), r.value) == data
  {
    if |data| < IV_OFFSET + IV_SIZE then
      Err(InputTooShortForIv(|data|))
    else if |key| != EXPECTED_KEY_LEN then
      Err(InvalidKeyLength(|key|))
    else
      var plain := ApplyKeystream(ks, key, Nonce(data), data);
      KeystreamSelfInverse(ks, key, Nonce(data), data);
      Ok(plain)
  }

  /** Re-encrypting a plaintext whose bytes 64..67 were left alone, with the nonce of the
      original frame, gives a frame that carries the same seed; decrypting it therefore
      gives back that plaintext exactly, whatever was changed elsewhere. */
  lemma {:induction false} DecryptReEncrypted(ks: Keystream, key: seq<byte>, frame: seq<byte>, edited: seq<byte>)
    requires Decrypt(ks, key, frame).Ok?
    requires |edited| == |frame|
    requires edited[IV_OFFSET..IV_OFFSET + IV_SIZE] == Decrypt(ks, key, frame).value[IV_OFFSET..IV_OFFSET + IV_SIZE]
    ensures ReEncrypt(ks, key, frame, edited)[IV_OFFSET..IV_OFFSET + IV_SIZE] == frame[IV_OFFSET..IV_OFFSET + IV_SIZE]
    ensures Decrypt(ks, key, ReEncrypt(ks, key, frame, edited)) == Ok(edited)
  {
    var nonce := Nonce(frame);
    var plain := Decrypt(ks, key, frame).value;
    var again := ReEncrypt(ks, key, frame, edited);
    KeystreamPointwise(ks, key, nonce, edited, plain, IV_OFFSET, IV_OFFSET + IV_SIZE);
    assert ApplyKeystream(ks, key, nonce, plain) == frame;
    NonceOnlyReadsSeed(again, frame);
    KeystreamSelfInverse(ks, key, nonce, edited);
  }

  /** Encryption of `plain` under the nonce taken from `frame`. */
  function ReEncrypt(ks: Keystream, key: seq<byte>, frame: seq<byte>, plain: seq<byte>): (out: seq<byte>)
    requires |frame| >= IV_OFFSET + IV_SIZE
    ensures |out| == |plain|
  {
    ApplyKeystream(ks, key, Nonce(frame), plain)
  }
}
