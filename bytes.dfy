/** Little-endian fixed-width reads and writes over byte sequences, the primitive
    operations of the `byteorder` reads in the frame decoder and of the nonce
    derivation. Signed values are two's complement. */
module Bytes {

  type byte = bv8

  /** Range of Rust `i16` and `i32`. */
  type i16 = x: int | -0x8000 <= x < 0x8000
  type i32 = x: int | -0x8000_0000 <= x < 0x8000_0000

  function U16At(s: seq<byte>, o: nat): bv16
    requires o + 2 <= |s|
  {
    (s[o] as bv16) | ((s[o + 1] as bv16) << 8)
  }

  function U32At(s: seq<byte>, o: nat): bv32
    requires o + 4 <= |s|
  {
    U32Of(s[o], s[o + 1], s[o + 2], s[o + 3])
  }

  /** The `u32` whose little-endian bytes are `b0 b1 b2 b3`. */
  function U32Of(b0: byte, b1: byte, b2: byte, b3: byte): bv32 {
    (b0 as bv32) | ((b1 as bv32) << 8) | ((b2 as bv32) << 16) | ((b3 as bv32) << 24)
  }

  /** Two's-complement reading of a 16-bit word. */
  function SignedOf16(w: bv16): (r: i16)
    ensures 0 <= r ==> r == w as int
    ensures r < 0 ==> r == w as int - 0x1_0000
  {
    var u := w as int;
    if u < 0x8000 then u else u - 0x1_0000
  }

  /** Two's-complement reading of a 32-bit word. */
  function SignedOf32(w: bv32): (r: i32)
    ensures 0 <= r ==> r == w as int
    ensures r < 0 ==> r == w as int - 0x1_0000_0000
  {
    var u := w as int;
    if u < 0x8000_0000 then u else u - 0x1_0000_0000
  }

  function I16At(s: seq<byte>, o: nat): i16
    requires o + 2 <= |s|
  {
    SignedOf16(U16At(s, o))
  }

  function I32At(s: seq<byte>, o: nat): i32
    requires o + 4 <= |s|
  {
    SignedOf32(U32At(s, o))
  }

  /** `u32::to_le_bytes`. */
  function LeBytes32(x: bv32): (r: seq<byte>)
    ensures |r| == 4
  {
    [(x & 0xFF) as bv8, ((x >> 8) & 0xFF) as bv8, ((x >> 16) & 0xFF) as bv8, ((x >> 24) & 0xFF) as bv8]
  }

  /** Reading back what `LeBytes32` wrote gives the original word, wherever it sits. */
  lemma ReadWritten32(s: seq<byte>, o: nat, x: bv32)
    requires o + 4 <= |s| && s[o..o + 4] == LeBytes32(x)
    ensures U32At(s, o) == x
  {
    var b := LeBytes32(x);
    assert s[o] == b[0] && s[o + 1] == b[1] && s[o + 2] == b[2] && s[o + 3] == b[3];
  }

  /** Writing the word that was read reproduces the four bytes it was read from. */
  lemma WriteRead32(s: seq<byte>, o: nat)
    requires o + 4 <= |s|
    ensures LeBytes32(U32At(s, o)) == s[o..o + 4]
  {
    var b := LeBytes32(U32At(s, o));
    assert b[0] == s[o] && b[1] == s[o + 1] && b[2] == s[o + 2] && b[3] == s[o + 3];
  }

  /** A 32-bit read depends only on the four bytes it reads. */
  lemma U32AtSameBytes(a: seq<byte>, b: seq<byte>, o: nat)
    requires o + 4 <= |a| && o + 4 <= |b|
    requires a[o..o + 4] == b[o..o + 4]
    ensures U32At(a, o) == U32At(b, o)
  {
    assert a[o] == a[o..o + 4][0] && a[o + 1] == a[o..o + 4][1];
    assert a[o + 2] == a[o..o + 4][2] && a[o + 3] == a[o..o + 4][3];
  }

  /** `u32::from_le_bytes(to_le_bytes(x)) == x`. */
  lemma LeBytes32RoundTrip(x: bv32)
    ensures U32At(LeBytes32(x), 0) == x
  {
    ReadWritten32(LeBytes32(x), 0, x);
  }
}
