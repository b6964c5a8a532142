/** Bytes, big-endian fields and byte-wise exclusive or. */
module Bytes {
  import Bits

  newtype byte = x: int | 0 <= x < 256

  type Digest = d: seq<byte> | |d| == 16 witness seq(16, _ => 0)

  /** MD5 over a byte string and HMAC-MD5 over (message, key): any functions to 16 bytes. */
  datatype Crypto = Crypto(md5: seq<byte> -> Digest, hmac: (seq<byte>, seq<byte>) -> Digest)

  function Zeros(n: nat): (z: seq<byte>)
    ensures |z| == n && forall i :: 0 <= i < n ==> z[i] == 0
  {
    seq(n, _ => 0)
  }

  function PutU16(n: nat): (b: seq<byte>)
    requires n < 0x1_0000
    ensures |b| == 2 && GetU16(b) == n
  {
    [(n / 256) as byte, (n % 256) as byte]
  }

  function GetU16(b: seq<byte>): (n: nat)
    requires |b| == 2
    ensures n < 0x1_0000
  {
    b[0] as nat * 256 + b[1] as nat
  }

  function PutU32(n: nat): (b: seq<byte>)
    requires n < 0x1_0000_0000
    ensures |b| == 4 && GetU32(b) == n
  {
    PutU16(n / 0x1_0000) + PutU16(n % 0x1_0000)
  }

  function GetU32(b: seq<byte>): (n: nat)
    requires |b| == 4
    ensures n < 0x1_0000_0000
  {
    GetU16(b[..2]) * 0x1_0000 + GetU16(b[2..])
  }

  lemma PutGetU32(b: seq<byte>)
    requires |b| == 4
    ensures PutU32(GetU32(b)) == b
  {
    var hi, lo := GetU16(b[..2]), GetU16(b[2..]);
    assert GetU32(b) / 0x1_0000 == hi && GetU32(b) % 0x1_0000 == lo;
    assert PutU16(hi) == b[..2] && PutU16(lo) == b[2..];
  }

  function XorByte(a: byte, b: byte): (c: byte)
    ensures Bits.Xor(c as nat, b as nat) == a as nat
  {
    assert Bits.Xor(a as nat, b as nat) < 256 by {
      assert Bits.Pow2(8) == 256;
      Bits.XorBounds(a as nat, b as nat, 8);
    }
    Bits.XorCancels(a as nat, b as nat);
    Bits.Xor(a as nat, b as nat) as byte
  }

  function XorBytes(a: seq<byte>, b: seq<byte>): (c: seq<byte>)
    requires |a| == |b|
    ensures |c| == |a| && forall i :: 0 <= i < |a| ==> c[i] == XorByte(a[i], b[i])
  {
    seq(|a|, i requires 0 <= i < |a| => XorByte(a[i], b[i]))
  }

  /** Applying the same key stream twice gives the text back. */
  lemma XorBytesCancels(a: seq<byte>, b: seq<byte>)
    requires |a| == |b|
    ensures XorBytes(XorBytes(a, b), b) == a
  {
  }
}
