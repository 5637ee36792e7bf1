/** Bytes, 32-bit words and the big-endian view of a byte buffer. */
module Bytes {

  type byte = bv8

  type word = bv32

  function Join(a: byte, b: byte, c: byte, d: byte): word {
    (a as bv32 << 24) | (b as bv32 << 16) | (c as bv32 << 8) | d as bv32
  }

  function Byte3(w: word): byte { ((w >> 24) & 0xff) as bv8 }

  function Byte2(w: word): byte { ((w >> 16) & 0xff) as bv8 }

  function Byte1(w: word): byte { ((w >> 8) & 0xff) as bv8 }

  function Byte0(w: word): byte { (w & 0xff) as bv8 }

  lemma JoinBytes(a: byte, b: byte, c: byte, d: byte)
    ensures Byte3(Join(a, b, c, d)) == a
    ensures Byte2(Join(a, b, c, d)) == b
    ensures Byte1(Join(a, b, c, d)) == c
    ensures Byte0(Join(a, b, c, d)) == d
  {
  }

  lemma BytesJoin(w: word)
    ensures Join(Byte3(w), Byte2(w), Byte1(w), Byte0(w)) == w
  {
  }

  /** The big-endian word that starts at offset `i`. */
  function LoadBe(s: seq<byte>, i: nat): word
    requires i + 4 <= |s|
  {
    Join(s[i], s[i + 1], s[i + 2], s[i + 3])
  }

  /** The four bytes of a word, most significant first. */
  function StoreBe(w: word): (r: seq<byte>)
    ensures |r| == 4
  {
    [Byte3(w), Byte2(w), Byte1(w), Byte0(w)]
  }

  lemma LoadStoreBe(w: word)
    ensures LoadBe(StoreBe(w), 0) == w
  {
    BytesJoin(w);
  }

  lemma StoreLoadBe(s: seq<byte>, i: nat)
    requires i + 4 <= |s|
    ensures StoreBe(LoadBe(s, i)) == s[i..i + 4]
  {
    JoinBytes(s[i], s[i + 1], s[i + 2], s[i + 3]);
  }

  /** A buffer after `data` has been written over it at offset `off`. */
  function Splice(s: seq<byte>, off: nat, data: seq<byte>): (r: seq<byte>)
    requires off + |data| <= |s|
    ensures |r| == |s|
    ensures forall i :: 0 <= i < |s| ==> r[i] == if off <= i < off + |data| then data[i - off] else s[i]
  {
    s[..off] + data + s[off + |data|..]
  }

  function Xor8(a: byte, b: byte): byte { a ^ b }

  /** Exclusive or of `a` with the leading bytes of `b`. */
  function XorBytes(a: seq<byte>, b: seq<byte>): (r: seq<byte>)
    requires |a| <= |b|
    ensures |r| == |a|
    ensures forall i :: 0 <= i < |a| ==> r[i] == Xor8(a[i], b[i])
  {
    seq(|a|, i requires 0 <= i < |a| => Xor8(a[i], b[i]))
  }

  lemma Xor8Cancel(a: byte, m: byte)
    ensures Xor8(Xor8(a, m), m) == a
  {
  }

  lemma XorBytesTwice(a: seq<byte>, b: seq<byte>)
    requires |a| <= |b|
    ensures XorBytes(XorBytes(a, b), b) == a
  {
    forall i | 0 <= i < |a|
      ensures XorBytes(XorBytes(a, b), b)[i] == a[i]
    {
      Xor8Cancel(a[i], b[i]);
    }
  }
}
