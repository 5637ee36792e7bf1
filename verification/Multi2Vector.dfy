/**
 The vector forms of MULTI2 decryption. A register is a sequence of 32-bit lanes in memory order; loads and stores
 are little-endian, and every shuffle, unpack and permute is the index map of its instruction. One value of `Form`
 stands for each block type the source instantiates `decrypt_block` with.
 */
module Multi2Vector {
  import opened Bytes
  import opened Multi2
  import opened Multi2Arith

  type Vec = seq<word>

  // ---- Lane-wise operations ----

  function Zip(f: (word, word) -> word, a: Vec, b: Vec): Vec {
    seq(if |a| <= |b| then |a| else |b|, i requires 0 <= i < |a| && i < |b| => f(a[i], b[i]))
  }

  function Map(f: word -> word, a: Vec): Vec {
    seq(|a|, i requires 0 <= i < |a| => f(a[i]))
  }

  /** The arithmetic `fine` applied to every lane. */
  function Widen(fine: Arith<word>): Arith<Vec> {
    Arith((a: Vec, b: Vec) => Zip(fine.xor, a, b),
          (x: Vec, k: word) => Map((v: word) => fine.mix2(v, k), x),
          (x: Vec, k: word, k': word) => Map((v: word) => fine.mix3(v, k, k'), x),
          (x: Vec, k: word) => Map((v: word) => fine.mix4(v, k), x))
  }

  function Lane(b: Block<Vec>, i: nat): Block<word>
    requires i < |b.left| && i < |b.right|
  {
    Block(b.left[i], b.right[i])
  }

  function LaneAt(i: nat): Vec -> word { (v: Vec) => if i < |v| then v[i] else 0 }

  function HasLanes(n: nat): Vec -> bool { (v: Vec) => |v| == n }

  lemma WidenLane(fine: Arith<word>, n: nat, i: nat)
    requires i < n
    ensures LaneOf(Widen(fine), fine, LaneAt(i), HasLanes(n))
  {
  }

  /** The cipher of a vector is the scalar cipher of each of its lanes. */
  lemma VectorDecrypt(fine: Arith<word>, b: Block<Vec>, w: Key, rounds: int, n: nat)
    requires |b.left| == |b.right| == n
    ensures var d := Widen(fine).Decrypt(b, w, rounds);
      && (n > 0 ==> |d.left| == |d.right| == n)
      && forall i :: 0 <= i < n ==> |d.left| == |d.right| == n && Lane(d, i) == fine.Decrypt(Lane(b, i), w, rounds)
  {
    hide LaneOf, Widen, Arith.Decrypt;
    forall i | 0 <= i < n
      ensures var d := Widen(fine).Decrypt(b, w, rounds);
        |d.left| == |d.right| == n && Lane(d, i) == fine.Decrypt(Lane(b, i), w, rounds)
    {
      WidenLane(fine, n, i);
      LaneDecrypt(Widen(fine), fine, LaneAt(i), HasLanes(n), b, w, rounds);
      assert MapBlock(LaneAt(i), b) == Lane(b, i);
    }
    if n > 0 {
      var i := 0;
      assert Lane(b, i) == Lane(b, i);
    }
  }

  // ---- Loads, stores and permutations ----

  function LoadLe(s: seq<byte>, i: nat): word
    requires i + 4 <= |s|
  {
    Join(s[i + 3], s[i + 2], s[i + 1], s[i])
  }

  function Bswap(w: word): word { Join(Byte0(w), Byte1(w), Byte2(w), Byte3(w)) }

  lemma BswapLoad(s: seq<byte>, i: nat)
    requires i + 4 <= |s|
    ensures Bswap(LoadLe(s, i)) == LoadBe(s, i)
  {
    hide Join, Byte0, Byte1, Byte2, Byte3;
    JoinBytes(s[i + 3], s[i + 2], s[i + 1], s[i]);
  }

  lemma BswapTwice(w: word)
    ensures Bswap(Bswap(w)) == w
  {
    hide Join, Byte0, Byte1, Byte2, Byte3;
    JoinBytes(Byte0(w), Byte1(w), Byte2(w), Byte3(w));
    BytesJoin(w);
  }

  /** An unaligned load of `n` dwords at byte offset `off`. */
  function LoadReg(s: seq<byte>, off: nat, n: nat): (r: Vec)
    requires off + 4 * n <= |s|
    ensures |r| == n
  {
    seq(n, i requires 0 <= i < n => LoadLe(s, off + 4 * i))
  }

  /** The bytes of a register in memory order. */
  function StoreReg(v: Vec): (r: seq<byte>)
    ensures |r| == 4 * |v|
  {
    seq(4 * |v|, i requires 0 <= i < 4 * |v| => LaneByte(v[i / 4], i % 4))
  }

  lemma StoreRegDword(v: Vec, i: nat)
    requires i < |v|
    ensures LoadBe(StoreReg(v), 4 * i) == Bswap(v[i])
  {
    hide Join, Byte0, Byte1, Byte2, Byte3;
    var r := StoreReg(v);
    assert r[4 * i] == LaneByte(v[i], 0);
    assert r[4 * i + 1] == LaneByte(v[i], 1);
    assert r[4 * i + 2] == LaneByte(v[i], 2);
    assert r[4 * i + 3] == LaneByte(v[i], 3);
  }

  function Permute(v: Vec, idx: seq<nat>): (r: Vec)
    requires forall i :: 0 <= i < |idx| ==> idx[i] < |v|
    ensures |r| == |idx|
    ensures forall i :: 0 <= i < |idx| ==> r[i] == v[idx[i]]
  {
    seq(|idx|, i requires 0 <= i < |idx| => v[idx[i]])
  }

  /** A byte shuffle inside each 128-bit half; `m` lists the source byte of each of the 16 result bytes. */
  function ShuffleBytes(v: Vec, m: seq<nat>): (r: Vec)
    requires |v| % 4 == 0 && |m| == 16 && forall i :: 0 <= i < 16 ==> m[i] < 16
    ensures |r| == |v|
  {
    seq(|v|, i requires 0 <= i < |v| => ShuffledDword(v, i / 4 * 4, m, i % 4))
  }

  function ShuffledDword(v: Vec, half: nat, m: seq<nat>, d: nat): word
    requires half + 4 <= |v| && d < 4 && |m| == 16 && forall i :: 0 <= i < 16 ==> m[i] < 16
  {
    Join(LaneByte(v[half + m[4 * d + 3] / 4], m[4 * d + 3] % 4),
         LaneByte(v[half + m[4 * d + 2] / 4], m[4 * d + 2] % 4),
         LaneByte(v[half + m[4 * d + 1] / 4], m[4 * d + 1] % 4),
         LaneByte(v[half + m[4 * d] / 4], m[4 * d] % 4))
  }

  /** Reverses the bytes of each dword and swaps dwords 1 and 2 of each half. */
  const SWAP_MASK: seq<nat> := [3, 2, 1, 0, 11, 10, 9, 8, 7, 6, 5, 4, 15, 14, 13, 12]

  const SWAP_ORDER: seq<nat> := [0, 2, 1, 3]

  lemma SwapMaskHalf(v: Vec, half: nat, d: nat)
    requires half + 4 <= |v| && d < 4
    ensures ShuffledDword(v, half, SWAP_MASK, d) == Bswap(v[half + SWAP_ORDER[d]])
  {
    hide Join, Byte0, Byte1, Byte2, Byte3;
    if d == 0 {
    } else if d == 1 {
    } else if d == 2 {
    } else {
      assert d == 3;
    }
  }

  lemma SwapMaskDword(v: Vec, i: nat)
    requires |v| % 4 == 0 && i < |v|
    ensures i / 4 * 4 + SWAP_ORDER[i % 4] < |v|
    ensures ShuffleBytes(v, SWAP_MASK)[i] == Bswap(v[i / 4 * 4 + SWAP_ORDER[i % 4]])
  {
    hide Bswap, ShuffledDword;
    SwapMaskHalf(v, i / 4 * 4, i % 4);
  }

  function UnpackLo4(a: Vec, b: Vec): Vec requires |a| == |b| == 4 { [a[0], b[0], a[1], b[1]] }

  function UnpackHi4(a: Vec, b: Vec): Vec requires |a| == |b| == 4 { [a[2], b[2], a[3], b[3]] }

  function UnpackLo8(a: Vec, b: Vec): Vec requires |a| == |b| == 8 {
    [a[0], b[0], a[1], b[1], a[4], b[4], a[5], b[5]]
  }

  function UnpackHi8(a: Vec, b: Vec): Vec requires |a| == |b| == 8 {
    [a[2], b[2], a[3], b[3], a[6], b[6], a[7], b[7]]
  }
}
