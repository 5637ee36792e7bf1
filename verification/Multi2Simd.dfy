/**
 The intrinsics form of MULTI2 decryption in multi2_simd.c, which always runs four rounds. A set is two registers
 decrypted together; registers are chained in block order after the lanes have been interleaved again, in the
 byte-swapped domain for SSE2 and in the raw domain for SSSE3 and AVX2.
 */
module Multi2Simd {
  import opened Bytes
  import opened Multi2
  import opened Multi2Arith
  import opened Multi2Cbc
  import opened Multi2Vector
  import opened Multi2Forms
  import opened Multi2Dispatch

  const ROUNDS := 4

  datatype Isa = Sse2 | Ssse3 | Avx2

  function Arithmetic(i: Isa): Shortcuts { if i == Sse2 then PLAIN else SHUFFLED }

  /** Dwords in a register, which is also the number of blocks in a set. */
  function Width(i: Isa): nat { if i == Avx2 then 8 else 4 }

  // ---- Byte order ----

  /** `byte_swap_sse2`: swap the bytes of each half, then rotate by sixteen. */
  function RotatedSwap(w: word): word { Rot16(ByteSwap16(w)) }

  lemma RotatedSwapIsBswap(w: word)
    ensures RotatedSwap(w) == Bswap(w)
  {
    hide Join, Byte0, Byte1, Byte2, Byte3, Rot16, Bswap, ByteSwap16;
    ReverseHalfwordsIsRotation(ByteSwap16(w));
    SwapsCompose(w);
  }

  /** Reverses the bytes of each dword. */
  const BYTE_MASK: seq<nat> := [3, 2, 1, 0, 7, 6, 5, 4, 11, 10, 9, 8, 15, 14, 13, 12]

  lemma ByteMaskHalf(v: Vec, half: nat, d: nat)
    requires half + 4 <= |v| && d < 4
    ensures ShuffledDword(v, half, BYTE_MASK, d) == Bswap(v[half + d])
  {
    hide Join, Byte0, Byte1, Byte2, Byte3;
    if d == 0 {
    } else if d == 1 {
    } else if d == 2 {
    } else {
      assert d == 3;
    }
  }

  lemma ByteMaskDword(v: Vec, i: nat)
    requires |v| % 4 == 0 && i < |v|
    ensures ShuffleBytes(v, BYTE_MASK)[i] == Bswap(v[i])
  {
    hide Bswap, ShuffledDword;
    ByteMaskHalf(v, i / 4 * 4, i % 4);
  }

  /** Dwords of a source register as the form keeps them: byte-swapped for SSE2, raw otherwise. */
  function Source(i: Isa, run: seq<byte>, off: nat): (r: Vec)
    requires off + 4 * Width(i) <= |run|
    ensures |r| == Width(i)
  {
    var raw := LoadReg(run, off, Width(i));
    if i == Sse2 then Map((w: word) => RotatedSwap(w), raw) else raw
  }

  /** The number a kept dword stands for. */
  function Value(i: Isa, w: word): word { if i == Sse2 then w else Bswap(w) }

  lemma SourceValue(i: Isa, run: seq<byte>, off: nat, k: nat)
    requires off + 4 * Width(i) <= |run| && k < Width(i)
    ensures Value(i, Source(i, run, off)[k]) == LoadBe(run, off + 4 * k)
  {
    hide LoadLe, LoadBe, Bswap, RotatedSwap;
    RotatedSwapIsBswap(LoadLe(run, off + 4 * k));
    BswapLoad(run, off + 4 * k);
  }

  // ---- Lanes ----

  function UnpackLoPairs(x: Vec, y: Vec): (r: Vec)
    requires |x| == |y| && (|x| == 4 || |x| == 8)
    ensures |r| == |x|
  {
    if |x| == 4 then [x[0], x[1], y[0], y[1]] else [x[0], x[1], y[0], y[1], x[4], x[5], y[4], y[5]]
  }

  function UnpackHiPairs(x: Vec, y: Vec): (r: Vec)
    requires |x| == |y| && (|x| == 4 || |x| == 8)
    ensures |r| == |x|
  {
    if |x| == 4 then [x[2], x[3], y[2], y[3]] else [x[2], x[3], y[2], y[3], x[6], x[7], y[6], y[7]]
  }

  /** Left halves to the front of each 128-bit half, right halves to the back, as numbers. */
  function Grouped(i: Isa, src: Vec): (r: Vec)
    requires |src| == Width(i)
    ensures |r| == |src|
  {
    if i == Sse2 then Permute(src, SWAP_ORDER) else ShuffleBytes(src, SWAP_MASK)
  }

  function Split(i: Isa, src1: Vec, src2: Vec): (b: Block<Vec>)
    requires |src1| == |src2| == Width(i)
    ensures |b.left| == |b.right| == Width(i)
  {
    var x, y := Grouped(i, src1), Grouped(i, src2);
    Block(UnpackLoPairs(x, y), UnpackHiPairs(x, y))
  }

  /** The block of the set each lane holds. */
  function SetOrder(i: Isa): (r: seq<nat>)
    ensures |r| == Width(i) && forall k :: 0 <= k < |r| ==> r[k] < Width(i)
  {
    if i == Avx2 then [0, 1, 4, 5, 2, 3, 6, 7] else [0, 1, 2, 3]
  }

  lemma GroupedValue(i: Isa, src: Vec, k: nat)
    requires |src| == Width(i) && k < Width(i)
    ensures k / 4 * 4 + SWAP_ORDER[k % 4] < Width(i)
    ensures Grouped(i, src)[k] == Value(i, src[k / 4 * 4 + SWAP_ORDER[k % 4]])
  {
    hide Bswap, ShuffleBytes;
    if i != Sse2 {
      SwapMaskDword(src, k);
    }
  }

  lemma SplitLane(i: Isa, run: seq<byte>, off: nat, k: nat)
    requires off + 8 * Width(i) <= |run| && k < Width(i)
    ensures Lane(Split(i, Source(i, run, off), Source(i, run, off + 4 * Width(i))), k)
      == LoadBlock(run, off + 8 * SetOrder(i)[k])
  {
    hide Source, Grouped, Value, LoadBe;
    var n := Width(i);
    var s1, s2 := Source(i, run, off), Source(i, run, off + 4 * n);
    forall d | 0 <= d < n
      ensures d / 4 * 4 + SWAP_ORDER[d % 4] < n
      ensures Grouped(i, s1)[d] == LoadBe(run, off + 4 * (d / 4 * 4 + SWAP_ORDER[d % 4]))
      ensures Grouped(i, s2)[d] == LoadBe(run, off + 4 * n + 4 * (d / 4 * 4 + SWAP_ORDER[d % 4]))
    {
      GroupedValue(i, s1, d);
      GroupedValue(i, s2, d);
      SourceValue(i, run, off, d / 4 * 4 + SWAP_ORDER[d % 4]);
      SourceValue(i, run, off + 4 * n, d / 4 * 4 + SWAP_ORDER[d % 4]);
    }
    assert k == 0 || k == 1 || k == 2 || k == 3 || k == 4 || k == 5 || k == 6 || k == 7;
  }

  // ---- Chaining and stores ----

  lemma BswapXor(a: word, b: word)
    ensures Bswap(Xor(a, b)) == Xor(Bswap(a), Bswap(b))
  {
    hide Join, Byte0, Byte1, Byte2, Byte3, Xor, Xor8;
    XorByte0(a, b);
    XorByte1(a, b);
    XorByte2(a, b);
    XorByte3(a, b);
    JoinXor(Byte0(a), Byte1(a), Byte2(a), Byte3(a), Byte0(b), Byte1(b), Byte2(b), Byte3(b));
  }

  lemma JoinXor(a: byte, b: byte, c: byte, d: byte, e: byte, f: byte, g: byte, h: byte)
    ensures Join(Xor8(a, e), Xor8(b, f), Xor8(c, g), Xor8(d, h)) == Xor(Join(a, b, c, d), Join(e, f, g, h))
  {
  }

  function Combine(x: Vec, c: Vec): (r: Vec)
    requires |x| == |c|
    ensures |r| == |x|
  {
    Zip((a: word, b: word) => Xor(a, b), x, c)
  }

  /** The stored bytes of interleaved numbers `x` combined with a chaining register. */
  function Emit(i: Isa, x: Vec, chain: Vec): (r: seq<byte>)
    requires |x| == |chain| == Width(i)
    ensures |r| == 4 * Width(i)
  {
    if i == Sse2 then StoreReg(Map((w: word) => RotatedSwap(w), Combine(x, chain)))
    else StoreReg(Combine(ShuffleBytes(x, BYTE_MASK), chain))
  }

  lemma EmitDword(i: Isa, x: Vec, chain: Vec, k: nat)
    requires |x| == |chain| == Width(i) && k < Width(i)
    ensures LoadBe(Emit(i, x, chain), 4 * k) == Xor(x[k], Value(i, chain[k]))
  {
    hide LoadBe, Bswap, RotatedSwap, StoreReg, ShuffleBytes, Xor;
    if i == Sse2 {
      StoreRegDword(Map((w: word) => RotatedSwap(w), Combine(x, chain)), k);
      RotatedSwapIsBswap(Xor(x[k], chain[k]));
      BswapTwice(Xor(x[k], chain[k]));
    } else {
      ByteMaskDword(x, k);
      StoreRegDword(Combine(ShuffleBytes(x, BYTE_MASK), chain), k);
      BswapXor(Bswap(x[k]), chain[k]);
      BswapTwice(x[k]);
    }
  }

  function Interleaved(d: Block<Vec>, high: bool): (r: Vec)
    requires |d.left| == |d.right| && (|d.left| == 4 || |d.left| == 8)
    ensures |r| == |d.left|
  {
    if |d.left| == 4 then
      (if high then UnpackHi4(d.left, d.right) else UnpackLo4(d.left, d.right))
    else
      (if high then UnpackHi8(d.left, d.right) else UnpackLo8(d.left, d.right))
  }

  lemma InterleavedBlock(i: Isa, d: Block<Vec>, high: bool, t: nat)
    requires |d.left| == |d.right| == Width(i) && t < Width(i) / 2
    ensures var b := if high then Width(i) / 2 + t else t;
      Block(Interleaved(d, high)[2 * t], Interleaved(d, high)[2 * t + 1]) == Lane(d, SetOrder(i)[b])
  {
    assert t == 0 || t == 1 || t == 2 || t == 3;
  }

  lemma SetOrderInvolution(i: Isa, b: nat)
    requires b < Width(i)
    ensures SetOrder(i)[SetOrder(i)[b]] == b
  {
    assert b == 0 || b == 1 || b == 2 || b == 3 || b == 4 || b == 5 || b == 6 || b == 7;
  }

  /** Dword `k` of the run from `off` on, delayed by one block: the block before `off` is `st`. */
  function Delayed(run: seq<byte>, off: nat, st: Block<word>, k: nat): word
    requires off + 4 * k <= |run| + 4
  {
    if k == 0 then st.left else if k == 1 then st.right else LoadBe(run, off + 4 * (k - 2))
  }

  /** `lo` and `hi` chain the set at `off`, whose preceding block is `st`. */
  ghost predicate Chains(i: Isa, run: seq<byte>, off: nat, st: Block<word>, lo: Vec, hi: Vec) {
    && off + 8 * Width(i) <= |run|
    && |lo| == |hi| == Width(i)
    && forall k :: 0 <= k < Width(i) ==>
         Value(i, lo[k]) == Delayed(run, off, st, k) && Value(i, hi[k]) == Delayed(run, off, st, Width(i) + k)
  }

  function SetWrite(i: Isa, w: Key, run: seq<byte>, off: nat, chain: Vec, high: bool): (r: seq<byte>)
    requires off + 8 * Width(i) <= |run| && |chain| == Width(i)
    ensures |r| == 4 * Width(i)
  {
    var c := Split(i, Source(i, run, off), Source(i, run, off + 4 * Width(i)));
    VectorDecrypt(Words(Arithmetic(i)), c, w, ROUNDS, Width(i));
    Emit(i, Interleaved(Widen(Words(Arithmetic(i))).Decrypt(c, w, ROUNDS), high), chain)
  }

  lemma EmitBlock(i: Isa, x: Vec, chain: Vec, t: nat)
    requires |x| == |chain| == Width(i) && t < Width(i) / 2
    ensures LoadBlock(Emit(i, x, chain), 8 * t)
      == Block(Xor(x[2 * t], Value(i, chain[2 * t])), Xor(x[2 * t + 1], Value(i, chain[2 * t + 1])))
  {
    hide LoadBe, Emit, Value, Xor;
    EmitDword(i, x, chain, 2 * t);
    EmitDword(i, x, chain, 2 * t + 1);
  }

  /** The decrypted lanes of a set, interleaved again. */
  ghost function SetNumbers(i: Isa, w: Key, run: seq<byte>, off: nat, high: bool): (r: Vec)
    requires off + 8 * Width(i) <= |run|
    ensures |r| == Width(i)
  {
    var c := Split(i, Source(i, run, off), Source(i, run, off + 4 * Width(i)));
    VectorDecrypt(Words(Arithmetic(i)), c, w, ROUNDS, Width(i));
    Interleaved(Widen(Words(Arithmetic(i))).Decrypt(c, w, ROUNDS), high)
  }

  lemma SetNumbersBlock(i: Isa, w: Key, run: seq<byte>, off: nat, high: bool, t: nat)
    requires off + 8 * Width(i) <= |run| && t < Width(i) / 2
    ensures var b := if high then Width(i) / 2 + t else t;
      var r := SetNumbers(i, w, run, off, high);
      Block(r[2 * t], r[2 * t + 1]) == Words(Arithmetic(i)).Decrypt(LoadBlock(run, off + 8 * b), w, ROUNDS)
  {
    hide LoadBe, Split, Source, Widen, Interleaved, SetOrder, Arith.Decrypt, Words;
    var b := if high then Width(i) / 2 + t else t;
    var c := Split(i, Source(i, run, off), Source(i, run, off + 4 * Width(i)));
    VectorDecrypt(Words(Arithmetic(i)), c, w, ROUNDS, Width(i));
    var d := Widen(Words(Arithmetic(i))).Decrypt(c, w, ROUNDS);
    InterleavedBlock(i, d, high, t);
    SplitLane(i, run, off, SetOrder(i)[b]);
    SetOrderInvolution(i, b);
  }

  lemma ChainsBlock(i: Isa, run: seq<byte>, off: nat, st: Block<word>, lo: Vec, hi: Vec, high: bool, t: nat)
    requires Chains(i, run, off, st, lo, hi) && t < Width(i) / 2
    ensures var b := if high then Width(i) / 2 + t else t;
      var c := if high then hi else lo;
      Block(Value(i, c[2 * t]), Value(i, c[2 * t + 1])) == if b == 0 then st else LoadBlock(run, off + 8 * (b - 1))
  {
    hide LoadBe, Value;
    var b := if high then Width(i) / 2 + t else t;
    var c := if high then hi else lo;
    assert Value(i, c[2 * t]) == Delayed(run, off, st, 2 * b);
    assert Value(i, c[2 * t + 1]) == Delayed(run, off, st, 2 * b + 1);
  }

  /** Block `j` of the run as sequential decryption leaves it. */
  function Expected(k: BlockCipher, st: Block<word>, run: seq<byte>, j: nat): Block<word>
    requires 8 * j + 8 <= |run|
  {
    k.XorBlock(k.Dec(LoadBlock(run, 8 * j)), Chain(st, run, j))
  }

  /** A write of whole blocks, each of them final. */
  ghost predicate FinalWrite(k: BlockCipher, st: Block<word>, run: seq<byte>, w: Write) {
    && w.off + |w.data| <= |run| && w.off % 8 == 0 && |w.data| % 8 == 0
    && forall t :: 0 <= t < |w.data| / 8 ==> LoadBlock(w.data, 8 * t) == Expected(k, st, run, w.off / 8 + t)
  }

  /** Some write holds the whole of block `j`. */
  ghost predicate Covered(ws: seq<Write>, j: nat) {
    exists w :: w in ws && w.off <= 8 * j && 8 * j + 8 <= w.off + |w.data|
  }

  /** Final writes may overlap: whatever their order, a block that one of them covers is final. */
  lemma {:induction false} FinalWrites(k: BlockCipher, st: Block<word>, run: seq<byte>, ws: seq<Write>, j: nat)
    requires 8 * j + 8 <= |run|
    requires forall w :: w in ws ==> FinalWrite(k, st, run, w)
    requires Covered(ws, j)
    ensures Fit(ws, |run|)
    ensures LoadBlock(Apply(run, ws), 8 * j) == Expected(k, st, run, j)
  {
    hide LoadBlock, Apply, Expected;
    assert Fit(ws, |run|) by {
      forall i | 0 <= i < |ws| ensures ws[i].off + |ws[i].data| <= |run| {
        assert FinalWrite(k, st, run, ws[i]);
      }
    }
    var last := ws[|ws| - 1];
    assert FinalWrite(k, st, run, last);
    ApplyBlock(run, ws, 8 * j);
    if last.off <= 8 * j && 8 * j + 8 <= last.off + |last.data| {
      assert LoadBlock(last.data, 8 * (j - last.off / 8)) == Expected(k, st, run, j);
    } else {
      FinalWrites(k, st, run, ws[..|ws| - 1], j);
    }
  }

  function LastBlock(run: seq<byte>, off: nat, st: Block<word>): Block<word>
    requires off <= |run|
  {
    if off < 8 then st else LoadBlock(run, off - 8)
  }

  /** The two writes of a set. */
  function SetWrites(i: Isa, w: Key, run: seq<byte>, off: nat, lo: Vec, hi: Vec): (ws: seq<Write>)
    requires off + 8 * Width(i) <= |run| && |lo| == |hi| == Width(i)
    ensures |ws| == 2
    ensures ws[0].off == off && ws[1].off == off + 4 * Width(i) && |ws[0].data| == |ws[1].data| == 4 * Width(i)
  {
    [Write(off, SetWrite(i, w, run, off, lo, false)), Write(off + 4 * Width(i), SetWrite(i, w, run, off, hi, true))]
  }

  lemma SetWriteData(i: Isa, w: Key, run: seq<byte>, off: nat, lo: Vec, hi: Vec, high: bool)
    requires off + 8 * Width(i) <= |run| && |lo| == |hi| == Width(i)
    ensures SetWrites(i, w, run, off, lo, hi)[if high then 1 else 0]
      == Write(if high then off + 4 * Width(i) else off,
               Emit(i, SetNumbers(i, w, run, off, high), if high then hi else lo))
  {
    hide Split, Source, Widen, Emit, Interleaved, Arith.Decrypt, Words;
  }

  /** A stored block of a chained set: its decrypted block combined with the block before it. */
  lemma SetBlock(i: Isa, w: Key, run: seq<byte>, off: nat, st: Block<word>, lo: Vec, hi: Vec, high: bool, t: nat)
    requires off % 8 == 0 && off + 8 * Width(i) <= |run| && t < Width(i) / 2 && |lo| == |hi| == Width(i)
    requires Chains(i, run, off, LastBlock(run, off, st), lo, hi)
    ensures LoadBlock(Emit(i, SetNumbers(i, w, run, off, high), if high then hi else lo), 8 * t)
      == Expected(Keyed(Words(Arithmetic(i)), w, ROUNDS), st, run, off / 8 + if high then Width(i) / 2 + t else t)
  {
    hide LoadBlock, SetNumbers, Emit, Arith.Encrypt, Arith.Decrypt, Value, Xor, Mix2, Mix3, Mix4;
    EmitBlock(i, SetNumbers(i, w, run, off, high), if high then hi else lo, t);
    SetNumbersBlock(i, w, run, off, high, t);
    ChainsBlock(i, run, off, LastBlock(run, off, st), lo, hi, high, t);
  }

  /** Each write of a chained set is final. */
  lemma SetWriteFinal(i: Isa, w: Key, run: seq<byte>, off: nat, st: Block<word>, lo: Vec, hi: Vec, high: bool)
    requires off % 8 == 0 && off + 8 * Width(i) <= |run| && |lo| == |hi| == Width(i)
    requires Chains(i, run, off, LastBlock(run, off, st), lo, hi)
    ensures FinalWrite(Keyed(Words(Arithmetic(i)), w, ROUNDS), st, run,
      SetWrites(i, w, run, off, lo, hi)[if high then 1 else 0])
  {
    hide LoadBlock, SetNumbers, SetWrites, Emit, Keyed, Words, Expected, Chains;
    var k := Keyed(Words(Arithmetic(i)), w, ROUNDS);
    var x := SetWrites(i, w, run, off, lo, hi)[if high then 1 else 0];
    SetWriteData(i, w, run, off, lo, hi, high);
    forall t | 0 <= t < |x.data| / 8
      ensures LoadBlock(x.data, 8 * t) == Expected(k, st, run, x.off / 8 + t)
    {
      SetBlock(i, w, run, off, st, lo, hi, high, t);
    }
  }

  lemma SetWritesFinal(i: Isa, w: Key, run: seq<byte>, off: nat, st: Block<word>, lo: Vec, hi: Vec)
    requires off % 8 == 0 && off + 8 * Width(i) <= |run|
    requires Chains(i, run, off, LastBlock(run, off, st), lo, hi)
    ensures var k := Keyed(Words(Arithmetic(i)), w, ROUNDS);
      forall x :: x in SetWrites(i, w, run, off, lo, hi) ==> FinalWrite(k, st, run, x)
  {
    hide LoadBlock, SetWrites, Words, Keyed, FinalWrite;
    SetWriteFinal(i, w, run, off, st, lo, hi, false);
    SetWriteFinal(i, w, run, off, st, lo, hi, true);
  }

  // ---- SSE2 and SSSE3: sets of 32 bytes, chained through registers ----

  /** Chaining registers of a set from the register whose first two dwords hold the block before it. */
  function SseLow(prev: Vec, src1: Vec): (r: Vec)
    requires |prev| == |src1| == 4
    ensures |r| == 4
  {
    UnpackLoPairs(prev, src1)
  }

  function SseHigh(src1: Vec, next: Vec): (r: Vec)
    requires |src1| == |next| == 4
    ensures |r| == 4
  {
    UnpackHiPairs(src1, next)
  }

  /** Swaps the 64-bit halves, so that the last block of the set comes to the front and the first to the back. */
  function SwapHalves(src: Vec): (r: Vec)
    requires |src| == 4
    ensures |r| == 4
  {
    Permute(src, [2, 3, 0, 1])
  }

  ghost predicate Carries(i: Isa, r: Vec, st: Block<word>) {
    |r| >= 2 && Value(i, r[0]) == st.left && Value(i, r[1]) == st.right
  }

  lemma SseChains(i: Isa, run: seq<byte>, off: nat, st: Block<word>, prev: Vec)
    requires i != Avx2 && off + 32 <= |run| && |prev| == 4 && Carries(i, prev, st)
    ensures var s1, next := Source(i, run, off), SwapHalves(Source(i, run, off + 16));
      && Chains(i, run, off, st, SseLow(prev, s1), SseHigh(s1, next))
      && Carries(i, next, LoadBlock(run, off + 24))
  {
    hide LoadBe, Source, Value;
    var s1, s2 := Source(i, run, off), Source(i, run, off + 16);
    forall k | 0 <= k < 4
      ensures Value(i, s1[k]) == LoadBe(run, off + 4 * k)
      ensures Value(i, s2[k]) == LoadBe(run, off + 16 + 4 * k)
    {
      SourceValue(i, run, off, k);
      SourceValue(i, run, off + 16, k);
    }
    var lo, hi := SseLow(prev, s1), SseHigh(s1, SwapHalves(s2));
    forall k | 0 <= k < 4
      ensures Value(i, lo[k]) == Delayed(run, off, st, k) && Value(i, hi[k]) == Delayed(run, off, st, 4 + k)
    {
      assert k == 0 || k == 1 || k == 2 || k == 3;
    }
  }

  /** The register carried into set `t`. */
  function SsePrev(i: Isa, run: seq<byte>, prev: Vec, t: nat): (r: Vec)
    requires i != Avx2 && 32 * t <= |run| && |prev| == 4
    ensures |r| == 4
  {
    if t == 0 then prev else SwapHalves(Source(i, run, 32 * (t - 1) + 16))
  }

  /** The writes of the first `t` sets, all loads done before any of them. */
  function SseWrites(i: Isa, w: Key, run: seq<byte>, prev: Vec, t: nat): (ws: seq<Write>)
    requires i != Avx2 && 32 * t <= |run| && |prev| == 4
    ensures |ws| == 2 * t
  {
    if t == 0 then [] else
      var off := 32 * (t - 1);
      var s1, next := Source(i, run, off), SwapHalves(Source(i, run, off + 16));
      SseWrites(i, w, run, prev, t - 1)
      + SetWrites(i, w, run, off, SseLow(SsePrev(i, run, prev, t - 1), s1), SseHigh(s1, next))
  }

  lemma {:induction false} SseCarried(i: Isa, run: seq<byte>, st: Block<word>, prev: Vec, t: nat)
    requires i != Avx2 && 32 * t <= |run| && |prev| == 4 && Carries(i, prev, st)
    ensures Carries(i, SsePrev(i, run, prev, t), LastBlock(run, 32 * t, st))
  {
    hide Source, Carries, Value, LoadBlock, SwapHalves;
    if t > 0 {
      SseCarried(i, run, st, prev, t - 1);
      SseChains(i, run, 32 * (t - 1), LastBlock(run, 32 * (t - 1), st), SsePrev(i, run, prev, t - 1));
    }
  }

  lemma {:induction false} SseWritesFinal(i: Isa, w: Key, run: seq<byte>, st: Block<word>, prev: Vec, t: nat)
    requires i != Avx2 && 32 * t <= |run| && |prev| == 4 && Carries(i, prev, st)
    ensures var k := Keyed(Words(Arithmetic(i)), w, ROUNDS);
      && (forall x :: x in SseWrites(i, w, run, prev, t) ==> FinalWrite(k, st, run, x))
      && (forall j :: 0 <= j < 4 * t ==> Covered(SseWrites(i, w, run, prev, t), j))
  {
    hide Source, Carries, Value, LoadBlock, SwapHalves, SetWrites, FinalWrite, Keyed, Words, SseLow, SseHigh, Chains;
    if t > 0 {
      SseWritesFinal(i, w, run, st, prev, t - 1);
      SseCarried(i, run, st, prev, t - 1);
      var off := 32 * (t - 1);
      SseChains(i, run, off, LastBlock(run, off, st), SsePrev(i, run, prev, t - 1));
      var s1, next := Source(i, run, off), SwapHalves(Source(i, run, off + 16));
      var lo, hi := SseLow(SsePrev(i, run, prev, t - 1), s1), SseHigh(s1, next);
      SetWritesFinal(i, w, run, off, st, lo, hi);
      var ws, xs := SseWrites(i, w, run, prev, t), SetWrites(i, w, run, off, lo, hi);
      assert ws == SseWrites(i, w, run, prev, t - 1) + xs;
      forall j | 0 <= j < 4 * t
        ensures Covered(ws, j)
      {
        if j < 4 * (t - 1) {
          assert Covered(SseWrites(i, w, run, prev, t - 1), j);
          var x :| x in SseWrites(i, w, run, prev, t - 1) && x.off <= 8 * j && 8 * j + 8 <= x.off + |x.data|;
          assert x in ws;
        } else if j < 4 * (t - 1) + 2 {
          assert xs[0] in ws;
        } else {
          assert xs[1] in ws;
        }
      }
    }
  }

  // ---- AVX2: sets of 64 bytes, chained through unaligned loads ----

  /** `shift_leftsi64_m256i`: a half permute that zeroes the low half, then a per-half byte align. */
  function ShiftLeft64(v: Vec): (r: Vec)
    requires |v| == 8
    ensures |r| == 8
  {
    var mask := [0, 0, 0, 0] + v[..4];
    [mask[2], mask[3], v[0], v[1], mask[6], mask[7], v[4], v[5]]
  }

  /** `shift_rightsi192_m256i`: a per-half byte shift, then a half permute that zeroes the high half. */
  function ShiftRight192(v: Vec): (r: Vec)
    requires |v| == 8
    ensures |r| == 8
  {
    var t := [v[2], v[3], 0, 0, v[6], v[7], 0, 0];
    t[4..] + [0, 0, 0, 0]
  }

  function OrAll(a: Vec, b: Vec): (r: Vec)
    requires |a| == |b|
    ensures |r| == |a|
  {
    Zip((x: word, y: word) => Or(x, y), a, b)
  }

  lemma OrZero(a: word)
    ensures Or(a, 0) == a && Or(0, a) == a
  {
  }

  /** A carried AVX2 register: the block in its first two dwords, zeros behind it. */
  ghost predicate CarriesAlone(r: Vec, st: Block<word>) {
    |r| == 8 && Bswap(r[0]) == st.left && Bswap(r[1]) == st.right && forall k :: 2 <= k < 8 ==> r[k] == 0
  }

  function Avx2Low(cbc: Vec, run: seq<byte>): (r: Vec)
    requires |cbc| == 8 && 32 <= |run|
    ensures |r| == 8
  {
    OrAll(cbc, ShiftLeft64(LoadReg(run, 0, 8)))
  }

  lemma Avx2LowValue(run: seq<byte>, st: Block<word>, cbc: Vec, k: nat)
    requires 64 <= |run| && |cbc| == 8 && CarriesAlone(cbc, st) && k < 8
    ensures Bswap(Avx2Low(cbc, run)[k]) == Delayed(run, 0, st, k)
  {
    hide LoadBe, LoadLe, Bswap, Or;
    var v := LoadReg(run, 0, 8);
    assert ShiftLeft64(v) == [0, 0, v[0], v[1], v[2], v[3], v[4], v[5]];
    if k < 2 {
      OrZero(cbc[k]);
    } else {
      BswapLoad(run, 4 * (k - 2));
      OrZero(v[k - 2]);
    }
  }

  lemma Avx2FirstChains(run: seq<byte>, st: Block<word>, cbc: Vec)
    requires 64 <= |run| && |cbc| == 8 && CarriesAlone(cbc, st)
    ensures Chains(Avx2, run, 0, st, Avx2Low(cbc, run), LoadReg(run, 24, 8))
    ensures CarriesAlone(ShiftRight192(LoadReg(run, 32, 8)), LoadBlock(run, 56))
  {
    hide LoadBe, LoadLe, Bswap, Avx2Low;
    var lo, hi := Avx2Low(cbc, run), LoadReg(run, 24, 8);
    forall k | 0 <= k < 8
      ensures Bswap(lo[k]) == Delayed(run, 0, st, k) && Bswap(hi[k]) == Delayed(run, 0, st, 8 + k)
    {
      BswapLoad(run, 24 + 4 * k);
      Avx2LowValue(run, st, cbc, k);
    }
    BswapLoad(run, 56);
    BswapLoad(run, 60);
  }

  /** Loads eight bytes early chain a set whose preceding block is still in memory. */
  lemma Avx2LaterChains(run: seq<byte>, off: nat)
    requires 8 <= off && off + 64 <= |run|
    ensures Chains(Avx2, run, off, LoadBlock(run, off - 8), LoadReg(run, off - 8, 8), LoadReg(run, off + 24, 8))
  {
    hide LoadBe, LoadLe, Bswap;
    var lo, hi := LoadReg(run, off - 8, 8), LoadReg(run, off + 24, 8);
    forall k | 0 <= k < 8
      ensures Bswap(lo[k]) == Delayed(run, off, LoadBlock(run, off - 8), k)
      ensures Bswap(hi[k]) == Delayed(run, off, LoadBlock(run, off - 8), 8 + k)
    {
      BswapLoad(run, off - 8 + 4 * k);
      BswapLoad(run, off + 24 + 4 * k);
    }
  }

  /** The writes of the 184-byte path: sets at 0, 64 and 120, so that block 15 is loaded and stored twice. */
  function Avx2Writes(w: Key, run: seq<byte>, cbc: Vec): (ws: seq<Write>)
    requires |run| == 184 && |cbc| == 8
    ensures |ws| == 6
  {
    SetWrites(Avx2, w, run, 0, Avx2Low(cbc, run), LoadReg(run, 24, 8))
    + SetWrites(Avx2, w, run, 64, LoadReg(run, 56, 8), LoadReg(run, 88, 8))
    + SetWrites(Avx2, w, run, 120, LoadReg(run, 112, 8), LoadReg(run, 144, 8))
  }

  lemma Avx2WritesFinal(w: Key, run: seq<byte>, st: Block<word>, cbc: Vec)
    requires |run| == 184 && CarriesAlone(cbc, st)
    ensures var k := Keyed(Words(Arithmetic(Avx2)), w, ROUNDS);
      && (forall x :: x in Avx2Writes(w, run, cbc) ==> FinalWrite(k, st, run, x))
      && (forall j :: 0 <= j < 23 ==> Covered(Avx2Writes(w, run, cbc), j))
  {
    hide LoadBlock, LoadReg, CarriesAlone, SetWrites, FinalWrite, Keyed, Words, Chains, Avx2Low;
    assert |cbc| == 8 by { CarriesLength(cbc, st); }
    Avx2FirstChains(run, st, cbc);
    Avx2LaterChains(run, 64);
    Avx2LaterChains(run, 120);
    SetWritesFinal(Avx2, w, run, 0, st, Avx2Low(cbc, run), LoadReg(run, 24, 8));
    SetWritesFinal(Avx2, w, run, 64, st, LoadReg(run, 56, 8), LoadReg(run, 88, 8));
    SetWritesFinal(Avx2, w, run, 120, st, LoadReg(run, 112, 8), LoadReg(run, 144, 8));
    var ws := Avx2Writes(w, run, cbc);
    assert ws[0].off == 0 && ws[1].off == 32 && ws[2].off == 64 && ws[3].off == 96 && ws[4].off == 120
      && ws[5].off == 152;
    assert forall i :: 0 <= i < 6 ==> |ws[i].data| == 32;
    forall j | 0 <= j < 23
      ensures Covered(ws, j)
    {
      var i := if j < 16 then j / 4 else if j < 19 then 4 else 5;
      assert ws[i] in ws;
    }
  }

  lemma CarriesLength(r: Vec, st: Block<word>)
    requires CarriesAlone(r, st)
    ensures |r| == 8
  {
  }

  /** The one set of the general AVX2 loop. */
  lemma Avx2OneSetFinal(w: Key, run: seq<byte>, st: Block<word>, cbc: Vec)
    requires |run| == 64 && CarriesAlone(cbc, st)
    ensures var k := Keyed(Words(Arithmetic(Avx2)), w, ROUNDS);
      var ws := SetWrites(Avx2, w, run, 0, Avx2Low(cbc, run), LoadReg(run, 24, 8));
      && (forall x :: x in ws ==> FinalWrite(k, st, run, x))
      && (forall j :: 0 <= j < 8 ==> Covered(ws, j))
  {
    hide LoadBlock, LoadReg, CarriesAlone, SetWrites, FinalWrite, Keyed, Words, Chains, Avx2Low;
    assert |cbc| == 8 by { CarriesLength(cbc, st); }
    Avx2FirstChains(run, st, cbc);
    SetWritesFinal(Avx2, w, run, 0, st, Avx2Low(cbc, run), LoadReg(run, 24, 8));
    var ws := SetWrites(Avx2, w, run, 0, Avx2Low(cbc, run), LoadReg(run, 24, 8));
    forall j | 0 <= j < 8
      ensures Covered(ws, j)
    {
      assert ws[j / 4] in ws;
    }
  }

  // ---- The methods ----

  lemma ArithmeticAgrees(i: Isa, w: Key)
    ensures SameCiphers(Keyed(Words(Arithmetic(i)), w, ROUNDS), Reference(w, ROUNDS))
  {
    hide SameShortcuts, SameCiphers, Words;
    AllFormsAgree();
    assert SameShortcuts(PLAIN, PLAIN) by { SameItself(); }
    SameAsReference(Arithmetic(i), w, ROUNDS);
  }

  lemma SameItself()
    ensures SameShortcuts(PLAIN, PLAIN)
  {
  }

  lemma FinalWriteFits(k: BlockCipher, st: Block<word>, run: seq<byte>, w: Write)
    requires FinalWrite(k, st, run, w)
    ensures w.off + |w.data| <= |run|
  {
  }

  /** Final writes that cover a run make it a decrypted run. */
  lemma FinalRun(i: Isa, w: Key, st: Block<word>, run: seq<byte>, ws: seq<Write>)
    requires |run| % 8 == 0
    requires forall x :: x in ws ==> FinalWrite(Keyed(Words(Arithmetic(i)), w, ROUNDS), st, run, x)
    requires forall j :: 0 <= j < |run| / 8 ==> Covered(ws, j)
    ensures Fit(ws, |run|)
    ensures Reference(w, ROUNDS).BlockRun(st, run, Apply(run, ws))
  {
    hide BlockCipher.BlockRun, SameCiphers, Apply, FinalWrite, Keyed, Words, Reference;
    var k := Keyed(Words(Arithmetic(i)), w, ROUNDS);
    assert Fit(ws, |run|) by {
      forall n | 0 <= n < |ws| ensures ws[n].off + |ws[n].data| <= |run| {
        FinalWriteFits(k, st, run, ws[n]);
      }
    }
    FinalRunBlocks(k, st, run, ws);
    ArithmeticAgrees(i, w);
    SameRun(k, Reference(w, ROUNDS), st, run, Apply(run, ws));
  }

  lemma FinalRunBlocks(k: BlockCipher, st: Block<word>, run: seq<byte>, ws: seq<Write>)
    requires |run| % 8 == 0 && Fit(ws, |run|)
    requires forall x :: x in ws ==> FinalWrite(k, st, run, x)
    requires forall j :: 0 <= j < |run| / 8 ==> Covered(ws, j)
    ensures k.BlockRun(st, run, Apply(run, ws))
  {
    hide LoadBlock, Apply, FinalWrite;
    forall j | 0 <= j < |run| / 8
      ensures LoadBlock(Apply(run, ws), 8 * j) == Expected(k, st, run, j)
    {
      FinalWrites(k, st, run, ws, j);
    }
  }

  /** Issues the writes of a run one by one. */
  method IssueWrites(buf: array<byte>, p: nat, ghost run: seq<byte>, ws: seq<Write>)
    requires p + |run| <= buf.Length && run == buf[p..p + |run|] && Fit(ws, |run|)
    modifies buf
    ensures buf[..] == Splice(old(buf[..]), p, Apply(run, ws))
  {
    hide Splice;
    ghost var before := buf[..];
    assert Splice(before, p, run) == before;
    for i := 0 to |ws|
      invariant buf[..] == Splice(before, p, Apply(run, ws[..i]))
    {
      assert ws[..i + 1][..i] == ws[..i];
      SpliceInside(before, p, Apply(run, ws[..i]), ws[i].off, ws[i].data);
      WriteBytes(buf, p + ws[i].off, ws[i].data);
    }
    assert ws[..|ws|] == ws;
  }

  /** Work in progress against the reference at four rounds. */
  ghost predicate Reached(w: Key, iv: Block<word>, before: seq<byte>, cur: seq<byte>, off: nat, n: nat, p: nat,
                          st: Block<word>)
  {
    Progress(Decryptor(Reference(w, ROUNDS)), iv, before, cur, off, n, p, st)
  }

  /** A final run of writes moves the work on by the length of the run. */
  lemma ReachedRun(i: Isa, w: Key, iv: Block<word>, before: seq<byte>, cur: seq<byte>, off: nat, n: nat, p: nat,
                   st: Block<word>, m: nat, ws: seq<Write>)
    requires Reached(w, iv, before, cur, off, n, p, st)
    requires m % 8 == 0 && p + m <= off + n && p + m <= |cur|
    requires forall x :: x in ws ==> FinalWrite(Keyed(Words(Arithmetic(i)), w, ROUNDS), st, cur[p..p + m], x)
    requires forall j :: 0 <= j < m / 8 ==> Covered(ws, j)
    ensures Fit(ws, m)
    ensures Reached(w, iv, before, Splice(cur, p, Apply(cur[p..p + m], ws)), off, n, p + m,
      LastBlock(cur[p..p + m], m, st))
  {
    hide Progress, BlockCipher.BlockRun, Apply, FinalWrite, Splice, Words, Keyed, Reference, Decryptor, LoadBlock;
    FinalRun(i, w, st, cur[p..p + m], ws);
    DecryptRun(Reference(w, ROUNDS), iv, before, cur, off, n, p, st, m, Apply(cur[p..p + m], ws));
  }

  /** One or three SSE sets, all loaded before any is stored. */
  method SseSets(i: Isa, w: Key, sets: nat, ghost iv: Block<word>, ghost before: seq<byte>, buf: array<byte>,
                 ghost off: nat, ghost n: nat, p: nat, prev: Vec, ghost st: Block<word>)
    returns (prev': Vec, ghost st': Block<word>)
    requires i != Avx2 && |prev| == 4 && Carries(i, prev, st)
    requires p + 32 * sets <= off + n && p + 32 * sets <= buf.Length
    requires Reached(w, iv, before, buf[..], off, n, p, st)
    modifies buf
    ensures |prev'| == 4 && Carries(i, prev', st')
    ensures Reached(w, iv, before, buf[..], off, n, p + 32 * sets, st')
  {
    hide Reached, Carries, SseWrites, SsePrev, FinalWrite, Covered, Apply, Splice, LoadBlock;
    var run := buf[p..p + 32 * sets];
    var ws := SseWrites(i, w, run, prev, sets);
    SseWritesFinal(i, w, run, st, prev, sets);
    ReachedRun(i, w, iv, before, buf[..], off, n, p, st, 32 * sets, ws);
    IssueWrites(buf, p, run, ws);
    prev' := SsePrev(i, run, prev, sets);
    SseCarried(i, run, st, prev, sets);
    st' := LastBlock(run, 32 * sets, st);
  }

  /** Byte positions of the eight key-stream bytes in two little-endian dwords. */
  const TAIL_ORDER: seq<nat> := [3, 2, 1, 0, 7, 6, 5, 4]

  lemma TailBytes(s: Block<word>, t: nat)
    requires t < 8
    ensures StoreReg([s.left, s.right])[TAIL_ORDER[t]] == StoreBlock(s)[t]
  {
    hide Byte0, Byte1, Byte2, Byte3;
    assert t == 0 || t == 1 || t == 2 || t == 3 || t == 4 || t == 5 || t == 6 || t == 7;
  }

  /** The falling-through switch: from the last tail byte down to the first. */
  method XorTail(buf: array<byte>, p: nat, size: nat, s: Block<word>)
    requires size < 8 && p + size <= buf.Length
    modifies buf
    ensures buf[..] == Splice(old(buf[..]), p, XorBytes(old(buf[p..p + size]), StoreBlock(s)))
  {
    hide StoreBlock, StoreReg, Splice, Xor8;
    var remain := StoreReg([s.left, s.right]);
    ghost var cur := buf[..];
    ghost var tail := XorBytes(cur[p..p + size], StoreBlock(s));
    var t := size;
    while t > 0
      invariant 0 <= t <= size
      invariant forall x :: 0 <= x < buf.Length ==>
        buf[x] == if p + t <= x < p + size then tail[x - p] else cur[x]
    {
      t := t - 1;
      TailBytes(s, t);
      assert tail[t] == Xor8(cur[p + t], StoreBlock(s)[t]);
      buf[p + t] := Xor8(buf[p + t], remain[TAIL_ORDER[t]]);
    }
    assert buf[..] == Splice(cur, p, tail);
  }

  /** Output feedback over the tail. */
  method SwitchTail(w: Key, ghost iv: Block<word>, ghost before: seq<byte>, buf: array<byte>,
                    ghost off: nat, ghost n: nat, p: nat, size: nat, cbc: Block<word>)
    requires size < 8 && p + size == off + n <= |before| == buf.Length
    requires Reached(w, iv, before, buf[..], off, n, p, cbc)
    modifies buf
    ensures buf[..] == Splice(before, off, Reference(w, ROUNDS).DecryptBytes(iv, before[off..off + n]))
  {
    hide StoreBlock, Splice, Progress, XorBytes, Arith.Encrypt, Arith.Decrypt;
    ghost var k := Reference(w, ROUNDS);
    ProgressSame(Decryptor(k), iv, before, buf[..], off, n, p, cbc, p + size);
    var s := Words(PLAIN).Encrypt(cbc, w, ROUNDS);
    ProgressEnd(Decryptor(k), iv, before, buf[..], off, n, p, cbc, XorBytes(buf[p..p + size], StoreBlock(s)));
    XorTail(buf, p, size, s);
  }

  /** What every general path ends with: single blocks, then the switch. */
  method SimdRest(w: Key, ghost iv: Block<word>, ghost before: seq<byte>, buf: array<byte>,
                  ghost off: nat, ghost n: nat, start: nat, size0: nat, st: Block<word>)
    requires start + size0 == off + n <= |before| == buf.Length
    requires Reached(w, iv, before, buf[..], off, n, start, st)
    modifies buf
    ensures buf[..] == Splice(before, off, Reference(w, ROUNDS).DecryptBytes(iv, before[off..off + n]))
  {
    hide Words, Splice, Progress, SameCiphers, Arith.Encrypt, Arith.Decrypt;
    ArithmeticAgrees(Sse2, w);
    var cbc, p, size :=
      DecryptBlocks(Keyed(Words(PLAIN), w, ROUNDS), Reference(w, ROUNDS), iv, before, buf, off, n, start, size0, st);
    SwitchTail(w, iv, before, buf, off, n, p, size, cbc);
  }

  /** `decrypt_multi2_without_simd`. */
  method DecryptWithoutSimd(w: Key, iv: Block<word>, buf: array<byte>, off: nat, n: nat)
    requires off + n <= buf.Length
    modifies buf
    ensures buf[..] == Splice(old(buf[..]), off, Reference(w, 4).DecryptBytes(iv, old(buf[off..off + n])))
  {
    hide Reference, Splice, Progress;
    ProgressStart(Decryptor(Reference(w, ROUNDS)), iv, buf[..], off, n);
    SimdRest(w, iv, buf[..], buf, off, n, off, n, iv);
  }

  /** The decryption of whole blocks does not depend on what follows them. */
  lemma {:induction false} DecryptPrefix(c: BlockCipher, st: Block<word>, a: seq<byte>, b: seq<byte>)
    requires |a| % 8 == 0
    ensures c.DecryptBytes(st, a + b)[..|a|] == c.DecryptBytes(st, a)
    decreases |a|
  {
    hide StoreBlock, BlockCipher.XorBlock, LoadBlock;
    if |a| > 0 {
      LoadBlockSlice(a + b, 0, |a|, 0);
      assert (a + b)[0..|a|] == a;
      assert (a + b)[8..] == a[8..] + b;
      DecryptPrefix(c, LoadBlock(a, 0), a[8..], b);
    } else {
      assert c.DecryptBytes(st, a) == [];
    }
  }

  /** The 184-byte SSE paths: eight bytes past the payload are saved, zeroed, worked on and put back. */
  method DecryptSse184(i: Isa, w: Key, iv: Block<word>, buf: array<byte>, off: nat, prev: Vec)
    requires i != Avx2 && |prev| == 4 && Carries(i, prev, iv)
    requires off + 192 <= buf.Length
    modifies buf
    ensures buf[..] == Splice(old(buf[..]), off, Reference(w, ROUNDS).DecryptBytes(iv, old(buf[off..off + 184])))
  {
    hide Reference, Splice, Progress, Carries, BlockCipher.DecryptBytes;
    ghost var before := buf[..];
    var backup := buf[off + 184..off + 192];
    WriteBytes(buf, off + 184, seq(8, _ => 0));
    ghost var filled := buf[..];
    ghost var k := Reference(w, ROUNDS);
    ProgressStart(Decryptor(k), iv, filled, off, 192);
    var prev1, prev2;
    ghost var st1, st2;
    prev1, st1 := SseSets(i, w, 3, iv, filled, buf, off, 192, off, prev, iv);
    prev2, st2 := SseSets(i, w, 3, iv, filled, buf, off, 192, off + 96, prev1, st1);
    Finished(w, ROUNDS, iv, filled, buf[..], off, 192, off + 192, st2);
    WriteBytes(buf, off + 184, backup);
    ghost var data := before[off..off + 184];
    assert filled[off..off + 192] == data + seq(8, _ => 0);
    DecryptPrefix(k, iv, data, seq(8, _ => 0));
    RestoreTail(before, filled, off, k.DecryptBytes(iv, filled[off..off + 192]), k.DecryptBytes(iv, data), backup);
  }

  lemma RestoreTail(before: seq<byte>, filled: seq<byte>, off: nat, long: seq<byte>, short: seq<byte>,
                    backup: seq<byte>)
    requires off + 192 <= |before| && |long| == 192 && |short| == 184 && backup == before[off + 184..off + 192]
    requires filled == Splice(before, off + 184, seq(8, _ => 0)) && long[..184] == short
    ensures Splice(Splice(filled, off, long), off + 184, backup) == Splice(before, off, short)
  {
    hide Splice;
    forall x | 0 <= x < |before|
      ensures Splice(Splice(filled, off, long), off + 184, backup)[x] == Splice(before, off, short)[x]
    {
      if off <= x < off + 184 {
        assert long[..184][x - off] == long[x - off];
      }
    }
  }

  /** The chaining register both SSE routines start from. */
  function StartChain(i: Isa, iv: Block<word>): (r: Vec)
    ensures |r| == 4
  {
    if i == Sse2 then [iv.left, iv.right, 0, 0] else [Bswap(iv.left), Bswap(iv.right), 0, 0]
  }

  lemma StartCarries(i: Isa, iv: Block<word>)
    requires i != Avx2
    ensures Carries(i, StartChain(i, iv), iv)
  {
    hide Bswap;
    BswapTwice(iv.left);
    BswapTwice(iv.right);
  }

  lemma CarriedBlock(i: Isa, r: Vec, st: Block<word>)
    requires |r| == 4 && Carries(i, r, st)
    ensures Block(Value(i, r[0]), Value(i, r[1])) == st
  {
  }

  /** The SSE routines write, and restore, the eight bytes behind a payload of 184. */
  predicate SseRoom(length: nat, off: nat, n: int) { n == 184 ==> off + 192 <= length }

  /** `decrypt_multi2_with_sse2` and `decrypt_multi2_with_ssse3`. */
  method DecryptWithSse(i: Isa, w: Key, iv: Block<word>, buf: array<byte>, off: nat, n: nat)
    requires i != Avx2
    requires off + n <= buf.Length && SseRoom(buf.Length, off, n)
    modifies buf
    ensures buf[..] == Splice(old(buf[..]), off, Reference(w, 4).DecryptBytes(iv, old(buf[off..off + n])))
  {
    hide Reference, Splice, Progress, Value, StartChain, Carries;
    var prev := StartChain(i, iv);
    StartCarries(i, iv);
    if n == 184 {
      DecryptSse184(i, w, iv, buf, off, prev);
      return;
    }
    ghost var before := buf[..];
    ProgressStart(Decryptor(Reference(w, ROUNDS)), iv, before, off, n);
    var p, size := off, n;
    ghost var st := iv;
    while size >= 32
      invariant p + size == off + n
      invariant |prev| == 4 && Carries(i, prev, st)
      invariant Reached(w, iv, before, buf[..], off, n, p, st)
    {
      prev, st := SseSets(i, w, 1, iv, before, buf, off, n, p, prev, st);
      p, size := p + 32, size - 32;
    }
    CarriedBlock(i, prev, st);
    SimdRest(w, iv, before, buf, off, n, p, size, Block(Value(i, prev[0]), Value(i, prev[1])));
  }

  /** The 184-byte path of `decrypt_multi2_with_avx2`: 23 blocks in three sets of eight, block 15 done twice. */
  method DecryptAvx184(w: Key, iv: Block<word>, buf: array<byte>, off: nat, cbc: Vec)
    requires off + 184 <= buf.Length && |cbc| == 8 && CarriesAlone(cbc, iv)
    modifies buf
    ensures buf[..] == Splice(old(buf[..]), off, Reference(w, ROUNDS).DecryptBytes(iv, old(buf[off..off + 184])))
  {
    hide Reference, Splice, Progress, Bswap, Avx2Writes, SetWrites, FinalWrite, Covered, Apply, LoadBlock, LoadReg,
      Avx2Low, CarriesAlone;
    ghost var before := buf[..];
    ProgressStart(Decryptor(Reference(w, ROUNDS)), iv, before, off, 184);
    var run := buf[off..off + 184];
    var ws := Avx2Writes(w, run, cbc);
    Avx2WritesFinal(w, run, iv, cbc);
    ReachedRun(Avx2, w, iv, before, before, off, 184, off, iv, 184, ws);
    IssueWrites(buf, off, run, ws);
    Finished(w, ROUNDS, iv, before, buf[..], off, 184, off + 184, LastBlock(run, 184, iv));
  }

  /** One set of eight blocks, chained through `cbc`. */
  method DecryptAvxSet(w: Key, ghost iv: Block<word>, ghost before: seq<byte>, buf: array<byte>, ghost off: nat,
                       ghost n: nat, p: nat, cbc: Vec, ghost st: Block<word>)
    returns (cbc': Vec, ghost st': Block<word>)
    requires p + 64 <= off + n <= |before| == buf.Length
    requires CarriesAlone(cbc, st) && Reached(w, iv, before, buf[..], off, n, p, st)
    modifies buf
    ensures CarriesAlone(cbc', st') && Reached(w, iv, before, buf[..], off, n, p + 64, st')
  {
    hide Reference, Splice, Progress, Bswap, SetWrites, FinalWrite, Covered, Apply, LoadBlock, LoadReg, Avx2Low;
    var run := buf[p..p + 64];
    var ws := SetWrites(Avx2, w, run, 0, Avx2Low(cbc, run), LoadReg(run, 24, 8));
    Avx2OneSetFinal(w, run, st, cbc);
    ReachedRun(Avx2, w, iv, before, buf[..], off, n, p, st, 64, ws);
    Avx2FirstChains(run, st, cbc);
    IssueWrites(buf, p, run, ws);
    cbc', st' := ShiftRight192(LoadReg(run, 32, 8)), LastBlock(run, 64, st);
  }

  /** `decrypt_multi2_with_avx2`. */
  method DecryptWithAvx2(w: Key, iv: Block<word>, buf: array<byte>, off: nat, n: nat)
    requires off + n <= buf.Length
    modifies buf
    ensures buf[..] == Splice(old(buf[..]), off, Reference(w, 4).DecryptBytes(iv, old(buf[off..off + n])))
  {
    hide Reference, Splice, Progress, Bswap, Avx2Writes, SetWrites, FinalWrite, Covered, Apply, LoadBlock, LoadReg,
      Avx2Low;
    ghost var before := buf[..];
    var cbc := [Bswap(iv.left), Bswap(iv.right), 0, 0, 0, 0, 0, 0];
    BswapTwice(iv.left);
    BswapTwice(iv.right);
    ProgressStart(Decryptor(Reference(w, ROUNDS)), iv, before, off, n);
    if n == 184 {
      DecryptAvx184(w, iv, buf, off, cbc);
      return;
    }
    var p, size := off, n;
    ghost var st := iv;
    while size >= 64
      invariant p + size == off + n
      invariant CarriesAlone(cbc, st)
      invariant Reached(w, iv, before, buf[..], off, n, p, st)
    {
      cbc, st := DecryptAvxSet(w, iv, before, buf, off, n, p, cbc, st);
      p, size := p + 64, size - 64;
    }
    SimdRest(w, iv, before, buf, off, n, p, size, Block(Bswap(cbc[0]), Bswap(cbc[1])));
  }
}
