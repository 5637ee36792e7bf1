/** The block types of the fast forms: how each loads, chains and stores several blocks at once. */
module Multi2Forms {
  import opened Bytes
  import opened Multi2
  import opened Multi2Arith
  import opened Multi2Cbc
  import opened Multi2Vector

  datatype Form =
    | Ymm2        // two AVX2 registers, 15 blocks, one of them held twice
    | Ymm         // one AVX2 register, 8 blocks
    | XmmShuffle  // one SSE register with SSSE3 byte shuffles, 4 blocks
    | XmmUnpack   // one SSE register with SSE2 only, 4 blocks
    | Neon        // one NEON register, 4 blocks
    | Neon7       // two NEON registers, 7 blocks, one of them held twice
    | Neon8       // two NEON registers, 8 blocks

  function Blocks(f: Form): nat {
    match f
    case Ymm2 => 15
    case Ymm => 8
    case XmmShuffle => 4
    case XmmUnpack => 4
    case Neon => 4
    case Neon7 => 7
    case Neon8 => 8
  }

  function Lanes(f: Form): nat {
    match f
    case Ymm2 => 16
    case Ymm => 8
    case XmmShuffle => 4
    case XmmUnpack => 4
    case Neon => 4
    case Neon7 => 8
    case Neon8 => 8
  }

  /** The block each lane holds after a load. */
  function Order(f: Form): (r: seq<nat>)
    ensures |r| == Lanes(f)
    ensures forall i :: 0 <= i < |r| ==> r[i] < Blocks(f)
  {
    match f
    case Ymm2 => [0, 4, 1, 5, 2, 6, 3, 7, 7, 11, 8, 12, 9, 13, 10, 14]
    case Ymm => [0, 4, 1, 5, 2, 6, 3, 7]
    case XmmShuffle => [0, 2, 1, 3]
    case XmmUnpack => [0, 1, 2, 3]
    case Neon => [0, 1, 2, 3]
    case Neon7 => [0, 1, 2, 3, 3, 4, 5, 6]
    case Neon8 => [0, 1, 2, 3, 4, 5, 6, 7]
  }

  /** The lane whose bytes end up in each block after a store. */
  function Winner(f: Form): (r: seq<nat>)
    ensures |r| == Blocks(f)
    ensures forall j :: 0 <= j < |r| ==> r[j] < Lanes(f) && Order(f)[r[j]] == j
  {
    match f
    case Ymm2 => [0, 2, 4, 6, 1, 3, 5, 7, 10, 12, 14, 9, 11, 13, 15]
    case Ymm => [0, 2, 4, 6, 1, 3, 5, 7]
    case XmmShuffle => [0, 2, 1, 3]
    case XmmUnpack => [0, 1, 2, 3]
    case Neon => [0, 1, 2, 3]
    case Neon7 => [0, 1, 2, 3, 5, 6, 7]
    case Neon8 => [0, 1, 2, 3, 4, 5, 6, 7]
  }

  // ---- Loads ----

  function LoadYmm(s: seq<byte>, off: nat): (b: Block<Vec>)
    requires off + 64 <= |s|
    ensures |b.left| == |b.right| == 8
  {
    var b0 := ShuffleBytes(LoadReg(s, off, 8), SWAP_MASK);
    var b1 := ShuffleBytes(LoadReg(s, off + 32, 8), SWAP_MASK);
    Block(UnpackLo8(b0, b1), UnpackHi8(b0, b1))
  }

  function LoadXmmShuffle(s: seq<byte>): (b: Block<Vec>)
    requires 32 <= |s|
    ensures |b.left| == |b.right| == 4
  {
    var b0 := ShuffleBytes(LoadReg(s, 0, 4), SWAP_MASK);
    var b1 := ShuffleBytes(LoadReg(s, 16, 4), SWAP_MASK);
    Block(UnpackLo4(b0, b1), UnpackHi4(b0, b1))
  }

  /** Swaps the bytes inside each 16-bit half. */
  function ByteSwap16(w: word): word { Join(Byte2(w), Byte3(w), Byte0(w), Byte1(w)) }

  lemma SwapsCompose(w: word)
    ensures ByteSwap16(ReverseHalfwords(w)) == Bswap(w)
    ensures ReverseHalfwords(ByteSwap16(w)) == Bswap(w)
  {
    hide Join, Byte0, Byte1, Byte2, Byte3;
    JoinBytes(Byte1(w), Byte0(w), Byte3(w), Byte2(w));
    JoinBytes(Byte2(w), Byte3(w), Byte0(w), Byte1(w));
  }

  function LoadXmmUnpack(s: seq<byte>): (b: Block<Vec>)
    requires 32 <= |s|
    ensures |b.left| == |b.right| == 4
  {
    var a0, a1 := LoadReg(s, 0, 4), LoadReg(s, 16, 4);
    var b0, b1 := UnpackLo4(a0, a1), UnpackHi4(a0, a1);
    var swap := (w: word) => ByteSwap16(ReverseHalfwords(w));
    Block(Map(swap, UnpackLo4(b0, b1)), Map(swap, UnpackHi4(b0, b1)))
  }

  /** A two-way de-interleaving load of four pairs, then a byte reversal of each lane. */
  function LoadNeon(s: seq<byte>, off: nat): (b: Block<Vec>)
    requires off + 32 <= |s|
    ensures |b.left| == |b.right| == 4
  {
    var a := LoadReg(s, off, 8);
    var rev := (w: word) => Bswap(w);
    Block(Map(rev, Permute(a, [0, 2, 4, 6])), Map(rev, Permute(a, [1, 3, 5, 7])))
  }

  function Pair(a: Block<Vec>, b: Block<Vec>): Block<Vec> { Block(a.left + b.left, a.right + b.right) }

  function Load(f: Form, run: seq<byte>): (b: Block<Vec>)
    requires |run| == 8 * Blocks(f)
    ensures |b.left| == |b.right| == Lanes(f)
  {
    match f
    case Ymm2 => Pair(LoadYmm(run, 0), LoadYmm(run, 56))
    case Ymm => LoadYmm(run, 0)
    case XmmShuffle => LoadXmmShuffle(run)
    case XmmUnpack => LoadXmmUnpack(run)
    case Neon => LoadNeon(run, 0)
    case Neon7 => Pair(LoadNeon(run, 0), LoadNeon(run, 24))
    case Neon8 => Pair(LoadNeon(run, 0), LoadNeon(run, 32))
  }

  lemma LoadYmmLanes(s: seq<byte>, off: nat, i: nat)
    requires off + 64 <= |s| && i < 8
    ensures Lane(LoadYmm(s, off), i) == LoadBlock(s, off + 8 * Order(Ymm)[i])
  {
    hide Join, LoadLe, LoadBe, Bswap, ShuffleBytes;
    var a0, a1 := LoadReg(s, off, 8), LoadReg(s, off + 32, 8);
    forall k | 0 <= k < 8
      ensures k / 4 * 4 + SWAP_ORDER[k % 4] < 8
      ensures ShuffleBytes(a0, SWAP_MASK)[k] == LoadBe(s, off + 4 * (k / 4 * 4 + SWAP_ORDER[k % 4]))
      ensures ShuffleBytes(a1, SWAP_MASK)[k] == LoadBe(s, off + 32 + 4 * (k / 4 * 4 + SWAP_ORDER[k % 4]))
    {
      SwapMaskDword(a0, k);
      SwapMaskDword(a1, k);
      BswapLoad(s, off + 4 * (k / 4 * 4 + SWAP_ORDER[k % 4]));
      BswapLoad(s, off + 32 + 4 * (k / 4 * 4 + SWAP_ORDER[k % 4]));
    }
    assert i == 0 || i == 1 || i == 2 || i == 3 || i == 4 || i == 5 || i == 6 || i == 7;
  }

  lemma LoadXmmShuffleLanes(s: seq<byte>, i: nat)
    requires 32 <= |s| && i < 4
    ensures Lane(LoadXmmShuffle(s), i) == LoadBlock(s, 8 * Order(XmmShuffle)[i])
  {
    hide Join, LoadLe, LoadBe, Bswap, ShuffleBytes;
    var a0, a1 := LoadReg(s, 0, 4), LoadReg(s, 16, 4);
    forall k | 0 <= k < 4
      ensures k / 4 * 4 + SWAP_ORDER[k % 4] < 4
      ensures ShuffleBytes(a0, SWAP_MASK)[k] == LoadBe(s, 4 * (k / 4 * 4 + SWAP_ORDER[k % 4]))
      ensures ShuffleBytes(a1, SWAP_MASK)[k] == LoadBe(s, 16 + 4 * (k / 4 * 4 + SWAP_ORDER[k % 4]))
    {
      SwapMaskDword(a0, k);
      SwapMaskDword(a1, k);
      BswapLoad(s, 4 * (k / 4 * 4 + SWAP_ORDER[k % 4]));
      BswapLoad(s, 16 + 4 * (k / 4 * 4 + SWAP_ORDER[k % 4]));
    }
    assert i == 0 || i == 1 || i == 2 || i == 3;
  }

  lemma LoadXmmUnpackLanes(s: seq<byte>, i: nat)
    requires 32 <= |s| && i < 4
    ensures Lane(LoadXmmUnpack(s), i) == LoadBlock(s, 8 * i)
  {
    hide Join, LoadLe, LoadBe, Bswap, ByteSwap16, ReverseHalfwords;
    SwapsCompose(LoadLe(s, 8 * i));
    SwapsCompose(LoadLe(s, 8 * i + 4));
    BswapLoad(s, 8 * i);
    BswapLoad(s, 8 * i + 4);
    assert i == 0 || i == 1 || i == 2 || i == 3;
  }

  lemma LoadNeonLanes(s: seq<byte>, off: nat, i: nat)
    requires off + 32 <= |s| && i < 4
    ensures Lane(LoadNeon(s, off), i) == LoadBlock(s, off + 8 * i)
  {
    hide Join, LoadLe, LoadBe, Bswap;
    BswapLoad(s, off + 8 * i);
    BswapLoad(s, off + 8 * i + 4);
    assert i == 0 || i == 1 || i == 2 || i == 3;
  }

  lemma PairLanes(a: Block<Vec>, b: Block<Vec>, i: nat)
    requires |a.left| == |a.right| && |b.left| == |b.right| && i < |a.left| + |b.left|
    ensures Lane(Pair(a, b), i) == if i < |a.left| then Lane(a, i) else Lane(b, i - |a.left|)
  {
  }

  /** Every lane of a loaded block is the block of the buffer that `Order` names. */
  lemma LoadLanes(f: Form, run: seq<byte>, i: nat)
    requires |run| == 8 * Blocks(f) && i < Lanes(f)
    ensures Lane(Load(f, run), i) == LoadBlock(run, 8 * Order(f)[i])
  {
    hide LoadBlock, LoadYmm, LoadXmmShuffle, LoadXmmUnpack, LoadNeon, Pair, Lane;
    match f
    case Ymm2 =>
      PairLanes(LoadYmm(run, 0), LoadYmm(run, 56), i);
      if i < 8 {
        LoadYmmLanes(run, 0, i);
      } else {
        LoadYmmLanes(run, 56, i - 8);
        assert Order(Ymm2)[i] == 7 + Order(Ymm)[i - 8];
      }
    case Ymm => LoadYmmLanes(run, 0, i);
    case XmmShuffle => LoadXmmShuffleLanes(run, i);
    case XmmUnpack => LoadXmmUnpackLanes(run, i);
    case Neon => LoadNeonLanes(run, 0, i);
    case Neon7 =>
      PairLanes(LoadNeon(run, 0), LoadNeon(run, 24), i);
      if i < 4 {
        LoadNeonLanes(run, 0, i);
      } else {
        LoadNeonLanes(run, 24, i - 4);
      }
    case Neon8 =>
      PairLanes(LoadNeon(run, 0), LoadNeon(run, 32), i);
      if i < 4 {
        LoadNeonLanes(run, 0, i);
      } else {
        LoadNeonLanes(run, 32, i - 4);
      }
  }

  // ---- Chaining ----

  /** What each lane is combined with after decryption: the lanes shifted by one block, with the state in front. */
  function Shifted(f: Form, c: Vec, st: word): (r: Vec)
    requires |c| == Lanes(f)
    ensures |r| == Lanes(f)
  {
    match f
    case Ymm2 =>
      var s := [7, 6, 0, 1, 2, 3, 4, 5];
      Permute(c[..8], s)[0 := st] + Permute(c[8..], s)
    case Ymm => Permute(c, [7, 6, 0, 1, 2, 3, 4, 5])[0 := st]
    case XmmShuffle => Permute(c, [3, 2, 0, 1])[0 := st]
    case XmmUnpack => Permute(c, [3, 0, 1, 2])[0 := st]
    case Neon => Permute(c, [3, 0, 1, 2])[0 := st]
    case Neon7 => Permute(c[..4], [3, 0, 1, 2])[0 := st] + [c[3], c[4], c[5], c[6]]
    case Neon8 => Permute(c[..4], [3, 0, 1, 2])[0 := st] + [c[3], c[4], c[5], c[6]]
  }

  function Post(f: Form, xor: (word, word) -> word, d: Block<Vec>, c: Block<Vec>, st: Block<word>): (r: Block<Vec>)
    requires |d.left| == |d.right| == |c.left| == |c.right| == Lanes(f)
    ensures |r.left| == |r.right| == Lanes(f)
  {
    Block(Zip(xor, d.left, Shifted(f, c.left, st.left)), Zip(xor, d.right, Shifted(f, c.right, st.right)))
  }

  /** The lane holding the block before block `j`, as the shift of block `j`'s winning lane sees it. */
  function Before(f: Form, j: nat): (k: nat)
    requires 0 < j < Blocks(f)
    ensures k < Lanes(f) && Order(f)[k] == j - 1
  {
    if f == Ymm2 && j == 8 then 8
    else if f == Neon7 && j == 4 then 4
    else Winner(f)[j - 1]
  }

  /** The eight-lane permutation shared by the AVX2 forms, on the lanes that can win. */
  lemma YmmPermuted(v: Vec, j: nat)
    requires |v| == 8 && 0 < j < 8
    ensures Permute(v, [7, 6, 0, 1, 2, 3, 4, 5])[Winner(Ymm)[j]] == v[Winner(Ymm)[j - 1]]
  {
    assert j == 1 || j == 2 || j == 3 || j == 4 || j == 5 || j == 6 || j == 7;
  }

  lemma ShiftedYmm2(c: Vec, st: word, j: nat)
    requires |c| == Lanes(Ymm2) && j < Blocks(Ymm2)
    ensures Shifted(Ymm2, c, st)[Winner(Ymm2)[j]] == if j == 0 then st else c[Before(Ymm2, j)]
  {
    hide Permute;
    if 0 < j < 8 {
      YmmPermuted(c[..8], j);
    } else if j >= 8 {
      assert Winner(Ymm2)[j] == 8 + Winner(Ymm)[j - 7];
      assert Before(Ymm2, j) == 8 + Winner(Ymm)[j - 8];
      YmmPermuted(c[8..], j - 7);
    }
  }

  lemma ShiftedYmm(c: Vec, st: word, j: nat)
    requires |c| == Lanes(Ymm) && j < Blocks(Ymm)
    ensures Shifted(Ymm, c, st)[Winner(Ymm)[j]] == if j == 0 then st else c[Before(Ymm, j)]
  {
    assert j == 0 || j == 1 || j == 2 || j == 3 || j == 4 || j == 5 || j == 6 || j == 7;
  }

  lemma ShiftedXmmShuffle(c: Vec, st: word, j: nat)
    requires |c| == Lanes(XmmShuffle) && j < Blocks(XmmShuffle)
    ensures Shifted(XmmShuffle, c, st)[Winner(XmmShuffle)[j]] == if j == 0 then st else c[Before(XmmShuffle, j)]
  {
    assert j == 0 || j == 1 || j == 2 || j == 3;
  }

  lemma ShiftedXmmUnpack(c: Vec, st: word, j: nat)
    requires |c| == Lanes(XmmUnpack) && j < Blocks(XmmUnpack)
    ensures Shifted(XmmUnpack, c, st)[Winner(XmmUnpack)[j]] == if j == 0 then st else c[Before(XmmUnpack, j)]
  {
    assert j == 0 || j == 1 || j == 2 || j == 3;
  }

  lemma ShiftedNeon(c: Vec, st: word, j: nat)
    requires |c| == Lanes(Neon) && j < Blocks(Neon)
    ensures Shifted(Neon, c, st)[Winner(Neon)[j]] == if j == 0 then st else c[Before(Neon, j)]
  {
    assert j == 0 || j == 1 || j == 2 || j == 3;
  }

  lemma ShiftedNeon7(c: Vec, st: word, j: nat)
    requires |c| == Lanes(Neon7) && j < Blocks(Neon7)
    ensures Shifted(Neon7, c, st)[Winner(Neon7)[j]] == if j == 0 then st else c[Before(Neon7, j)]
  {
    assert j == 0 || j == 1 || j == 2 || j == 3 || j == 4 || j == 5 || j == 6;
  }

  lemma ShiftedNeon8(c: Vec, st: word, j: nat)
    requires |c| == Lanes(Neon8) && j < Blocks(Neon8)
    ensures Shifted(Neon8, c, st)[Winner(Neon8)[j]] == if j == 0 then st else c[Before(Neon8, j)]
  {
    assert j == 0 || j == 1 || j == 2 || j == 3 || j == 4 || j == 5 || j == 6 || j == 7;
  }

  /** Each winning lane is combined with the block before its own, the first with the chaining state. */
  lemma ShiftedWinner(f: Form, c: Vec, st: word, j: nat)
    requires |c| == Lanes(f) && j < Blocks(f)
    ensures Shifted(f, c, st)[Winner(f)[j]] == if j == 0 then st else c[Before(f, j)]
  {
    hide Shifted, Before, Winner;
    match f
    case Ymm2 => ShiftedYmm2(c, st, j);
    case Ymm => ShiftedYmm(c, st, j);
    case XmmShuffle => ShiftedXmmShuffle(c, st, j);
    case XmmUnpack => ShiftedXmmUnpack(c, st, j);
    case Neon => ShiftedNeon(c, st, j);
    case Neon7 => ShiftedNeon7(c, st, j);
    case Neon8 => ShiftedNeon8(c, st, j);
  }

  // ---- Stores ----

  datatype Write = Write(off: nat, data: seq<byte>)

  ghost function Apply(run: seq<byte>, ws: seq<Write>): (r: seq<byte>)
    requires Fit(ws, |run|)
    ensures |r| == |run|
  {
    if |ws| == 0 then run
    else Splice(Apply(run, ws[..|ws| - 1]), ws[|ws| - 1].off, ws[|ws| - 1].data)
  }

  function YmmLow(x: Block<Vec>): (r: Vec)
    requires |x.left| == |x.right| == 8
    ensures |r| == 8
  {
    UnpackLo8(ShuffleBytes(x.left, SWAP_MASK), ShuffleBytes(x.right, SWAP_MASK))
  }

  function YmmHigh(x: Block<Vec>): (r: Vec)
    requires |x.left| == |x.right| == 8
    ensures |r| == 8
  {
    UnpackHi8(ShuffleBytes(x.left, SWAP_MASK), ShuffleBytes(x.right, SWAP_MASK))
  }

  function XmmLow(x: Block<Vec>): (r: Vec)
    requires |x.left| == |x.right| == 4
    ensures |r| == 4
  {
    UnpackLo4(ShuffleBytes(x.left, SWAP_MASK), ShuffleBytes(x.right, SWAP_MASK))
  }

  function XmmHigh(x: Block<Vec>): (r: Vec)
    requires |x.left| == |x.right| == 4
    ensures |r| == 4
  {
    UnpackHi4(ShuffleBytes(x.left, SWAP_MASK), ShuffleBytes(x.right, SWAP_MASK))
  }

  function SwapAll(v: Vec): (r: Vec)
    ensures |r| == |v|
  {
    Map((w: word) => ReverseHalfwords(ByteSwap16(w)), v)
  }

  /** The byte-reversed lanes of an interleaving store of four pairs. */
  function NeonPairs(x: Block<Vec>): (r: Vec)
    requires |x.left| == |x.right| == 4
    ensures |r| == 8
  {
    var l, r := Map((w: word) => Bswap(w), x.left), Map((w: word) => Bswap(w), x.right);
    [l[0], r[0], l[1], r[1], l[2], r[2], l[3], r[3]]
  }

  function First(x: Block<Vec>, n: nat): (r: Block<Vec>)
    requires n <= |x.left| == |x.right|
    ensures |r.left| == |r.right| == n
  {
    Block(x.left[..n], x.right[..n])
  }

  function Last(x: Block<Vec>, n: nat): (r: Block<Vec>)
    requires n <= |x.left| == |x.right|
    ensures |r.left| == |r.right| == |x.left| - n
  {
    Block(x.left[n..], x.right[n..])
  }

  ghost predicate Fit(ws: seq<Write>, n: nat) {
    forall i :: 0 <= i < |ws| ==> ws[i].off + |ws[i].data| <= n
  }

  /** Four 32-byte stores, the middle two overlapping in the 8 bytes at 56. */
  function OverlappingWrites(r0: Vec, r1: Vec, r2: Vec, r3: Vec): (ws: seq<Write>)
    requires |r0| == |r1| == |r2| == |r3| == 8
    ensures Fit(ws, 120)
  {
    [Write(0, StoreReg(r0)), Write(56, StoreReg(r1)), Write(32, StoreReg(r2)), Write(88, StoreReg(r3))]
  }

  function AdjacentWrites(r0: Vec, r1: Vec): (ws: seq<Write>)
    requires |r0| == |r1|
    ensures Fit(ws, 8 * |r0|)
  {
    [Write(0, StoreReg(r0)), Write(4 * |r0|, StoreReg(r1))]
  }

  function StoresYmm2(x: Block<Vec>): (ws: seq<Write>)
    requires |x.left| == |x.right| == 16
    ensures Fit(ws, 120)
  {
    var x0, x1 := First(x, 8), Last(x, 8);
    OverlappingWrites(YmmLow(x0), YmmLow(x1), YmmHigh(x0), YmmHigh(x1))
  }

  function StoresYmm(x: Block<Vec>): (ws: seq<Write>)
    requires |x.left| == |x.right| == 8
    ensures Fit(ws, 64)
  {
    AdjacentWrites(YmmLow(x), YmmHigh(x))
  }

  function StoresXmmShuffle(x: Block<Vec>): (ws: seq<Write>)
    requires |x.left| == |x.right| == 4
    ensures Fit(ws, 32)
  {
    AdjacentWrites(XmmLow(x), XmmHigh(x))
  }

  function StoresXmmUnpack(x: Block<Vec>): (ws: seq<Write>)
    requires |x.left| == |x.right| == 4
    ensures Fit(ws, 32)
  {
    var l, r := SwapAll(x.left), SwapAll(x.right);
    AdjacentWrites(UnpackLo4(l, r), UnpackHi4(l, r))
  }

  /** The second register is stored first, `d` dwords in, and the first register over it. */
  function StoresNeon2(x: Block<Vec>, d: nat): (ws: seq<Write>)
    requires |x.left| == |x.right| == 8
    ensures Fit(ws, 4 * d + 32)
  {
    [Write(4 * d, StoreReg(NeonPairs(Last(x, 4)))), Write(0, StoreReg(NeonPairs(First(x, 4))))]
  }

  /** The writes of a store, in the order the source issues them. */
  function Stores(f: Form, x: Block<Vec>): (ws: seq<Write>)
    requires |x.left| == |x.right| == Lanes(f)
    ensures Fit(ws, 8 * Blocks(f))
  {
    match f
    case Ymm2 => StoresYmm2(x)
    case Ymm => StoresYmm(x)
    case XmmShuffle => StoresXmmShuffle(x)
    case XmmUnpack => StoresXmmUnpack(x)
    case Neon => [Write(0, StoreReg(NeonPairs(x)))]
    case Neon7 => StoresNeon2(x, 6)
    case Neon8 => StoresNeon2(x, 8)
  }

  lemma YmmDwords(x: Block<Vec>, t: nat)
    requires |x.left| == |x.right| == 8 && t < 4
    ensures YmmLow(x)[2 * t] == Bswap(x.left[2 * t]) && YmmLow(x)[2 * t + 1] == Bswap(x.right[2 * t])
    ensures YmmHigh(x)[2 * t] == Bswap(x.left[2 * t + 1]) && YmmHigh(x)[2 * t + 1] == Bswap(x.right[2 * t + 1])
  {
    hide Bswap, ShuffleBytes;
    forall k | 0 <= k < 8
      ensures k / 4 * 4 + SWAP_ORDER[k % 4] < 8
      ensures ShuffleBytes(x.left, SWAP_MASK)[k] == Bswap(x.left[k / 4 * 4 + SWAP_ORDER[k % 4]])
      ensures ShuffleBytes(x.right, SWAP_MASK)[k] == Bswap(x.right[k / 4 * 4 + SWAP_ORDER[k % 4]])
    {
      SwapMaskDword(x.left, k);
      SwapMaskDword(x.right, k);
    }
    assert t == 0 || t == 1 || t == 2 || t == 3;
  }

  /** A stored register pair whose interleaved dwords are byte-reversed lanes holds those lanes as blocks. */
  lemma StoredPair(r: Vec, t: nat, l: word, h: word)
    requires 2 * t + 1 < |r| && r[2 * t] == Bswap(l) && r[2 * t + 1] == Bswap(h)
    ensures LoadBlock(StoreReg(r), 8 * t) == Block(l, h)
  {
    hide LoadBe, Bswap, StoreReg;
    StoreRegDword(r, 2 * t);
    StoreRegDword(r, 2 * t + 1);
    BswapTwice(l);
    BswapTwice(h);
  }

  lemma YmmStored(x: Block<Vec>, t: nat)
    requires |x.left| == |x.right| == 8 && t < 4
    ensures LoadBlock(StoreReg(YmmLow(x)), 8 * t) == Lane(x, 2 * t)
    ensures LoadBlock(StoreReg(YmmHigh(x)), 8 * t) == Lane(x, 2 * t + 1)
  {
    hide LoadBlock, Bswap, StoreReg, YmmLow, YmmHigh;
    YmmDwords(x, t);
    StoredPair(YmmLow(x), t, x.left[2 * t], x.right[2 * t]);
    StoredPair(YmmHigh(x), t, x.left[2 * t + 1], x.right[2 * t + 1]);
  }

  lemma XmmShuffleStored(x: Block<Vec>, t: nat)
    requires |x.left| == |x.right| == 4 && t < 2
    ensures LoadBlock(StoreReg(XmmLow(x)), 8 * t) == Lane(x, 2 * t)
    ensures LoadBlock(StoreReg(XmmHigh(x)), 8 * t) == Lane(x, 2 * t + 1)
  {
    hide Join, LoadBe, Bswap, ShuffleBytes, StoreReg;
    forall k | 0 <= k < 4
      ensures k / 4 * 4 + SWAP_ORDER[k % 4] < 4
      ensures ShuffleBytes(x.left, SWAP_MASK)[k] == Bswap(x.left[k / 4 * 4 + SWAP_ORDER[k % 4]])
      ensures ShuffleBytes(x.right, SWAP_MASK)[k] == Bswap(x.right[k / 4 * 4 + SWAP_ORDER[k % 4]])
    {
      SwapMaskDword(x.left, k);
      SwapMaskDword(x.right, k);
    }
    StoreRegDword(XmmLow(x), 2 * t);
    StoreRegDword(XmmLow(x), 2 * t + 1);
    StoreRegDword(XmmHigh(x), 2 * t);
    StoreRegDword(XmmHigh(x), 2 * t + 1);
    BswapTwice(x.left[2 * t]);
    BswapTwice(x.right[2 * t]);
    BswapTwice(x.left[2 * t + 1]);
    BswapTwice(x.right[2 * t + 1]);
    assert t == 0 || t == 1;
  }

  lemma XmmUnpackStored(x: Block<Vec>, t: nat)
    requires |x.left| == |x.right| == 4 && t < 2
    ensures var l, r := SwapAll(x.left), SwapAll(x.right);
      && LoadBlock(StoreReg(UnpackLo4(l, r)), 8 * t) == Lane(x, t)
      && LoadBlock(StoreReg(UnpackHi4(l, r)), 8 * t) == Lane(x, t + 2)
  {
    hide Join, LoadBe, Bswap, ReverseHalfwords, ByteSwap16, StoreReg;
    var l, r := SwapAll(x.left), SwapAll(x.right);
    forall k | 0 <= k < 4
      ensures l[k] == Bswap(x.left[k]) && r[k] == Bswap(x.right[k])
    {
      SwapsCompose(x.left[k]);
      SwapsCompose(x.right[k]);
    }
    StoreRegDword(UnpackLo4(l, r), 2 * t);
    StoreRegDword(UnpackLo4(l, r), 2 * t + 1);
    StoreRegDword(UnpackHi4(l, r), 2 * t);
    StoreRegDword(UnpackHi4(l, r), 2 * t + 1);
    BswapTwice(x.left[t]);
    BswapTwice(x.right[t]);
    BswapTwice(x.left[t + 2]);
    BswapTwice(x.right[t + 2]);
    assert t == 0 || t == 1;
  }

  lemma NeonPairsDwords(x: Block<Vec>, t: nat)
    requires |x.left| == |x.right| == 4 && t < 4
    ensures NeonPairs(x)[2 * t] == Bswap(x.left[t]) && NeonPairs(x)[2 * t + 1] == Bswap(x.right[t])
  {
    hide Bswap;
    assert t == 0 || t == 1 || t == 2 || t == 3;
  }

  lemma NeonStored(x: Block<Vec>, t: nat)
    requires |x.left| == |x.right| == 4 && t < 4
    ensures LoadBlock(StoreReg(NeonPairs(x)), 8 * t) == Lane(x, t)
  {
    hide LoadBlock, Bswap, StoreReg, NeonPairs;
    NeonPairsDwords(x, t);
    StoredPair(NeonPairs(x), t, x.left[t], x.right[t]);
  }

  lemma SpliceBlock(s: seq<byte>, w: Write, k: nat)
    requires w.off + |w.data| <= |s| && k + 8 <= |s|
    ensures w.off <= k && k + 8 <= w.off + |w.data| ==>
      LoadBlock(Splice(s, w.off, w.data), k) == LoadBlock(w.data, k - w.off)
    ensures k + 8 <= w.off || w.off + |w.data| <= k ==>
      LoadBlock(Splice(s, w.off, w.data), k) == LoadBlock(s, k)
  {
    hide Splice, Join;
  }

  /** A block of the result is decided by the last write that covers it. */
  lemma ApplyBlock(run: seq<byte>, ws: seq<Write>, k: nat)
    requires |ws| > 0 && k + 8 <= |run|
    requires Fit(ws, |run|)
    ensures var w := ws[|ws| - 1];
      && (w.off <= k && k + 8 <= w.off + |w.data| ==> LoadBlock(Apply(run, ws), k) == LoadBlock(w.data, k - w.off))
      && (k + 8 <= w.off || w.off + |w.data| <= k ==>
            LoadBlock(Apply(run, ws), k) == LoadBlock(Apply(run, ws[..|ws| - 1]), k))
  {
    hide Splice, LoadBlock;
    SpliceBlock(Apply(run, ws[..|ws| - 1]), ws[|ws| - 1], k);
  }

  /** Which of the four overlapping writes decides a block. */
  lemma OverlappingResult(run: seq<byte>, r0: Vec, r1: Vec, r2: Vec, r3: Vec, j: nat)
    requires |run| == 120 && |r0| == |r1| == |r2| == |r3| == 8 && j < 15
    ensures LoadBlock(Apply(run, OverlappingWrites(r0, r1, r2, r3)), 8 * j)
      == if j < 4 then LoadBlock(StoreReg(r0), 8 * j)
         else if j < 8 then LoadBlock(StoreReg(r2), 8 * (j - 4))
         else if j < 11 then LoadBlock(StoreReg(r1), 8 * (j - 7))
         else LoadBlock(StoreReg(r3), 8 * (j - 11))
  {
    hide LoadBlock, Apply, StoreReg;
    var ws := OverlappingWrites(r0, r1, r2, r3);
    assert ws[..3][..2] == ws[..2] && ws[..2][..1] == ws[..1];
    ApplyBlock(run, ws, 8 * j);
    ApplyBlock(run, ws[..3], 8 * j);
    ApplyBlock(run, ws[..2], 8 * j);
    ApplyBlock(run, ws[..1], 8 * j);
  }

  lemma Ymm2Result(run: seq<byte>, x: Block<Vec>, j: nat)
    requires |run| == 120 && |x.left| == |x.right| == 16 && j < 15
    ensures LoadBlock(Apply(run, StoresYmm2(x)), 8 * j) == Lane(x, Winner(Ymm2)[j])
  {
    hide LoadBlock, Apply, YmmLow, YmmHigh, StoreReg, OverlappingWrites;
    var x0, x1 := First(x, 8), Last(x, 8);
    OverlappingResult(run, YmmLow(x0), YmmLow(x1), YmmHigh(x0), YmmHigh(x1), j);
    if j < 4 {
      YmmStored(x0, j);
    } else if j < 8 {
      YmmStored(x0, j - 4);
    } else if j < 11 {
      YmmStored(x1, j - 7);
    } else {
      YmmStored(x1, j - 11);
    }
  }

  lemma YmmResult(run: seq<byte>, x: Block<Vec>, j: nat)
    requires |run| == 64 && |x.left| == |x.right| == 8 && j < 8
    ensures LoadBlock(Apply(run, StoresYmm(x)), 8 * j) == Lane(x, Winner(Ymm)[j])
  {
    hide LoadBlock, Apply, YmmLow, YmmHigh, StoreReg;
    var ws := StoresYmm(x);
    ApplyBlock(run, ws, 8 * j);
    ApplyBlock(run, ws[..1], 8 * j);
    YmmStored(x, j % 4);
  }

  lemma XmmShuffleResult(run: seq<byte>, x: Block<Vec>, j: nat)
    requires |run| == 32 && |x.left| == |x.right| == 4 && j < 4
    ensures LoadBlock(Apply(run, StoresXmmShuffle(x)), 8 * j) == Lane(x, Winner(XmmShuffle)[j])
  {
    hide LoadBlock, Apply, XmmLow, XmmHigh, StoreReg;
    var ws := StoresXmmShuffle(x);
    ApplyBlock(run, ws, 8 * j);
    ApplyBlock(run, ws[..1], 8 * j);
    XmmShuffleStored(x, j % 2);
  }

  lemma XmmUnpackResult(run: seq<byte>, x: Block<Vec>, j: nat)
    requires |run| == 32 && |x.left| == |x.right| == 4 && j < 4
    ensures LoadBlock(Apply(run, StoresXmmUnpack(x)), 8 * j) == Lane(x, Winner(XmmUnpack)[j])
  {
    hide LoadBlock, Apply, SwapAll, StoreReg;
    var ws := StoresXmmUnpack(x);
    ApplyBlock(run, ws, 8 * j);
    ApplyBlock(run, ws[..1], 8 * j);
    XmmUnpackStored(x, j % 2);
  }

  lemma Neon2Result(run: seq<byte>, x: Block<Vec>, d: nat, j: nat)
    requires d == 6 || d == 8
    requires |run| == 4 * d + 32 && |x.left| == |x.right| == 8 && 8 * j < |run|
    ensures LoadBlock(Apply(run, StoresNeon2(x, d)), 8 * j) == Lane(x, if j < 4 then j else j + 4 - d / 2)
  {
    hide LoadBlock, Apply, NeonPairs, StoreReg;
    var ws := StoresNeon2(x, d);
    ApplyBlock(run, ws, 8 * j);
    ApplyBlock(run, ws[..1], 8 * j);
    if j < 4 {
      NeonStored(First(x, 4), j);
    } else {
      NeonStored(Last(x, 4), j - d / 2);
    }
  }

  /** After the writes, in their order, every block holds the lane that `Winner` names. */
  lemma StoredBlock(f: Form, run: seq<byte>, x: Block<Vec>, j: nat)
    requires |run| == 8 * Blocks(f) && |x.left| == |x.right| == Lanes(f) && j < Blocks(f)
    ensures LoadBlock(Apply(run, Stores(f, x)), 8 * j) == Lane(x, Winner(f)[j])
  {
    hide LoadBlock, Apply, NeonPairs, StoreReg, StoresYmm2, StoresYmm, StoresXmmShuffle, StoresXmmUnpack, StoresNeon2,
      Lane;
    match f
    case Ymm2 => Ymm2Result(run, x, j);
    case Ymm => YmmResult(run, x, j);
    case XmmShuffle => XmmShuffleResult(run, x, j);
    case XmmUnpack => XmmUnpackResult(run, x, j);
    case Neon =>
      ApplyBlock(run, Stores(Neon, x), 8 * j);
      NeonStored(x, j);
    case Neon7 => Neon2Result(run, x, 6, j);
    case Neon8 => Neon2Result(run, x, 8, j);
  }

  // ---- One vector block ----

  /** What `decrypt_block` makes of a run: load, decrypt the lanes, chain, store. */
  ghost function Decrypted(f: Form, fine: Arith<word>, w: Key, rounds: int, st: Block<word>,
                           run: seq<byte>): (out: seq<byte>)
    requires |run| == 8 * Blocks(f)
    ensures |out| == |run|
  {
    var c := Load(f, run);
    VectorDecrypt(fine, c, w, rounds, Lanes(f));
    Apply(run, Stores(f, Post(f, fine.xor, Widen(fine).Decrypt(c, w, rounds), c, st)))
  }

  lemma DecryptedBlock(f: Form, fine: Arith<word>, w: Key, rounds: int, st: Block<word>, run: seq<byte>, j: nat)
    requires |run| == 8 * Blocks(f) && j < Blocks(f)
    ensures var k := Keyed(fine, w, rounds);
      LoadBlock(Decrypted(f, fine, w, rounds, st, run), 8 * j)
        == k.XorBlock(k.Dec(LoadBlock(run, 8 * j)), Chain(st, run, j))
  {
    hide LoadBlock, Load, Widen, Arith.Decrypt, Stores, Apply, Shifted, Winner, Before;
    var c := Load(f, run);
    VectorDecrypt(fine, c, w, rounds, Lanes(f));
    var d := Widen(fine).Decrypt(c, w, rounds);
    var i := Winner(f)[j];
    StoredBlock(f, run, Post(f, fine.xor, d, c, st), j);
    LoadLanes(f, run, i);
    ShiftedWinner(f, c.left, st.left, j);
    ShiftedWinner(f, c.right, st.right, j);
    assert Lane(d, i) == fine.Decrypt(Lane(c, i), w, rounds);
    if j > 0 {
      LoadLanes(f, run, Before(f, j));
    }
  }

  /**
   Every form decrypts a run of its blocks as the scalar form would, one block after the other; this includes the two
   forms that hold one block twice, store it wrongly first and overwrite it.
   */
  lemma FormRun(f: Form, fine: Arith<word>, w: Key, rounds: int, st: Block<word>, run: seq<byte>)
    requires |run| == 8 * Blocks(f)
    ensures Keyed(fine, w, rounds).BlockRun(st, run, Decrypted(f, fine, w, rounds, st, run))
    ensures Lane(Load(f, run), Lanes(f) - 1) == Chain(st, run, Blocks(f))
  {
    hide LoadBlock, Load, Decrypted;
    forall j | 0 <= j < Blocks(f)
      ensures LoadBlock(Decrypted(f, fine, w, rounds, st, run), 8 * j)
        == Keyed(fine, w, rounds).XorBlock(Keyed(fine, w, rounds).Dec(LoadBlock(run, 8 * j)), Chain(st, run, j))
    {
      DecryptedBlock(f, fine, w, rounds, st, run, j);
    }
    LoadLanes(f, run, Lanes(f) - 1);
  }
}
