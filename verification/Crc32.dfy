/** The section checksum: the table-driven loop, the bit-serial division it stands for, and what it detects. */
module Crc32 {
  import opened Bytes
  import opened CrcTable

  // ---- The division, one message bit at a time ----

  function FeedBit(c: word, bit: bool): word {
    if Overflows(c) != bit then Add(TimesX(c), POLYNOMIAL) else TimesX(c)
  }

  /** Bit `k` of a byte, the most significant first. */
  predicate Bit(b: byte, k: bv8)
    requires k < 8
  {
    b & (0x80 >> k) != 0
  }

  function FeedByte(c: word, b: byte): word {
    var c4 := FeedBit(FeedBit(FeedBit(FeedBit(c, Bit(b, 0)), Bit(b, 1)), Bit(b, 2)), Bit(b, 3));
    FeedBit(FeedBit(FeedBit(FeedBit(c4, Bit(b, 4)), Bit(b, 5)), Bit(b, 6)), Bit(b, 7))
  }

  function Feed(c: word, s: seq<byte>): word
    decreases |s|
  {
    if |s| == 0 then c else FeedByte(Feed(c, s[..|s| - 1]), s[|s| - 1])
  }

  /** The checksum of ISO/IEC 13818-1, Annex A: all registers start at one, bits enter most significant first. */
  function Crc(s: seq<byte>): word { Feed(0xffff_ffff, s) }

  // ---- Bit-serial against byte-wise ----

  /** Feeding the top bit of `r` into `s` is one zero step on their sum. */
  lemma FeedBitStep(s: word, r: word)
    ensures ZeroBit(Add(s, r)) == Add(FeedBit(s, Overflows(r)), TimesX(r))
  {
    hide Add, TimesX, Overflows;
    TimesXAdd(s, r);
    OverflowsAdd(s, r);
    var x, y, p := TimesX(s), TimesX(r), POLYNOMIAL;
    AddAssociates(x, y, p);
    AddCommutes(y, p);
    AddAssociates(x, p, y);
  }

  /** A byte at the top of a word after `k` of its bits have been shifted out. */
  function Remaining(b: byte, k: bv8): word
    requires k <= 8
  {
    Top(b) << k
  }

  lemma BitsRemaining(b: byte)
    ensures Bit(b, 0) == Overflows(Remaining(b, 0)) && TimesX(Remaining(b, 0)) == Remaining(b, 1)
    ensures Bit(b, 1) == Overflows(Remaining(b, 1)) && TimesX(Remaining(b, 1)) == Remaining(b, 2)
    ensures Bit(b, 2) == Overflows(Remaining(b, 2)) && TimesX(Remaining(b, 2)) == Remaining(b, 3)
    ensures Bit(b, 3) == Overflows(Remaining(b, 3)) && TimesX(Remaining(b, 3)) == Remaining(b, 4)
    ensures Bit(b, 4) == Overflows(Remaining(b, 4)) && TimesX(Remaining(b, 4)) == Remaining(b, 5)
    ensures Bit(b, 5) == Overflows(Remaining(b, 5)) && TimesX(Remaining(b, 5)) == Remaining(b, 6)
    ensures Bit(b, 6) == Overflows(Remaining(b, 6)) && TimesX(Remaining(b, 6)) == Remaining(b, 7)
    ensures Bit(b, 7) == Overflows(Remaining(b, 7)) && TimesX(Remaining(b, 7)) == Remaining(b, 8)
    ensures Remaining(b, 0) == Top(b) && Remaining(b, 8) == 0
  {
  }

  /** Eight message bits entering one by one are a byte added at the top and eight zero steps. */
  lemma FeedByteIs(c: word, b: byte)
    ensures FeedByte(c, b) == ZeroByte(Add(c, Top(b)))
  {
    hide ZeroBit, FeedBit, Add, TimesX, Overflows, Bit, Top, Remaining;
    BitsRemaining(b);
    var c1 := FeedBit(c, Bit(b, 0));
    var c2 := FeedBit(c1, Bit(b, 1));
    var c3 := FeedBit(c2, Bit(b, 2));
    var c4 := FeedBit(c3, Bit(b, 3));
    var c5 := FeedBit(c4, Bit(b, 4));
    var c6 := FeedBit(c5, Bit(b, 5));
    var c7 := FeedBit(c6, Bit(b, 6));
    FeedBitStep(c, Remaining(b, 0));
    FeedBitStep(c1, Remaining(b, 1));
    FeedBitStep(c2, Remaining(b, 2));
    FeedBitStep(c3, Remaining(b, 3));
    FeedBitStep(c4, Remaining(b, 4));
    FeedBitStep(c5, Remaining(b, 5));
    FeedBitStep(c6, Remaining(b, 6));
    FeedBitStep(c7, Remaining(b, 7));
    AddCancels(FeedBit(c7, Bit(b, 7)), 0);
  }

  /** The part of a word below its top byte. */
  function Low(c: word): word { c & 0x00ff_ffff }

  function ShiftByte(c: word): word { c << 8 }

  function TopByte(c: word): byte { (c >> 24) as bv8 }

  lemma LowSteps(c: word)
    ensures !Overflows(Low(c)) && TimesX(Low(c)) == Low(c) << 1
    ensures !Overflows(Low(c) << 1) && TimesX(Low(c) << 1) == Low(c) << 2
    ensures !Overflows(Low(c) << 2) && TimesX(Low(c) << 2) == Low(c) << 3
    ensures !Overflows(Low(c) << 3) && TimesX(Low(c) << 3) == Low(c) << 4
    ensures !Overflows(Low(c) << 4) && TimesX(Low(c) << 4) == Low(c) << 5
    ensures !Overflows(Low(c) << 5) && TimesX(Low(c) << 5) == Low(c) << 6
    ensures !Overflows(Low(c) << 6) && TimesX(Low(c) << 6) == Low(c) << 7
    ensures !Overflows(Low(c) << 7) && TimesX(Low(c) << 7) == Low(c) << 8
  {
  }

  lemma ShiftByteIs(c: word)
    ensures ShiftByte(c) == c << 8
  {
  }

  /** A word with an empty top byte is only shifted. */
  lemma ZeroByteLow(c: word)
    ensures ZeroByte(Low(c)) == ShiftByte(Low(c))
  {
    hide Low, Overflows, TimesX, ShiftByte;
    LowSteps(c);
    ShiftByteIs(Low(c));
  }

  lemma SplitTop(c: word)
    ensures c == Add(Low(c), Top(TopByte(c)))
    ensures ShiftByte(Low(c)) == ShiftByte(c)
  {
  }

  lemma TopXor(a: byte, b: byte)
    ensures Add(Top(a), Top(b)) == Top(Xor8(a, b))
  {
  }

  function Index(c: word, b: byte): (i: nat)
    ensures i < 256
  {
    (((c >> 24) ^ (b as bv32)) & 0xff) as nat
  }

  lemma IndexIs(c: word, b: byte)
    ensures Index(c, b) == Xor8(TopByte(c), b) as nat
  {
    assert ((c >> 24) ^ (b as bv32)) & 0xff == (((c >> 24) as bv8) ^ b) as bv32;
  }

  lemma Nibbles(x: byte)
    ensures x as nat == 16 * ((x >> 4) as nat) + (x & 15) as nat
    ensures x >> 4 < 16 && x & 15 < 16
  {
  }

  lemma NibblesOfTop(x: byte)
    ensures Add(Top((x >> 4) << 4), Top(x & 15)) == Top(x)
  {
  }

  lemma RowsSplit(h: nat, l: nat)
    requires h < 16 && l < 16
    ensures Row(h)[l] == Add(Row(h)[0], Row(0)[l])
  {
    hide Row;
    match h
    case 0 => FirstRowEntries(); ZeroFirst(l);
    case 1 => Row1Splits(l);
    case 2 => Row2Splits(l);
    case 3 => Row3Splits(l);
    case 4 => Row4Splits(l);
    case 5 => Row5Splits(l);
    case 6 => Row6Splits(l);
    case 7 => Row7Splits(l);
    case 8 => Row8Splits(l);
    case 9 => Row9Splits(l);
    case 10 => Row10Splits(l);
    case 11 => Row11Splits(l);
    case 12 => Row12Splits(l);
    case 13 => Row13Splits(l);
    case 14 => Row14Splits(l);
    case 15 => Row15Splits(l);
  }

  lemma ZeroFirst(l: nat)
    requires l < 16
    ensures Row(0)[l] == Add(Row(0)[0], Row(0)[l])
  {
    hide Add;
    AddCommutes(0, Row(0)[l]);
    AddCancels(Row(0)[l], 0);
  }

  /** Every table entry is the remainder of its index, moved to the top of a word. */
  lemma TableEntry(x: byte)
    ensures Table(x as nat) == ZeroByte(Top(x))
  {
    hide Row, ZeroByte, Top, Add;
    Nibbles(x);
    var h, l := x >> 4, x & 15;
    assert x as nat / 16 == h as nat && x as nat % 16 == l as nat;
    RowsSplit(h as nat, l as nat);
    HighNibble(h);
    LowNibble(l);
    ZeroByteAdd(Top(h << 4), Top(l));
    NibblesOfTop(x);
  }

  /** The loop body of the source. */
  function TableStep(c: word, b: byte): word { Add(ShiftByte(c), Table(Index(c, b))) }

  lemma TableStepIs(c: word, b: byte)
    ensures TableStep(c, b) == FeedByte(c, b)
  {
    hide Table, ZeroByte, Top, Add, Index, FeedByte, TopByte, Low, ShiftByte;
    FeedByteIs(c, b);
    SplitTop(c);
    var t := TopByte(c);
    AddAssociates(Low(c), Top(t), Top(b));
    TopXor(t, b);
    ZeroByteAdd(Low(c), Top(Xor8(t, b)));
    ZeroByteLow(c);
    IndexIs(c, b);
    TableEntry(Xor8(t, b));
  }

  /** `crc32`: the table-driven loop computes the bit-serial checksum. */
  method Checksum(data: seq<byte>) returns (crc: word)
    ensures crc == Crc(data)
  {
    hide TableStep, FeedByte;
    crc := 0xffff_ffff;
    var p := 0;
    while p < |data|
      invariant 0 <= p <= |data|
      invariant crc == Crc(data[..p])
    {
      TableStepIs(crc, data[p]);
      assert data[..p + 1][..p] == data[..p];
      crc := TableStep(crc, data[p]);
      p := p + 1;
    }
    assert data[..p] == data;
  }

  // ---- Injectivity ----

  lemma OddPolynomial(c: word)
    ensures Add(TimesX(c), POLYNOMIAL) != 0
  {
    assert ((c << 1) ^ 0x04C1_1DB7) & 1 == 1;
  }

  lemma ZeroBitKernel(c: word)
    requires ZeroBit(c) == 0
    ensures c == 0
  {
    OddPolynomial(c);
  }

  lemma ZeroByteKernel(c: word)
    requires ZeroByte(c) == 0
    ensures c == 0
  {
    hide ZeroBit;
    var c2 := ZeroBit(ZeroBit(c));
    var c4 := ZeroBit(ZeroBit(c2));
    var c6 := ZeroBit(ZeroBit(c4));
    ZeroBitKernel(ZeroBit(c6));
    ZeroBitKernel(c6);
    ZeroBitKernel(ZeroBit(c4));
    ZeroBitKernel(c4);
    ZeroBitKernel(ZeroBit(c2));
    ZeroBitKernel(c2);
    ZeroBitKernel(ZeroBit(c));
    ZeroBitKernel(c);
  }

  lemma XorIsZero(a: word, b: word)
    ensures a ^ b == 0 <==> a == b
  {
  }

  lemma AddZero(a: word, b: word)
    ensures Add(a, b) == 0 <==> a == b
  {
    XorIsZero(a, b);
  }

  lemma ZeroByteInjective(a: word, b: word)
    requires ZeroByte(a) == ZeroByte(b)
    ensures a == b
  {
    hide ZeroByte, Add;
    ZeroByteAdd(a, b);
    AddZero(ZeroByte(a), ZeroByte(b));
    ZeroByteKernel(Add(a, b));
    AddZero(a, b);
  }

  lemma AddInjective(a: word, b: word, c: word)
    requires Add(a, c) == Add(b, c)
    ensures a == b
  {
    hide Add;
    AddCancels(a, c);
    AddCancels(b, c);
  }

  lemma FeedByteInjective(a: word, b: word, x: byte)
    requires FeedByte(a, x) == FeedByte(b, x)
    ensures a == b
  {
    hide FeedByte, ZeroByte, Add;
    FeedByteIs(a, x);
    FeedByteIs(b, x);
    ZeroByteInjective(Add(a, Top(x)), Add(b, Top(x)));
    AddInjective(a, b, Top(x));
  }

  lemma {:induction false} FeedInjective(a: word, b: word, s: seq<byte>)
    requires Feed(a, s) == Feed(b, s)
    ensures a == b
    decreases |s|
  {
    hide FeedByte;
    if |s| > 0 {
      var t := s[..|s| - 1];
      FeedByteInjective(Feed(a, t), Feed(b, t), s[|s| - 1]);
      FeedInjective(a, b, t);
    }
  }

  lemma {:induction false} FeedConcat(c: word, s: seq<byte>, t: seq<byte>)
    ensures Feed(c, s + t) == Feed(Feed(c, s), t)
    decreases |t|
  {
    hide FeedByte;
    if |t| == 0 {
      assert s + t == s;
    } else {
      var t' := t[..|t| - 1];
      assert (s + t)[..|s + t| - 1] == s + t';
      FeedConcat(c, s, t');
    }
  }

  // ---- Four bytes at once ----

  function ZeroWord(c: word): word { ZeroByte(ZeroByte(ZeroByte(ZeroByte(c)))) }

  lemma JoinTop(a: byte, b: byte, c: byte, d: byte)
    ensures Join(a, b, c, d) == Add(Top(a), Low(Join(0, b, c, d)))
    ensures ShiftByte(Low(Join(0, b, c, d))) == Join(b, c, d, 0)
  {
  }

  lemma FeedJoin(s: word, a: byte, b: byte, c: byte, d: byte)
    ensures ZeroByte(Add(s, Join(a, b, c, d))) == Add(FeedByte(s, a), Join(b, c, d, 0))
  {
    hide ZeroByte, Add, Join, Top, Low, FeedByte, ShiftByte;
    JoinTop(a, b, c, d);
    var low := Low(Join(0, b, c, d));
    AddAssociates(s, Top(a), low);
    ZeroByteAdd(Add(s, Top(a)), low);
    ZeroByteLow(Join(0, b, c, d));
    FeedByteIs(s, a);
  }

  lemma JoinNothing()
    ensures Join(0, 0, 0, 0) == 0
  {
  }

  /** Four bytes fed in are one word added and thirty-two zero steps. */
  lemma FeedWord(c: word, s: seq<byte>)
    requires |s| == 4
    ensures Feed(c, s) == ZeroWord(Add(c, LoadBe(s, 0)))
  {
    hide ZeroByte, Add, Join, FeedByte;
    var c1 := FeedByte(c, s[0]);
    var c2 := FeedByte(c1, s[1]);
    var c3 := FeedByte(c2, s[2]);
    FeedJoin(c, s[0], s[1], s[2], s[3]);
    FeedJoin(c1, s[1], s[2], s[3], 0);
    FeedJoin(c2, s[2], s[3], 0, 0);
    FeedJoin(c3, s[3], 0, 0, 0);
    JoinNothing();
    AddCancels(FeedByte(c3, s[3]), 0);
    FeedFour(c, s);
  }

  lemma FeedFour(c: word, s: seq<byte>)
    requires |s| == 4
    ensures Feed(c, s) == FeedByte(FeedByte(FeedByte(FeedByte(c, s[0]), s[1]), s[2]), s[3])
  {
    hide FeedByte;
    var s3 := s[..3];
    var s2 := s3[..2];
    var s1 := s2[..1];
    assert s1[..0] == [];
    assert Feed(c, s1) == FeedByte(c, s[0]);
    assert Feed(c, s2) == FeedByte(FeedByte(c, s[0]), s[1]);
    assert Feed(c, s3) == FeedByte(FeedByte(FeedByte(c, s[0]), s[1]), s[2]);
  }

  lemma ZeroWordInjective(a: word, b: word)
    requires ZeroWord(a) == ZeroWord(b)
    ensures a == b
  {
    hide ZeroByte;
    var a1, b1 := ZeroByte(a), ZeroByte(b);
    ZeroByteInjective(ZeroByte(ZeroByte(a1)), ZeroByte(ZeroByte(b1)));
    ZeroByteInjective(ZeroByte(a1), ZeroByte(b1));
    ZeroByteInjective(a1, b1);
    ZeroByteInjective(a, b);
  }

  lemma ZeroWordOfZero()
    ensures ZeroWord(0) == 0
  {
    assert ZeroByte(0) == 0;
  }

  // ---- What the checksum detects ----

  /** A section passes the check exactly when its last four bytes are the big-endian checksum of the rest. */
  lemma Residue(s: seq<byte>)
    requires |s| >= 4
    ensures Crc(s) == 0 <==> LoadBe(s, |s| - 4) == Crc(s[..|s| - 4])
  {
    hide Feed, ZeroWord, Add, Join;
    var body, tail := s[..|s| - 4], s[|s| - 4..];
    assert s == body + tail;
    FeedConcat(0xffff_ffff, body, tail);
    var c, v := Crc(body), LoadBe(s, |s| - 4);
    assert LoadBe(tail, 0) == v;
    FeedWord(c, tail);
    ZeroWordOfZero();
    AddZero(c, v);
    if Crc(s) == 0 {
      ZeroWordInjective(Add(c, v), 0);
    }
  }

  lemma LoadInjective(x: seq<byte>, y: seq<byte>)
    requires |x| == |y| == 4 && LoadBe(x, 0) == LoadBe(y, 0)
    ensures x == y
  {
    hide LoadBe, StoreBe;
    StoreLoadBe(x, 0);
    StoreLoadBe(y, 0);
  }

  /** Different strings of four bytes lead apart from any state. */
  lemma FeedWordDiffers(c: word, x: seq<byte>, y: seq<byte>)
    requires |x| == |y| == 4 && Feed(c, x) == Feed(c, y)
    ensures x == y
  {
    hide Feed, ZeroWord, Add, Join;
    FeedWord(c, x);
    FeedWord(c, y);
    var a, b := LoadBe(x, 0), LoadBe(y, 0);
    ZeroWordInjective(Add(c, a), Add(c, b));
    AddCommutes(c, a);
    AddCommutes(c, b);
    AddInjective(a, b, c);
    LoadInjective(x, y);
  }

  /** So do different strings of at most four bytes and equal length. */
  lemma FeedBurstDiffers(c: word, x: seq<byte>, y: seq<byte>)
    requires |x| == |y| <= 4 && Feed(c, x) == Feed(c, y)
    ensures x == y
  {
    hide Feed;
    var pad := seq(4 - |x|, _ => 0);
    FeedConcat(c, x, pad);
    FeedConcat(c, y, pad);
    FeedWordDiffers(c, x + pad, y + pad);
    assert (x + pad)[..|x|] == x && (y + pad)[..|x|] == y;
  }

  /** A change confined to four consecutive bytes, in a string of any length, always changes the checksum. */
  lemma BurstDetected(s: seq<byte>, t: seq<byte>, i: nat)
    requires |s| == |t| && s != t
    requires forall k :: 0 <= k < |s| && !(i <= k < i + 4) ==> s[k] == t[k]
    ensures Crc(s) != Crc(t)
  {
    hide Feed;
    var lo := if i <= |s| then i else |s|;
    var hi := if i + 4 <= |s| then i + 4 else |s|;
    var a, z := s[..lo], s[hi..];
    var x, y := s[lo..hi], t[lo..hi];
    assert s == a + x + z;
    assert t == a + y + z;
    FeedConcat(0xffff_ffff, a + x, z);
    FeedConcat(0xffff_ffff, a + y, z);
    FeedConcat(0xffff_ffff, a, x);
    FeedConcat(0xffff_ffff, a, y);
    if Crc(s) == Crc(t) {
      FeedInjective(Feed(0xffff_ffff, a + x), Feed(0xffff_ffff, a + y), z);
      FeedBurstDiffers(Feed(0xffff_ffff, a), x, y);
    }
  }

  // ---- The start value ----

  /** The first four bytes with every bit inverted. */
  function Inverted(s: seq<byte>): (r: seq<byte>)
    requires |s| >= 4
    ensures |r| == |s|
  {
    [0xff ^ s[0], 0xff ^ s[1], 0xff ^ s[2], 0xff ^ s[3]] + s[4..]
  }

  lemma InvertedWord(a: byte, b: byte, c: byte, d: byte)
    ensures Add(0xffff_ffff, Join(a, b, c, d)) == Join(0xff ^ a, 0xff ^ b, 0xff ^ c, 0xff ^ d)
  {
  }

  lemma AddToZero(w: word)
    ensures Add(0, w) == w
  {
  }

  /**
   Starting with all registers at one is inverting the first four bytes: the checksum is the plain remainder of the
   string so changed.
   */
  lemma StartsInverted(s: seq<byte>)
    requires |s| >= 4
    ensures Crc(s) == Feed(0, Inverted(s))
  {
    hide Feed, ZeroWord, Add, Join;
    var head, inverted := s[..4], Inverted(s)[..4];
    assert s == head + s[4..] && Inverted(s) == inverted + s[4..];
    FeedConcat(0xffff_ffff, head, s[4..]);
    FeedConcat(0, inverted, s[4..]);
    FeedWord(0xffff_ffff, head);
    FeedWord(0, inverted);
    InvertedWord(s[0], s[1], s[2], s[3]);
    AddToZero(LoadBe(inverted, 0));
  }

  /** A program association section of one program, number 1 on PID 0x100, checksum included. */
  const PAT_SECTION: seq<byte> := [
    0x00, 0xb0, 0x0d, 0x00, 0x01, 0xc1, 0x00, 0x00, 0x00, 0x01, 0xe1, 0x00, 0xe8, 0xf9, 0x5e, 0x7d]

  lemma FeedMore(s: seq<byte>, k: nat)
    requires k < |s|
    ensures Crc(s[..k + 1]) == FeedByte(Crc(s[..k]), s[k])
  {
    hide FeedByte;
    assert s[..k + 1][..k] == s[..k];
  }

  lemma PatBytes0()
    ensures FeedByte(0xffffffff, 0x00) == 0x4e08bfb4
    ensures FeedByte(0x4e08bfb4, 0xb0) == 0xbd89e903
    ensures FeedByte(0xbd89e903, 0x0d) == 0x34d78e7e
    ensures FeedByte(0x34d78e7e, 0x00) == 0x10b8654c
  {
  }

  lemma PatBytes1()
    ensures FeedByte(0x10b8654c, 0x01) == 0xf0b58ac7
    ensures FeedByte(0xf0b58ac7, 0xc1) == 0x6579b727
    ensures FeedByte(0x6579b727, 0x00) == 0xc2d78afc
    ensures FeedByte(0xc2d78afc, 0x00) == 0x838257f7
  {
  }

  lemma PatBytes2()
    ensures FeedByte(0x838257f7, 0x00) == 0xe6183137
    ensures FeedByte(0xe6183137, 0x01) == 0xc3df417c
    ensures FeedByte(0xc3df417c, 0xe1) == 0x4ee0f18e
    ensures FeedByte(0x4ee0f18e, 0x00) == 0xe8f95e7d
  {
  }

  lemma PatBytes3()
    ensures FeedByte(0xe8f95e7d, 0xe8) == 0xf95e7d00
    ensures FeedByte(0xf95e7d00, 0xf9) == 0x5e7d0000
    ensures FeedByte(0x5e7d0000, 0x5e) == 0x7d000000
    ensures FeedByte(0x7d000000, 0x7d) == 0x00000000
  {
  }

  lemma PatQuarter0()
    ensures Crc(PAT_SECTION[..4]) == 0x10b8654c
  {
    hide FeedByte, Crc;
    NothingFed();
    PatBytes0();
    FeedMore(PAT_SECTION, 0);
    FeedMore(PAT_SECTION, 1);
    FeedMore(PAT_SECTION, 2);
    FeedMore(PAT_SECTION, 3);
  }

  lemma PatQuarter1()
    ensures Crc(PAT_SECTION[..8]) == 0x838257f7
  {
    hide FeedByte, Crc;
    PatQuarter0();
    PatBytes1();
    FeedMore(PAT_SECTION, 4);
    FeedMore(PAT_SECTION, 5);
    FeedMore(PAT_SECTION, 6);
    FeedMore(PAT_SECTION, 7);
  }

  lemma PatQuarter2()
    ensures Crc(PAT_SECTION[..12]) == 0xe8f95e7d
  {
    hide FeedByte, Crc;
    PatQuarter1();
    PatBytes2();
    FeedMore(PAT_SECTION, 8);
    FeedMore(PAT_SECTION, 9);
    FeedMore(PAT_SECTION, 10);
    FeedMore(PAT_SECTION, 11);
  }

  lemma PatQuarter3()
    ensures Crc(PAT_SECTION[..16]) == 0x00000000
  {
    hide FeedByte, Crc;
    PatQuarter2();
    PatBytes3();
    FeedMore(PAT_SECTION, 12);
    FeedMore(PAT_SECTION, 13);
    FeedMore(PAT_SECTION, 14);
    FeedMore(PAT_SECTION, 15);
  }

  lemma NothingFed()
    ensures Crc(PAT_SECTION[..0]) == 0xffff_ffff
  {
  }

  /** It passes, and the checksum of its first twelve bytes is the four that follow. */
  lemma KnownChecksum()
    ensures Crc(PAT_SECTION) == 0 && Crc(PAT_SECTION[..12]) == 0xe8f9_5e7d
  {
    hide Crc;
    PatQuarter2();
    PatQuarter3();
    assert PAT_SECTION[..16] == PAT_SECTION;
  }
}
