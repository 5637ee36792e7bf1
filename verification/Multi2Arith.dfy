/**
 The word arithmetic the source computes MULTI2 with: plain rotations in the portable C form, the shortcut forms of
 the C++ templates, and what the SSE, AVX2 and NEON instructions do to one 32-bit lane.
 */
module Multi2Arith {
  import opened Bytes
  import opened Multi2

  function Xor(a: word, b: word): word { a ^ b }

  function Or(a: word, b: word): word { a | b }

  function Add(a: word, b: word): word { a + b }

  function Rot1(v: word): word { (v << 1) | (v >> 31) }

  function Rot2(v: word): word { (v << 2) | (v >> 30) }

  function Rot4(v: word): word { (v << 4) | (v >> 28) }

  function Rot8(v: word): word { (v << 8) | (v >> 24) }

  function Rot16(v: word): word { (v << 16) | (v >> 16) }

  /** How a form computes the two shortcuts and the two byte-aligned rotations. */
  datatype Shortcuts = Shortcuts(
    rot1AddDec: word -> word,  // rotate by one, add the operand, subtract one
    rot1Sub: word -> word,     // rotate by one, subtract the operand
    rot8: word -> word,
    rot16: word -> word)

  function Mix2(l: Shortcuts, x: word, k1: word): word {
    var z := l.rot1AddDec(Add(x, k1));
    Xor(Rot4(z), z)
  }

  function Mix3(l: Shortcuts, x: word, k2: word, k3: word): word {
    var y := Add(x, k2);
    var z := Add(Add(Rot2(y), y), 1);
    var a := Xor(l.rot8(z), z);
    var c := l.rot1Sub(Add(a, k3));
    Xor(l.rot16(c), Or(c, x))
  }

  function Mix4(x: word, k4: word): word {
    var y := Add(x, k4);
    Add(Add(Rot2(y), y), 1)
  }

  function Words(l: Shortcuts): Arith<word> {
    Arith((a: word, b: word) => Xor(a, b),
          (x: word, k: word) => Mix2(l, x, k),
          (x: word, k: word, k': word) => Mix3(l, x, k, k'),
          (x: word, k: word) => Mix4(x, k))
  }

  lemma WordsLawful(l: Shortcuts)
    ensures Words(l).Lawful()
  {
    forall a: word, x: word
      ensures Xor(Xor(a, x), x) == a
    {
    }
  }

  // multi2.c: rotations and the subtraction written out.

  function PlainAddDec(v: word): word { Rot1(v) + v - 1 }

  function PlainSub(v: word): word { Rot1(v) - v }

  const PLAIN := Shortcuts((v: word) => PlainAddDec(v), (v: word) => PlainSub(v), (v: word) => Rot8(v),
    (v: word) => Rot16(v))

  // multi2_block.h: the subtraction becomes an addition of the sign bit.

  function SignAdd(v: word): word { v + (v >> 31) }

  const TEMPLATE := Shortcuts((v: word) => PlainAddDec(v), (v: word) => SignAdd(v), (v: word) => Rot8(v),
    (v: word) => Rot16(v))

  // multi2_xmm.h, multi2_ymm.h, multi2_ymm2.h: a signed comparison with -1 yields an all-ones lane.

  function SignedGreaterMinusOne(v: word): word { if v & 0x8000_0000 == 0 then 0xffff_ffff else 0 }

  function TripleAddMask(v: word): word { v + v + v + SignedGreaterMinusOne(v) }

  /** A byte shuffle that stays inside the lane: byte `i` of the result is byte `m[i]` of the operand. */
  function ShuffleLane(v: word, m3: nat, m2: nat, m1: nat, m0: nat): word {
    Join(LaneByte(v, m3), LaneByte(v, m2), LaneByte(v, m1), LaneByte(v, m0))
  }

  function LaneByte(v: word, i: nat): byte {
    if i == 0 then Byte0(v) else if i == 1 then Byte1(v) else if i == 2 then Byte2(v) else Byte3(v)
  }

  function ShuffleRot8(v: word): word { ShuffleLane(v, 2, 1, 0, 3) }

  function ShuffleRot16(v: word): word { ShuffleLane(v, 1, 0, 3, 2) }

  const SSE2 := Shortcuts((v: word) => TripleAddMask(v), (v: word) => SignAdd(v), (v: word) => Rot8(v),
    (v: word) => Rot16(v))

  const AVX2 := Shortcuts((v: word) => TripleAddMask(v), (v: word) => SignAdd(v),
                     (v: word) => ShuffleRot8(v), (v: word) => ShuffleRot16(v))

  // multi2_simd.c: plain arithmetic, with byte shuffles for the two byte-aligned rotations from SSSE3 on.

  const SHUFFLED := Shortcuts((v: word) => PlainAddDec(v), (v: word) => PlainSub(v),
                         (v: word) => ShuffleRot8(v), (v: word) => ShuffleRot16(v))

  // multi2_neon.h, multi2_neon2.h: shift-and-insert, accumulate, halfword reversal and a signed comparison with 0.

  function ShiftLeftInsert8(base: word, v: word): word { (v << 8) | (base & 0xff) }

  function InsertRot8(v: word): word { ShiftLeftInsert8(v >> 24, v) }

  function ReverseHalfwords(v: word): word { Join(Byte1(v), Byte0(v), Byte3(v), Byte2(v)) }

  function SignedAtLeastZero(v: word): word { if v < 0x8000_0000 then 0xffff_ffff else 0 }

  function TripleAddCge(v: word): word { v + v + v + SignedAtLeastZero(v) }

  const NEON := Shortcuts((v: word) => TripleAddCge(v), (v: word) => SignAdd(v),
                     (v: word) => InsertRot8(v), (v: word) => ReverseHalfwords(v))

  // Each shortcut computes what it stands for, modulo 2^32.

  lemma SubClear(v: word)
    requires v >> 31 == 0
    ensures PlainSub(v) == v
  {
  }

  lemma SubSet(v: word)
    requires v >> 31 != 0
    ensures PlainSub(v) == v + 1
  {
  }

  lemma SignAddClear(v: word)
    requires v >> 31 == 0
    ensures SignAdd(v) == v
  {
  }

  lemma SignAddSet(v: word)
    requires v >> 31 != 0
    ensures SignAdd(v) == v + 1
  {
  }

  lemma SignAddIsSub(v: word)
    ensures SignAdd(v) == PlainSub(v)
  {
    if v >> 31 == 0 {
      SubClear(v);
      SignAddClear(v);
    } else {
      SubSet(v);
      SignAddSet(v);
    }
  }

  lemma AddDecClear(v: word)
    requires v >> 31 == 0
    ensures PlainAddDec(v) == v + v + v + 0xffff_ffff
  {
  }

  lemma AddDecSet(v: word)
    requires v >> 31 != 0
    ensures PlainAddDec(v) == v + v + v + 0
  {
  }

  lemma MaskSign(v: word)
    ensures SignedGreaterMinusOne(v) == if v >> 31 == 0 then 0xffff_ffff else 0
    ensures SignedAtLeastZero(v) == if v >> 31 == 0 then 0xffff_ffff else 0
  {
  }

  lemma TripleClear(v: word)
    requires v >> 31 == 0
    ensures TripleAddMask(v) == v + v + v + 0xffff_ffff && TripleAddCge(v) == v + v + v + 0xffff_ffff
  {
    MaskSign(v);
  }

  lemma TripleSet(v: word)
    requires v >> 31 != 0
    ensures TripleAddMask(v) == v + v + v + 0 && TripleAddCge(v) == v + v + v + 0
  {
    MaskSign(v);
  }

  lemma TripleAddIsAddDec(v: word)
    ensures TripleAddMask(v) == PlainAddDec(v)
    ensures TripleAddCge(v) == PlainAddDec(v)
  {
    if v >> 31 == 0 {
      AddDecClear(v);
      TripleClear(v);
    } else {
      AddDecSet(v);
      TripleSet(v);
    }
  }

  lemma ShufflesAreRotations(v: word)
    ensures ShuffleRot8(v) == Rot8(v) && ShuffleRot16(v) == Rot16(v)
    ensures InsertRot8(v) == Rot8(v) && ReverseHalfwords(v) == Rot16(v)
  {
    ShuffleRot8IsRotation(v);
    ShuffleRot16IsRotation(v);
    InsertRot8IsRotation(v);
    ReverseHalfwordsIsRotation(v);
  }

  lemma ShuffleRot8IsRotation(v: word)
    ensures ShuffleRot8(v) == Rot8(v)
  {
  }

  lemma ShuffleRot16IsRotation(v: word)
    ensures ShuffleRot16(v) == Rot16(v)
  {
  }

  lemma InsertRot8IsRotation(v: word)
    ensures InsertRot8(v) == Rot8(v)
  {
  }

  lemma ReverseHalfwordsIsRotation(v: word)
    ensures ReverseHalfwords(v) == Rot16(v)
  {
  }

  ghost predicate SameShortcuts(l: Shortcuts, l': Shortcuts) {
    forall v :: l.rot1AddDec(v) == l'.rot1AddDec(v) && l.rot1Sub(v) == l'.rot1Sub(v)
                && l.rot8(v) == l'.rot8(v) && l.rot16(v) == l'.rot16(v)
  }

  /** Every form's arithmetic agrees with the portable one on every word. */
  lemma AllFormsAgree()
    ensures SameShortcuts(TEMPLATE, PLAIN) && SameShortcuts(SSE2, PLAIN) && SameShortcuts(AVX2, PLAIN)
    ensures SameShortcuts(SHUFFLED, PLAIN) && SameShortcuts(NEON, PLAIN)
  {
    hide SignAdd, PlainSub, PlainAddDec, TripleAddMask, TripleAddCge, Rot8, Rot16;
    hide ShuffleRot8, ShuffleRot16, InsertRot8, ReverseHalfwords;
    forall v: word
      ensures SignAdd(v) == PlainSub(v)
      ensures TripleAddMask(v) == PlainAddDec(v) && TripleAddCge(v) == PlainAddDec(v)
      ensures ShuffleRot8(v) == Rot8(v) && ShuffleRot16(v) == Rot16(v)
      ensures InsertRot8(v) == Rot8(v) && ReverseHalfwords(v) == Rot16(v)
    {
      SignAddIsSub(v);
      TripleAddIsAddDec(v);
      ShufflesAreRotations(v);
    }
  }

  lemma SameMixes(l: Shortcuts, l': Shortcuts, x: word, k: word, k': word)
    requires SameShortcuts(l, l')
    ensures Mix2(l, x, k) == Mix2(l', x, k) && Mix3(l, x, k, k') == Mix3(l', x, k, k')
  {
    hide Xor, Or, Add, Rot2, Rot4;
  }

  lemma SameWords(l: Shortcuts, l': Shortcuts)
    requires SameShortcuts(l, l')
    ensures LaneOf(Words(l), Words(l'), (x: word) => x, (x: word) => true)
  {
    hide Xor, Mix2, Mix3, Mix4;
    forall x: word, k: word
      ensures Mix2(l, x, k) == Mix2(l', x, k)
    {
      SameMixes(l, l', x, k, k);
    }
    forall x: word, k: word, k': word
      ensures Mix3(l, x, k, k') == Mix3(l', x, k, k')
    {
      SameMixes(l, l', x, k, k');
    }
  }

  /** Forms with the same arithmetic are the same cipher, for every block, key and round count. */
  lemma SameForms(l: Shortcuts, l': Shortcuts, b: Block<word>, w: Key, rounds: int)
    requires SameShortcuts(l, l')
    ensures Words(l).Encrypt(b, w, rounds) == Words(l').Encrypt(b, w, rounds)
    ensures Words(l).Decrypt(b, w, rounds) == Words(l').Decrypt(b, w, rounds)
  {
    hide Words, SameShortcuts, LaneOf;
    SameWords(l, l');
    LaneEncrypt(Words(l), Words(l'), (x: word) => x, (x: word) => true, b, w, rounds);
    LaneDecrypt(Words(l), Words(l'), (x: word) => x, (x: word) => true, b, w, rounds);
  }
}
