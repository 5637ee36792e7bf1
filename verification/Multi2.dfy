/**
 The MULTI2 block cipher over any operand type: elementary functions, rounds and key schedule.

 `Arith<T>` plays the part of the template argument of the source's `pi<T>`: a scalar word in the portable form,
 a vector of words in the fast forms. It supplies the exclusive or of two operands and what pi2, pi3 and pi4 mix
 into one half of a block. Module `Multi2Arith` gives the sets the source has.
 */
module Multi2 {

  datatype Block<T> = Block(left: T, right: T)

  /** Eight words: a system key or the work key scheduled from it. */
  type Key = k: seq<bv32> | |k| == 8 witness [0, 0, 0, 0, 0, 0, 0, 0]

  datatype Arith<!T(!new)> = Arith(
    xor: (T, T) -> T,
    mix2: (T, bv32) -> T,
    mix3: (T, bv32, bv32) -> T,
    mix4: (T, bv32) -> T)
  {
    /** The one law the cipher's inversion rests on. */
    ghost predicate Lawful() {
      forall a, x :: xor(xor(a, x), x) == a
    }

    function Pi1(b: Block<T>): Block<T> { Block(b.left, xor(b.right, b.left)) }

    function Pi2(b: Block<T>, k1: bv32): Block<T> { Block(xor(b.left, mix2(b.right, k1)), b.right) }

    function Pi3(b: Block<T>, k2: bv32, k3: bv32): Block<T> { Block(b.left, xor(b.right, mix3(b.left, k2, k3))) }

    function Pi4(b: Block<T>, k4: bv32): Block<T> { Block(xor(b.left, mix4(b.right, k4)), b.right) }

    function EncryptHalf(b: Block<T>, k1: bv32, k2: bv32, k3: bv32, k4: bv32): Block<T> {
      Pi4(Pi3(Pi2(Pi1(b), k1), k2, k3), k4)
    }

    function DecryptHalf(b: Block<T>, k1: bv32, k2: bv32, k3: bv32, k4: bv32): Block<T> {
      Pi1(Pi2(Pi3(Pi4(b, k4), k2, k3), k1))
    }

    function EncryptRound(b: Block<T>, w: Key): Block<T> {
      EncryptHalf(EncryptHalf(b, w[0], w[1], w[2], w[3]), w[4], w[5], w[6], w[7])
    }

    function DecryptRound(b: Block<T>, w: Key): Block<T> {
      DecryptHalf(DecryptHalf(b, w[4], w[5], w[6], w[7]), w[0], w[1], w[2], w[3])
    }

    /** A round count below one runs no round, as in the source's counting loops. */
    function Encrypt(b: Block<T>, w: Key, rounds: int): Block<T>
      decreases rounds
    {
      if rounds <= 0 then b else EncryptRound(Encrypt(b, w, rounds - 1), w)
    }

    function Decrypt(b: Block<T>, w: Key, rounds: int): Block<T>
      decreases rounds
    {
      if rounds <= 0 then b else DecryptRound(Decrypt(b, w, rounds - 1), w)
    }

    /** The work key of a data key under a system key; scheduling is scalar in every form. */
    function Schedule(system: Key, data: Block<T>): (w: seq<T>)
      ensures |w| == 8
    {
      var a1 := Pi2(Pi1(data), system[0]);
      var a2 := Pi3(a1, system[1], system[2]);
      var a3 := Pi4(a2, system[3]);
      var a4 := Pi1(a3);
      var a5 := Pi2(a4, system[4]);
      var a6 := Pi3(a5, system[5], system[6]);
      var a7 := Pi4(a6, system[7]);
      var a8 := Pi1(a7);
      [a1.left, a2.right, a3.left, a4.right, a5.left, a6.right, a7.left, a8.right]
    }

    lemma HalvesInverse(b: Block<T>, k1: bv32, k2: bv32, k3: bv32, k4: bv32)
      requires Lawful()
      ensures DecryptHalf(EncryptHalf(b, k1, k2, k3, k4), k1, k2, k3, k4) == b
      ensures EncryptHalf(DecryptHalf(b, k1, k2, k3, k4), k1, k2, k3, k4) == b
    {
    }

    lemma RoundsInverse(b: Block<T>, w: Key)
      requires Lawful()
      ensures DecryptRound(EncryptRound(b, w), w) == b
      ensures EncryptRound(DecryptRound(b, w), w) == b
    {
      HalvesInverse(b, w[0], w[1], w[2], w[3]);
      HalvesInverse(EncryptHalf(b, w[0], w[1], w[2], w[3]), w[4], w[5], w[6], w[7]);
      HalvesInverse(b, w[4], w[5], w[6], w[7]);
      HalvesInverse(DecryptHalf(b, w[4], w[5], w[6], w[7]), w[0], w[1], w[2], w[3]);
    }

    lemma {:induction false} DecryptRoundFirst(b: Block<T>, w: Key, rounds: int)
      requires rounds > 0
      ensures Decrypt(b, w, rounds) == Decrypt(DecryptRound(b, w), w, rounds - 1)
      decreases rounds
    {
      if rounds > 1 {
        DecryptRoundFirst(b, w, rounds - 1);
      }
    }

    /** Decryption undoes encryption for every block, work key and round count. */
    lemma {:induction false} DecryptEncrypt(b: Block<T>, w: Key, rounds: int)
      requires Lawful()
      ensures Decrypt(Encrypt(b, w, rounds), w, rounds) == b
      decreases rounds
    {
      if rounds > 0 {
        var e := Encrypt(b, w, rounds - 1);
        DecryptRoundFirst(EncryptRound(e, w), w, rounds);
        RoundsInverse(e, w);
        DecryptEncrypt(b, w, rounds - 1);
      }
    }

    lemma {:induction false} EncryptRoundFirst(b: Block<T>, w: Key, rounds: int)
      requires rounds > 0
      ensures Encrypt(b, w, rounds) == Encrypt(EncryptRound(b, w), w, rounds - 1)
      decreases rounds
    {
      if rounds > 1 {
        EncryptRoundFirst(b, w, rounds - 1);
      }
    }

    /** And encryption undoes decryption, so the cipher permutes the blocks. */
    lemma {:induction false} EncryptDecrypt(b: Block<T>, w: Key, rounds: int)
      requires Lawful()
      ensures Encrypt(Decrypt(b, w, rounds), w, rounds) == b
      decreases rounds
    {
      if rounds > 0 {
        var d := Decrypt(b, w, rounds - 1);
        EncryptRoundFirst(DecryptRound(d, w), w, rounds);
        RoundsInverse(d, w);
        EncryptDecrypt(b, w, rounds - 1);
      }
    }
  }

  /**
   `lane` reads one operand of `fine` out of a `good` operand of `wide`, and every operation of `wide` keeps
   operands good and acts on that lane as the operation of `fine` does.
   */
  ghost predicate LaneOf<S(!new), T(!new)>(wide: Arith<T>, fine: Arith<S>, lane: T -> S, good: T -> bool) {
    && (forall a, b :: good(a) && good(b) ==>
          good(wide.xor(a, b)) && lane(wide.xor(a, b)) == fine.xor(lane(a), lane(b)))
    && (forall x, k :: good(x) ==> good(wide.mix2(x, k)) && lane(wide.mix2(x, k)) == fine.mix2(lane(x), k))
    && (forall x, k, k' :: good(x) ==>
          good(wide.mix3(x, k, k')) && lane(wide.mix3(x, k, k')) == fine.mix3(lane(x), k, k'))
    && (forall x, k :: good(x) ==> good(wide.mix4(x, k)) && lane(wide.mix4(x, k)) == fine.mix4(lane(x), k))
  }

  function MapBlock<S, T>(lane: T -> S, b: Block<T>): Block<S> { Block(lane(b.left), lane(b.right)) }

  ghost predicate GoodBlock<T>(good: T -> bool, b: Block<T>) { good(b.left) && good(b.right) }

  lemma LaneHalves<S(!new), T(!new)>(wide: Arith<T>, fine: Arith<S>, lane: T -> S, good: T -> bool, b: Block<T>,
                                      k1: bv32, k2: bv32, k3: bv32, k4: bv32)
    requires LaneOf(wide, fine, lane, good) && GoodBlock(good, b)
    ensures GoodBlock(good, wide.EncryptHalf(b, k1, k2, k3, k4)) && GoodBlock(good, wide.DecryptHalf(b, k1, k2, k3, k4))
    ensures MapBlock(lane, wide.EncryptHalf(b, k1, k2, k3, k4)) == fine.EncryptHalf(MapBlock(lane, b), k1, k2, k3, k4)
    ensures MapBlock(lane, wide.DecryptHalf(b, k1, k2, k3, k4)) == fine.DecryptHalf(MapBlock(lane, b), k1, k2, k3, k4)
  {
  }

  lemma LaneRounds<S(!new), T(!new)>(wide: Arith<T>, fine: Arith<S>, lane: T -> S, good: T -> bool,
                                      b: Block<T>, w: Key)
    requires LaneOf(wide, fine, lane, good) && GoodBlock(good, b)
    ensures GoodBlock(good, wide.EncryptRound(b, w)) && GoodBlock(good, wide.DecryptRound(b, w))
    ensures MapBlock(lane, wide.EncryptRound(b, w)) == fine.EncryptRound(MapBlock(lane, b), w)
    ensures MapBlock(lane, wide.DecryptRound(b, w)) == fine.DecryptRound(MapBlock(lane, b), w)
  {
    LaneHalves(wide, fine, lane, good, b, w[0], w[1], w[2], w[3]);
    LaneHalves(wide, fine, lane, good, wide.EncryptHalf(b, w[0], w[1], w[2], w[3]), w[4], w[5], w[6], w[7]);
    LaneHalves(wide, fine, lane, good, b, w[4], w[5], w[6], w[7]);
    LaneHalves(wide, fine, lane, good, wide.DecryptHalf(b, w[4], w[5], w[6], w[7]), w[0], w[1], w[2], w[3]);
  }

  /** Wide encryption is fine encryption, lane by lane. */
  lemma {:induction false} LaneEncrypt<S(!new), T(!new)>(wide: Arith<T>, fine: Arith<S>, lane: T -> S, good: T -> bool,
                                                          b: Block<T>, w: Key, rounds: int)
    requires LaneOf(wide, fine, lane, good) && GoodBlock(good, b)
    ensures GoodBlock(good, wide.Encrypt(b, w, rounds))
    ensures MapBlock(lane, wide.Encrypt(b, w, rounds)) == fine.Encrypt(MapBlock(lane, b), w, rounds)
    decreases rounds
  {
    hide LaneOf;
    hide Arith.EncryptRound, Arith.DecryptRound;
    if rounds > 0 {
      LaneEncrypt(wide, fine, lane, good, b, w, rounds - 1);
      LaneRounds(wide, fine, lane, good, wide.Encrypt(b, w, rounds - 1), w);
    }
  }

  /** Wide decryption is fine decryption, lane by lane. */
  lemma {:induction false} LaneDecrypt<S(!new), T(!new)>(wide: Arith<T>, fine: Arith<S>, lane: T -> S, good: T -> bool,
                                                          b: Block<T>, w: Key, rounds: int)
    requires LaneOf(wide, fine, lane, good) && GoodBlock(good, b)
    ensures GoodBlock(good, wide.Decrypt(b, w, rounds))
    ensures MapBlock(lane, wide.Decrypt(b, w, rounds)) == fine.Decrypt(MapBlock(lane, b), w, rounds)
    decreases rounds
  {
    hide LaneOf;
    hide Arith.EncryptRound, Arith.DecryptRound;
    if rounds > 0 {
      LaneDecrypt(wide, fine, lane, good, b, w, rounds - 1);
      LaneRounds(wide, fine, lane, good, wide.Decrypt(b, w, rounds - 1), w);
    }
  }
}
