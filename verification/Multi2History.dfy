/**
 What a MULTI2 object does after any sequence of calls, told from the calls alone: which key a packet is decrypted
 with, and which code a call draws.
 */
module Multi2History {
  import opened Prelude
  import opened Bytes
  import opened Multi2
  import opened Multi2Arith
  import opened Multi2Cbc
  import opened Multi2Dispatch
  import opened Multi2Keys

  // ---- The scramble key in use ----

  /**
   Once its parameters are set, an object that is given a pair of scramble keys treats what is marked 2 with the second
   of them and everything else with the first.
   */
  lemma EagerKeyInUse(m: Eager, odd: Block<word>, even: Block<word>, kind: int, d: seq<byte>)
    requires m.cbcSet && m.systemSet && |d| >= 1
    ensures var m' := m.Step(SetScrambleKey(odd, even)).0;
      var cipher := Reference(WorkKey(m.system, if kind == 2 then even else odd), m.rounds);
      && m'.Step(Decrypt(kind, d)).1 == Reply(0, cipher.DecryptBytes(m.iv, d))
      && m'.Step(Encrypt(kind, d)).1 == Reply(0, cipher.EncryptBytes(m.iv, d))
  {
    hide WorkKey, BlockCipher.DecryptBytes, BlockCipher.EncryptBytes, Reference;
  }

  /** The work key that a lazy object with new scramble keys fills in, or has from before. */
  lemma LazyFills(l: Lazy, odd: Block<word>, even: Block<word>, kind: int, n: int)
    requires l.iv.Some? && l.system.Some? && Fresh(l) && n >= 1
    ensures var l' := l.Step(SetScrambleKey(odd, even)).0;
      && l'.Status(kind, n) == OK && l'.iv == l.iv && l'.rounds == l.rounds
      && l'.Filled(kind).Work(kind).value == WorkKey(l.system.value, if kind == 2 then even else odd)
  {
    hide WorkKey;
  }

  /** So does the lazy object, whose work keys may be those of earlier calls as long as they are fresh. */
  lemma LazyKeyInUse(l: Lazy, odd: Block<word>, even: Block<word>, kind: int, d: seq<byte>)
    requires l.iv.Some? && l.system.Some? && Fresh(l) && |d| >= 1
    ensures var l' := l.Step(SetScrambleKey(odd, even)).0;
      var cipher := Reference(WorkKey(l.system.value, if kind == 2 then even else odd), l.rounds);
      && l'.Step(Decrypt(kind, d)).1 == Reply(0, cipher.DecryptBytes(l.iv.value, d))
      && l'.Step(Encrypt(kind, d)).1 == Reply(0, cipher.EncryptBytes(l.iv.value, d))
  {
    hide *;
    LazyFills(l, odd, even, kind, |d|);
    LazyCrypts(l.Step(SetScrambleKey(odd, even)).0, kind, d);
  }

  lemma LazyCrypts(l: Lazy, kind: int, d: seq<byte>)
    requires l.Status(kind, |d|) == OK
    ensures var cipher := Reference(l.Filled(kind).Work(kind).value, l.rounds);
      && l.Step(Decrypt(kind, d)).1 == Reply(0, cipher.DecryptBytes(l.iv.value, d))
      && l.Step(Encrypt(kind, d)).1 == Reply(0, cipher.EncryptBytes(l.iv.value, d))
  {
    hide WorkKey, KeyIndex, BlockCipher.DecryptBytes, BlockCipher.EncryptBytes, Reference;
  }

  // ---- Calls that set something ----

  /** The last call that sets the system key; likewise for the others. */
  ghost predicate LastSystem(cs: seq<Call>, i: nat) {
    i < |cs| && cs[i].SetSystemKey? && forall j :: i < j < |cs| ==> !cs[j].SetSystemKey?
  }

  ghost predicate LastInit(cs: seq<Call>, i: nat) {
    i < |cs| && cs[i].SetInitCbc? && forall j :: i < j < |cs| ==> !cs[j].SetInitCbc?
  }

  /** The scramble keys set there have been neither replaced nor cleared. */
  ghost predicate LastScramble(cs: seq<Call>, i: nat) {
    && i < |cs| && cs[i].SetScrambleKey?
    && forall j :: i < j < |cs| ==> !cs[j].SetScrambleKey? && !cs[j].ClearScrambleKey?
  }

  ghost predicate RoundsAre(cs: seq<Call>, r: int) {
    || (r == 4 && forall j :: 0 <= j < |cs| ==> !cs[j].SetRound?)
    || (exists i :: 0 <= i < |cs| && cs[i] == SetRound(r) && forall j :: i < j < |cs| ==> !cs[j].SetRound?)
  }

  lemma {:induction false} OneMore(e: Eager, cs: seq<Call>)
    requires |cs| > 0
    ensures RunEager(e, cs).0 == RunEager(e, cs[..|cs| - 1]).0.Step(cs[|cs| - 1]).0
    decreases |cs|
  {
    hide Eager.Step;
    if |cs| > 1 {
      OneMore(e.Step(cs[0]).0, cs[1..]);
      assert cs[1..][..|cs| - 2] == cs[..|cs| - 1][1..];
    } else {
      assert cs[..0] == [] && cs[1..] == [];
      assert RunEager(e.Step(cs[0]).0, []).0 == e.Step(cs[0]).0;
    }
  }

  function EagerAfter(cs: seq<Call>): Eager { RunEager(NEW_EAGER, cs).0 }

  lemma EagerMore(cs: seq<Call>)
    requires |cs| > 0
    ensures EagerAfter(cs) == EagerAfter(cs[..|cs| - 1]).Step(cs[|cs| - 1]).0
  {
    hide Eager.Step, RunEager;
    OneMore(NEW_EAGER, cs);
  }

  lemma {:induction false} RoundsIs(cs: seq<Call>, r: int)
    requires RoundsAre(cs, r)
    ensures EagerAfter(cs).rounds == r
    decreases |cs|
  {
    hide EagerAfter;
    if |cs| == 0 {
      Fresh4();
    } else {
      EagerMore(cs);
      var before := cs[..|cs| - 1];
      if !cs[|cs| - 1].SetRound? {
        RoundsIs(before, r);
      }
    }
  }

  lemma Fresh4()
    ensures EagerAfter([]) == NEW_EAGER
  {
  }

  lemma {:induction false} SystemIs(cs: seq<Call>, i: nat)
    requires LastSystem(cs, i)
    ensures EagerAfter(cs).system == cs[i].system
    decreases |cs|
  {
    hide EagerAfter, WorkKey;
    EagerMore(cs);
    if i < |cs| - 1 {
      SystemIs(cs[..|cs| - 1], i);
    }
  }

  lemma {:induction false} InitIs(cs: seq<Call>, i: nat)
    requires LastInit(cs, i)
    ensures EagerAfter(cs).iv == cs[i].init
    decreases |cs|
  {
    hide EagerAfter, WorkKey;
    EagerMore(cs);
    if i < |cs| - 1 {
      InitIs(cs[..|cs| - 1], i);
    }
  }

  lemma {:induction false} ScrambleIs(cs: seq<Call>, i: nat)
    requires LastScramble(cs, i)
    ensures EagerAfter(cs).odd == WorkKey(EagerAfter(cs[..i]).system, cs[i].odd)
    ensures EagerAfter(cs).even == WorkKey(EagerAfter(cs[..i]).system, cs[i].even)
    decreases |cs|
  {
    hide EagerAfter, WorkKey;
    EagerMore(cs);
    if i < |cs| - 1 {
      ScrambleIs(cs[..|cs| - 1], i);
      assert cs[..|cs| - 1][..i] == cs[..i];
    }
  }

  // ---- Which calls succeed ----

  ghost predicate SystemSet(cs: seq<Call>) { exists i :: 0 <= i < |cs| && cs[i].SetSystemKey? }

  ghost predicate InitSet(cs: seq<Call>) { exists i :: 0 <= i < |cs| && cs[i].SetInitCbc? }

  ghost predicate ScrambleSet(cs: seq<Call>) { exists i :: LastScramble(cs, i) }

  lemma {:induction false} FlagsAre(cs: seq<Call>)
    ensures EagerAfter(cs).systemSet == SystemSet(cs) && EagerAfter(cs).cbcSet == InitSet(cs)
    decreases |cs|
  {
    hide EagerAfter, WorkKey;
    if |cs| == 0 {
      Fresh4();
    } else {
      EagerMore(cs);
      FlagsAre(cs[..|cs| - 1]);
      var before := cs[..|cs| - 1];
      if SystemSet(before) {
        var i :| 0 <= i < |before| && before[i].SetSystemKey?;
        assert cs[i].SetSystemKey?;
      }
      if InitSet(before) {
        var i :| 0 <= i < |before| && before[i].SetInitCbc?;
        assert cs[i].SetInitCbc?;
      }
    }
  }

  lemma ScrambleMore(cs: seq<Call>)
    requires |cs| > 0
    ensures var c := cs[|cs| - 1];
      ScrambleSet(cs) == (c.SetScrambleKey? || (!c.ClearScrambleKey? && ScrambleSet(cs[..|cs| - 1])))
  {
    var before, n := cs[..|cs| - 1], |cs| - 1;
    if ScrambleSet(cs) && !cs[n].SetScrambleKey? {
      var i :| LastScramble(cs, i);
      assert LastScramble(before, i);
    }
    if cs[n].SetScrambleKey? {
      assert LastScramble(cs, n);
    } else if !cs[n].ClearScrambleKey? && ScrambleSet(before) {
      var i :| LastScramble(before, i);
      assert LastScramble(cs, i);
    }
  }

  lemma {:induction false} ScrambleFlagIs(cs: seq<Call>)
    ensures EagerAfter(cs).scrambleSet == ScrambleSet(cs)
    decreases |cs|
  {
    hide EagerAfter, WorkKey, ScrambleSet;
    if |cs| == 0 {
      Fresh4();
      assert !ScrambleSet(cs) by { NoScramble(); }
    } else {
      EagerMore(cs);
      ScrambleMore(cs);
      ScrambleFlagIs(cs[..|cs| - 1]);
    }
  }

  lemma NoScramble()
    ensures !ScrambleSet([])
  {
  }

  /** The code of a call after any calls: nothing to do, no initial value, no system key, no scramble key, or none. */
  lemma CodeAfter(cs: seq<Call>, kind: int, d: seq<byte>)
    ensures EagerAfter(cs).Step(Decrypt(kind, d)).1.code
      == if |d| < 1 then -1 else if !InitSet(cs) then -3 else if !SystemSet(cs) then -2 else if !ScrambleSet(cs) then -4
         else 0
    ensures EagerAfter(cs).Step(Encrypt(kind, d)).1.code == EagerAfter(cs).Step(Decrypt(kind, d)).1.code
    ensures EagerAfter(cs).Step(Decrypt(kind, d)).1.code != 0 ==>
      EagerAfter(cs).Step(Decrypt(kind, d)).1.data == d && EagerAfter(cs).Step(Encrypt(kind, d)).1.data == d
  {
    hide EagerAfter, SystemSet, InitSet, ScrambleSet, Crypt;
    FlagsAre(cs);
    ScrambleFlagIs(cs);
  }

  // ---- Which bytes a call gives ----

  /** The system key there was when the scramble keys were last set, and the other parameters as last set. */
  ghost predicate CalledFor(cs: seq<Call>, system: nat, iv: nat, scramble: nat, r: int) {
    LastScramble(cs, scramble) && LastSystem(cs[..scramble], system) && LastInit(cs, iv) && RoundsAre(cs, r)
  }

  /** The cipher that packets of a kind meet. */
  ghost function CipherFor(cs: seq<Call>, system: nat, scramble: nat, r: int, kind: int): BlockCipher
    requires LastScramble(cs, scramble) && LastSystem(cs[..scramble], system)
  {
    Reference(WorkKey(cs[system].system, if kind == 2 then cs[scramble].even else cs[scramble].odd), r)
  }

  /** After any calls, by the eager object. */
  lemma EagerReplies(cs: seq<Call>, system: nat, iv: nat, scramble: nat, r: int, kind: int, d: seq<byte>)
    requires CalledFor(cs, system, iv, scramble, r) && |d| >= 1
    ensures var m, c := EagerAfter(cs), CipherFor(cs, system, scramble, r, kind);
      && m.Step(Decrypt(kind, d)).1 == Reply(0, c.DecryptBytes(cs[iv].init, d))
      && m.Step(Encrypt(kind, d)).1 == Reply(0, c.EncryptBytes(cs[iv].init, d))
  {
    hide EagerAfter, WorkKey, Reference, RoundsAre, SystemSet, InitSet, ScrambleSet, BlockCipher.DecryptBytes,
      BlockCipher.EncryptBytes;
    ScrambleIs(cs, scramble);
    SystemIs(cs[..scramble], system);
    InitIs(cs, iv);
    RoundsIs(cs, r);
    Called(cs, system, iv, scramble, r);
    FlagsAre(cs);
    ScrambleFlagIs(cs);
  }

  lemma Called(cs: seq<Call>, system: nat, iv: nat, scramble: nat, r: int)
    requires CalledFor(cs, system, iv, scramble, r)
    ensures SystemSet(cs) && InitSet(cs) && ScrambleSet(cs)
  {
    assert cs[..scramble][system] == cs[system];
  }

  /** After any orderly calls, by the lazy object as well. */
  lemma LazyReplies(cs: seq<Call>, system: nat, iv: nat, scramble: nat, r: int, kind: int, d: seq<byte>)
    requires CalledFor(cs, system, iv, scramble, r) && |d| >= 1 && OrderlyRun(NEW_EAGER, NEW_LAZY, cs)
    ensures var l, c := RunLazy(NEW_LAZY, cs).0, CipherFor(cs, system, scramble, r, kind);
      && l.Step(Decrypt(kind, d)).1 == Reply(0, c.DecryptBytes(cs[iv].init, d))
      && l.Step(Encrypt(kind, d)).1 == Reply(0, c.EncryptBytes(cs[iv].init, d))
  {
    hide OrderlyRun, RunEager, RunLazy, Eager.Step, Lazy.Step, BlockCipher.DecryptBytes, BlockCipher.EncryptBytes,
      Agree, CipherFor;
    NewAgree();
    RunsAgree(NEW_EAGER, NEW_LAZY, cs);
    EagerReplies(cs, system, iv, scramble, r, kind, d);
    CryptAgrees(EagerAfter(cs), RunLazy(NEW_LAZY, cs).0, Decrypt(kind, d));
    CryptAgrees(EagerAfter(cs), RunLazy(NEW_LAZY, cs).0, Encrypt(kind, d));
  }

  lemma NewAgree()
    ensures Agree(NEW_EAGER, NEW_LAZY)
  {
  }
}
