/**
 The two MULTI2 objects. The C object schedules its work keys when the scramble key is set; the C++ object keeps the
 data keys and schedules a work key when it is first used. Each is a class proved against a step function on its
 state, and the step functions are compared over whole call sequences.
 */
module Multi2Keys {
  import opened Prelude
  import opened Bytes
  import opened Multi2
  import opened Multi2Arith
  import opened Multi2Cbc
  import opened Multi2Dispatch

  const OK := 0

  const INVALID_PARAMETER := -1

  const UNSET_SYSTEM_KEY := -2

  const UNSET_CBC_INIT := -3

  const UNSET_SCRAMBLE_KEY := -4

  const ZERO_KEY: Key := [0, 0, 0, 0, 0, 0, 0, 0]

  function WorkKey(system: Key, data: Block<word>): Key { Words(PLAIN).Schedule(system, data) }

  /** Packets marked 0x02 use the even key, all others the odd key. */
  function KeyIndex(kind: int): nat { if kind == 0x02 then 1 else 0 }

  datatype Call =
    | SetRound(rounds: int)
    | SetSystemKey(system: Key)
    | SetInitCbc(init: Block<word>)
    | SetScrambleKey(odd: Block<word>, even: Block<word>)
    | ClearScrambleKey
    | Encrypt(kind: int, data: seq<byte>)
    | Decrypt(kind: int, data: seq<byte>)

  datatype Reply = Reply(code: int, data: seq<byte>)

  function Crypt(c: Call, w: Key, rounds: int, iv: Block<word>): seq<byte>
    requires c.Encrypt? || c.Decrypt?
  {
    if c.Encrypt? then Reference(w, rounds).EncryptBytes(iv, c.data) else Reference(w, rounds).DecryptBytes(iv, c.data)
  }

  // ---- The eager object ----

  datatype Eager = Eager(
    rounds: int,
    cbcSet: bool, systemSet: bool, scrambleSet: bool,
    iv: Block<word>, system: Key, odd: Key, even: Key)
  {
    function Status(n: int): int {
      if n < 1 then INVALID_PARAMETER
      else if !cbcSet then UNSET_CBC_INIT
      else if !systemSet then UNSET_SYSTEM_KEY
      else if !scrambleSet then UNSET_SCRAMBLE_KEY
      else OK
    }

    function Work(kind: int): Key { if KeyIndex(kind) == 1 then even else odd }

    function Step(c: Call): (Eager, Reply) {
      match c
      case SetRound(r) => (this.(rounds := r), Reply(OK, []))
      case SetSystemKey(k) => (this.(system := k, systemSet := true), Reply(OK, []))
      case SetInitCbc(b) => (this.(iv := b, cbcSet := true), Reply(OK, []))
      case SetScrambleKey(o, e) =>
        (this.(odd := WorkKey(system, o), even := WorkKey(system, e), scrambleSet := true), Reply(OK, []))
      case ClearScrambleKey => (this.(odd := ZERO_KEY, even := ZERO_KEY, scrambleSet := false), Reply(OK, []))
      case _ =>
        var status := Status(|c.data|);
        (this, Reply(status, if status == OK then Crypt(c, Work(c.kind), rounds, iv) else c.data))
    }
  }

  /** The object as `create_multi2` leaves it: four rounds, everything else zero. */
  const NEW_EAGER := Eager(4, false, false, false, Block(0, 0), ZERO_KEY, ZERO_KEY, ZERO_KEY)

  // ---- The lazy object ----

  datatype Lazy = Lazy(
    rounds: int,
    system: Option<Key>, iv: Option<Block<word>>,
    oddData: Option<Block<word>>, evenData: Option<Block<word>>,
    oddWork: Option<Key>, evenWork: Option<Key>)
  {
    function Data(kind: int): Option<Block<word>> { if KeyIndex(kind) == 1 then evenData else oddData }

    function Work(kind: int): Option<Key> { if KeyIndex(kind) == 1 then evenWork else oddWork }

    function Status(kind: int, n: int): int {
      if n < 1 then INVALID_PARAMETER
      else if iv.None? then UNSET_CBC_INIT
      else if Work(kind).Some? then OK
      else if system.None? then UNSET_SYSTEM_KEY
      else if Data(kind).None? then UNSET_SCRAMBLE_KEY
      else OK
    }

    /** The object after the work key a successful call needs has been filled in. */
    function Filled(kind: int): (l: Lazy)
      requires Work(kind).Some? || (system.Some? && Data(kind).Some?)
      ensures l.Work(kind).Some?
    {
      if Work(kind).Some? then this
      else
        var w := WorkKey(system.value, Data(kind).value);
        if KeyIndex(kind) == 1 then this.(evenWork := Some(w)) else this.(oddWork := Some(w))
    }

    function Step(c: Call): (Lazy, Reply) {
      match c
      case SetRound(r) => (this.(rounds := r), Reply(OK, []))
      case SetSystemKey(k) => (this.(system := Some(k)), Reply(OK, []))
      case SetInitCbc(b) => (this.(iv := Some(b)), Reply(OK, []))
      case SetScrambleKey(o, e) =>
        (this.(oddData := Some(o), oddWork := if oddData == Some(o) then oddWork else None,
               evenData := Some(e), evenWork := if evenData == Some(e) then evenWork else None), Reply(OK, []))
      case ClearScrambleKey => (this.(oddData := None, evenData := None, oddWork := None, evenWork := None),
        Reply(OK, []))
      case _ =>
        if Status(c.kind, |c.data|) != OK then
          (this, Reply(Status(c.kind, |c.data|), c.data))
        else
          var l := Filled(c.kind);
          (l, Reply(OK, Crypt(c, l.Work(c.kind).value, rounds, iv.value)))
    }
  }

  const NEW_LAZY := Lazy(4, None, None, None, None, None, None)

  // ---- The comparison ----

  /** A work key that is present is the schedule of the current data key under the current system key. */
  ghost predicate Fresh(l: Lazy) {
    && (l.oddWork.Some? ==>
          l.system.Some? && l.oddData.Some? && l.oddWork.value == WorkKey(l.system.value, l.oddData.value))
    && (l.evenWork.Some? ==>
          l.system.Some? && l.evenData.Some? && l.evenWork.value == WorkKey(l.system.value, l.evenData.value))
  }

  ghost predicate Agree(e: Eager, l: Lazy) {
    && Fresh(l)
    && e.rounds == l.rounds
    && e.cbcSet == l.iv.Some? && (l.iv.Some? ==> e.iv == l.iv.value)
    && e.systemSet == l.system.Some? && (l.system.Some? ==> e.system == l.system.value)
    && e.scrambleSet == l.oddData.Some? == l.evenData.Some?
    && (l.system.Some? && l.oddData.Some? && l.evenData.Some? ==>
          e.odd == WorkKey(e.system, l.oddData.value) && e.even == WorkKey(e.system, l.evenData.value))
  }

  /** What callers must see to: a system key set while scramble keys are loaded schedules the work keys they have. */
  ghost predicate Orderly(e: Eager, l: Lazy, c: Call) {
    c.SetSystemKey? && l.oddData.Some? && l.evenData.Some? ==>
      e.odd == WorkKey(c.system, l.oddData.value) && e.even == WorkKey(c.system, l.evenData.value)
  }

  /** Every call draws the same reply from objects that agree, and they still agree exactly when it was orderly. */
  lemma StepAgrees(e: Eager, l: Lazy, c: Call)
    requires Agree(e, l)
    ensures e.Step(c).1 == l.Step(c).1
    ensures Agree(e.Step(c).0, l.Step(c).0) <==> Orderly(e, l, c)
  {
    hide WorkKey, Crypt;
    if c.SetScrambleKey? {
      hide KeyIndex;
    } else if c.Encrypt? || c.Decrypt? {
      CryptAgrees(e, l, c);
    }
  }

  /** Setting no new system key while scramble keys are loaded is orderly. */
  lemma SameSystemKeyIsOrderly(e: Eager, l: Lazy, c: Call)
    requires Agree(e, l)
    requires c.SetSystemKey? ==> l.oddData.None? || l.system == Some(c.system)
    ensures Orderly(e, l, c)
  {
    hide WorkKey;
  }

  lemma CryptAgrees(e: Eager, l: Lazy, c: Call)
    requires Agree(e, l) && (c.Encrypt? || c.Decrypt?)
    ensures Agree(e.Step(c).0, l.Step(c).0)
    ensures e.Step(c).1 == l.Step(c).1
  {
    hide WorkKey, Crypt;
  }

  /** States reached and replies given over a run of calls. */
  function RunEager(e: Eager, cs: seq<Call>): (Eager, seq<Reply>)
    decreases |cs|
  {
    if |cs| == 0 then (e, [])
    else
      var (e1, r) := e.Step(cs[0]);
      var (e2, rs) := RunEager(e1, cs[1..]);
      (e2, [r] + rs)
  }

  function RunLazy(l: Lazy, cs: seq<Call>): (Lazy, seq<Reply>)
    decreases |cs|
  {
    if |cs| == 0 then (l, [])
    else
      var (l1, r) := l.Step(cs[0]);
      var (l2, rs) := RunLazy(l1, cs[1..]);
      (l2, [r] + rs)
  }

  ghost predicate OrderlyRun(e: Eager, l: Lazy, cs: seq<Call>)
    decreases |cs|
  {
    |cs| == 0 || (Orderly(e, l, cs[0]) && OrderlyRun(e.Step(cs[0]).0, l.Step(cs[0]).0, cs[1..]))
  }

  lemma {:induction false} RunsAgree(e: Eager, l: Lazy, cs: seq<Call>)
    requires Agree(e, l) && OrderlyRun(e, l, cs)
    ensures RunEager(e, cs).1 == RunLazy(l, cs).1
    ensures Agree(RunEager(e, cs).0, RunLazy(l, cs).0)
    decreases |cs|
  {
    if |cs| > 0 {
      hide Agree, Orderly, Eager.Step, Lazy.Step;
      StepAgrees(e, l, cs[0]);
      RunsAgree(e.Step(cs[0]).0, l.Step(cs[0]).0, cs[1..]);
    }
  }

  /** From new objects on, every orderly call sequence draws the same replies, and cached work keys are fresh. */
  lemma NewObjectsAgree(cs: seq<Call>)
    requires OrderlyRun(NEW_EAGER, NEW_LAZY, cs)
    ensures RunEager(NEW_EAGER, cs).1 == RunLazy(NEW_LAZY, cs).1
    ensures Fresh(RunLazy(NEW_LAZY, cs).0)
  {
    hide RunEager, RunLazy, OrderlyRun;
    RunsAgree(NEW_EAGER, NEW_LAZY, cs);
  }

  lemma EagerRoundTrip(e: Eager, kind: int, data: seq<byte>)
    requires e.Status(|data|) == OK
    ensures |e.Step(Encrypt(kind, data)).1.data| == |data|
    ensures e.Step(Decrypt(kind, e.Step(Encrypt(kind, data)).1.data)).1 == Reply(OK, data)
  {
    hide WorkKey, BlockCipher.EncryptBytes, BlockCipher.DecryptBytes, Keyed;
    ReferenceRoundTrip(e.Work(kind), e.rounds, e.iv, data);
  }

  /** What one object encrypts the other decrypts. */
  lemma CrossRoundTrip(e: Eager, l: Lazy, kind: int, data: seq<byte>)
    requires Agree(e, l) && e.Status(|data|) == OK
    ensures l.Step(Decrypt(kind, e.Step(Encrypt(kind, data)).1.data)).1 == Reply(OK, data)
    ensures e.Step(Decrypt(kind, l.Step(Encrypt(kind, data)).1.data)).1 == Reply(OK, data)
  {
    hide WorkKey, BlockCipher.EncryptBytes, BlockCipher.DecryptBytes, Keyed;
    CryptAgrees(e, l, Encrypt(kind, data));
    var ct := e.Step(Encrypt(kind, data)).1.data;
    CryptAgrees(e, l, Decrypt(kind, ct));
    ReferenceRoundTrip(e.Work(kind), e.rounds, e.iv, data);
  }

  // ---- Why the restriction is there ----

  const LATE_KEY: Key := [1, 0, 0, 0, 0, 0, 0, 0]

  lemma ZeroSchedule()
    ensures WorkKey(ZERO_KEY, Block(0, 0)) == [0, 0x01010101, 0x05050506, 0x04040407, 0xc9c9c852, 0xbab3fb60,
      0x6c4a20b1, 0xd6f9dbd1]
  {
    var a := Words(PLAIN);
    assert a.Pi2(Block(0, 0), 0) == Block(0, 0);
    assert a.Pi3(Block(0, 0), 0, 0) == Block(0, 0x01010101);
    assert a.Pi4(Block(0, 0x01010101), 0) == Block(0x05050506, 0x01010101);
    assert a.Pi1(Block(0x05050506, 0x01010101)) == Block(0x05050506, 0x04040407);
    assert a.Pi2(Block(0x05050506, 0x04040407), 0) == Block(0xc9c9c852, 0x04040407);
    assert a.Pi3(Block(0xc9c9c852, 0x04040407), 0, 0) == Block(0xc9c9c852, 0xbab3fb60);
    assert a.Pi4(Block(0xc9c9c852, 0xbab3fb60), 0) == Block(0x6c4a20b1, 0xbab3fb60);
  }

  lemma LateSchedule()
    ensures WorkKey(LATE_KEY, Block(0, 0)) == [0x00000022, 0xabababab, 0x5a5a5a78, 0xf1f1f1d3, 0xd2d2d89c, 0x08080a68,
      0xfafaec95, 0xf2f2e6fd]
  {
    var a := Words(PLAIN);
    assert a.Pi2(Block(0, 0), 1) == Block(0x00000022, 0);
    assert a.Pi3(Block(0x00000022, 0), 0, 0) == Block(0x00000022, 0xabababab);
    assert a.Pi4(Block(0x00000022, 0xabababab), 0) == Block(0x5a5a5a78, 0xabababab);
    assert a.Pi1(Block(0x5a5a5a78, 0xabababab)) == Block(0x5a5a5a78, 0xf1f1f1d3);
    assert a.Pi2(Block(0x5a5a5a78, 0xf1f1f1d3), 0) == Block(0xd2d2d89c, 0xf1f1f1d3);
    assert a.Pi3(Block(0xd2d2d89c, 0xf1f1f1d3), 0, 0) == Block(0xd2d2d89c, 0x08080a68);
    assert a.Pi4(Block(0xd2d2d89c, 0x08080a68), 0) == Block(0xfafaec95, 0x08080a68);
  }

  lemma ZeroRound()
    ensures Words(PLAIN).EncryptRound(Block(0, 0),
      [0, 0x01010101, 0x05050506, 0x04040407, 0xc9c9c852, 0xbab3fb60, 0x6c4a20b1, 0xd6f9dbd1])
        == Block(0x4e74e1f1, 0xfb1cbba1)
  {
    var a := Words(PLAIN);
    assert a.Pi1(Block(0, 0)) == Block(0, 0);
    assert a.Pi2(Block(0, 0), 0) == Block(0, 0);
    assert a.Pi3(Block(0, 0), 0x01010101, 0x05050506) == Block(0, 0x0d0c0d0c);
    assert a.Pi4(Block(0, 0x0d0c0d0c), 0x04040407) == Block(0x55505560, 0x0d0c0d0c);
    assert a.Pi1(Block(0x55505560, 0x0d0c0d0c)) == Block(0x55505560, 0x585c586c);
    assert a.Pi2(Block(0x55505560, 0x585c586c), 0xc9c9c852) == Block(0x540414cf, 0x585c586c);
    assert a.Pi3(Block(0x540414cf, 0x585c586c), 0xbab3fb60, 0x6c4a20b1) == Block(0x540414cf, 0xfb1cbba1);
    assert a.Pi4(Block(0x540414cf, 0xfb1cbba1), 0xd6f9dbd1) == Block(0x4e74e1f1, 0xfb1cbba1);
  }

  lemma LateRound()
    ensures Words(PLAIN).EncryptRound(Block(0, 0),
      [0x00000022, 0xabababab, 0x5a5a5a78, 0xf1f1f1d3, 0xd2d2d89c, 0x08080a68, 0xfafaec95, 0xf2f2e6fd])
        == Block(0xc0e472bb, 0x4fb05007)
  {
    var a := Words(PLAIN);
    assert a.Pi1(Block(0, 0)) == Block(0, 0);
    assert a.Pi2(Block(0, 0), 0x00000022) == Block(0x00000635, 0);
    assert a.Pi3(Block(0x00000635, 0), 0xabababab, 0x5a5a5a78) == Block(0x00000635, 0x2ecc2cc8);
    assert a.Pi4(Block(0x00000635, 0x2ecc2cc8), 0xf1f1f1d3) == Block(0xa3b69f3d, 0x2ecc2cc8);
    assert a.Pi1(Block(0xa3b69f3d, 0x2ecc2cc8)) == Block(0xa3b69f3d, 0x8d7ab3f5);
    assert a.Pi2(Block(0xa3b69f3d, 0x8d7ab3f5), 0xd2d2d89c) == Block(0x8dd461ad, 0x8d7ab3f5);
    assert a.Pi3(Block(0x8dd461ad, 0x8d7ab3f5), 0x08080a68, 0xfafaec95) == Block(0x8dd461ad, 0x4fb05007);
    assert a.Pi4(Block(0x8dd461ad, 0x4fb05007), 0xf2f2e6fd) == Block(0xc0e472bb, 0x4fb05007);
  }

  /** One zero byte under one round shows the first byte of the encrypted initial value. */
  lemma OneByte(w: Key)
    ensures Reference(w, 1).DecryptBytes(Block(0, 0), [0]) == [Byte3(Words(PLAIN).EncryptRound(Block(0, 0), w).left)]
  {
    hide Arith.EncryptRound, StoreBe;
    var c := Reference(w, 1);
    var b := Words(PLAIN).EncryptRound(Block(0, 0), w);
    assert c.Enc(Block(0, 0)) == b by {
      assert Words(PLAIN).Encrypt(Block(0, 0), w, 0) == Block(0, 0);
    }
    FirstOfBlock(b);
    ZeroXor(Byte3(b.left));
    assert XorBytes([0], StoreBlock(b))[0] == Byte3(b.left);
  }

  lemma FirstOfBlock(b: Block<word>)
    ensures StoreBlock(b)[0] == Byte3(b.left)
  {
  }

  lemma ZeroXor(b: byte)
    ensures Xor8(0, b) == b
  {
  }

  lemma RunEagerTwo(e: Eager, a: Call, b: Call)
    ensures RunEager(e, [a, b]).0 == e.Step(a).0.Step(b).0
  {
    hide Eager.Step;
    var rest := [a, b][1..];
    assert rest == [b];
    assert RunEager(e.Step(a).0, rest).0 == e.Step(a).0.Step(b).0 by {
      assert rest[1..] == [];
    }
  }

  lemma RunLazyTwo(l: Lazy, a: Call, b: Call)
    ensures RunLazy(l, [a, b]).0 == l.Step(a).0.Step(b).0
  {
    hide Lazy.Step;
    var rest := [a, b][1..];
    assert rest == [b];
    assert RunLazy(l.Step(a).0, rest).0 == l.Step(a).0.Step(b).0 by {
      assert rest[1..] == [];
    }
  }

  /** One-round objects with a zero initial value and no system key yet. */
  const PREPARED_EAGER := NEW_EAGER.(rounds := 1, iv := Block(0, 0), cbcSet := true)

  const PREPARED_LAZY := NEW_LAZY.(rounds := 1, iv := Some(Block(0, 0)))

  const LATE_RUN := [SetScrambleKey(Block(0, 0), Block(0, 0)), SetSystemKey(LATE_KEY)]

  /** A system key set after the scramble key: one object still uses the old schedule, the other the new one. */
  lemma LateSystemKeyDisagrees()
    ensures Agree(PREPARED_EAGER, PREPARED_LAZY)
    ensures RunEager(PREPARED_EAGER, LATE_RUN).0.Step(Decrypt(1, [0])).1 == Reply(OK, [0x4e])
    ensures RunLazy(PREPARED_LAZY, LATE_RUN).0.Step(Decrypt(1, [0])).1 == Reply(OK, [0xc0])
  {
    hide WorkKey, Reference, Arith.EncryptRound, RunEager, RunLazy;
    RunEagerTwo(PREPARED_EAGER, LATE_RUN[0], LATE_RUN[1]);
    RunLazyTwo(PREPARED_LAZY, LATE_RUN[0], LATE_RUN[1]);
    ZeroSchedule();
    LateSchedule();
    ZeroRound();
    LateRound();
    OneByte(WorkKey(ZERO_KEY, Block(0, 0)));
    OneByte(WorkKey(LATE_KEY, Block(0, 0)));
  }
}
