/**
 The key state of a decryptor: what ECM sections, the card's answers and EMM sections do to the cipher object and its
 scramble keys. The card is asked through the answers it gives; any sequence of answers is allowed.
 */
module EcmKeys {
  import opened Prelude
  import opened Bytes
  import opened Multi2Cbc
  import opened Multi2Keys
  import opened Multi2Objects

  const ERROR_EMPTY_B_CAS_CARD := -7

  const ERROR_INVALID_B_CAS_STATUS := -8

  const ERROR_ECM_PROC_FAILURE := -9

  const ERROR_EMM_PROC_FAILURE := -16

  const WARN_UNPURCHASED_ECM := 1

  const WARN_TS_SECTION_ID_MISMATCH := 2

  const ECM_S := 0x82

  type KeyPair = s: seq<byte> | |s| == 16 witness seq(16, _ => 0)

  /** What the card says to an ECM: the request failed, or a return code and the odd and even scramble key. */
  datatype Answer = Failed | Answered(code: int, keys: KeyPair)

  predicate Purchased(a: Answer) { a.Answered? && (a.code == 0x0800 || a.code == 0x0400 || a.code == 0x0200) }

  type SystemKeyBytes = s: seq<byte> | |s| == 32 witness seq(32, _ => 0)

  type InitCbcBytes = s: seq<byte> | |s| == 8 witness seq(8, _ => 0)

  datatype InitStatus = InitStatus(systemKey: SystemKeyBytes, initCbc: InitCbcBytes)

  /** What happens to one decryptor. */
  datatype KeyEvent =
    | Section(tableId: int, card: bool, answer: Answer, init: Option<InitStatus>)
    | Unlock

  datatype Keys = Keys(locked: int, unpurchased: int, lastError: int, m2: Option<Eager>)
  {
    /** The card is asked only with a card present, an ECM section at hand, and no refusal standing. */
    predicate Asks(e: KeyEvent) { e.Section? && e.card && e.tableId == ECM_S && locked == 0 }

    /** The cipher object after a purchased answer; a new one takes its other parameters from the card. */
    function Loaded(keys: KeyPair, init: Option<InitStatus>, rounds: int): (r: (Eager, int)) {
      if m2.None? && init.None? then (NEW_EAGER, ERROR_INVALID_B_CAS_STATUS)
      else
        var m := if m2.Some? then m2.value
          else NEW_EAGER.Step(SetSystemKey(KeyAt(init.value.systemKey))).0
                        .Step(SetInitCbc(LoadBlock(init.value.initCbc, 0))).0
                        .Step(SetRound(rounds)).0;
        (m.Step(SetScrambleKey(LoadBlock(keys, 0), LoadBlock(keys, 8))).0, OK)
    }

    function Step(e: KeyEvent, rounds: int): (Keys, int) {
      match e
      case Unlock => (this.(locked := 0), OK)
      case Section(tableId, card, answer, init) =>
        if !card then (this, ERROR_EMPTY_B_CAS_CARD)
        else if tableId != ECM_S then (this, WARN_TS_SECTION_ID_MISMATCH)
        else if locked != 0 then (this.(unpurchased := unpurchased + 1), WARN_UNPURCHASED_ECM)
        else if answer.Failed? then
          (if m2.Some? then this.(m2 := Some(m2.value.Step(ClearScrambleKey).0)) else this, ERROR_ECM_PROC_FAILURE)
        else if !Purchased(answer) then
          (Keys(locked + 1, unpurchased + 1, answer.code, None), WARN_UNPURCHASED_ECM)
        else
          var (m, code) := Loaded(answer.keys, init, rounds);
          (this.(m2 := Some(m)), code)
    }
  }

  /** A decryptor as it is allocated. */
  const NEW_KEYS := Keys(0, 0, 0, None)

  function After(k: Keys, es: seq<KeyEvent>, rounds: int): Keys
    decreases |es|
  {
    if |es| == 0 then k else After(k, es[..|es| - 1], rounds).Step(es[|es| - 1], rounds).0
  }

  /** The card's latest answer in a run. */
  function Latest(k: Keys, es: seq<KeyEvent>, rounds: int): Option<Answer>
    decreases |es|
  {
    if |es| == 0 then None
    else
      var before := es[..|es| - 1];
      var e := es[|es| - 1];
      if After(k, before, rounds).Asks(e) then Some(e.answer) else Latest(k, before, rounds)
  }

  /** The work keys are the schedules of the key pair under the object's system key. */
  predicate Holds(m: Eager, keys: KeyPair) {
    && m.scrambleSet
    && m.odd == WorkKey(m.system, LoadBlock(keys, 0)) && m.even == WorkKey(m.system, LoadBlock(keys, 8))
  }

  /** How the state follows from the card's latest answer. */
  predicate Follows(k: Keys, latest: Option<Answer>) {
    && k.locked >= 0
    && (k.locked > 0 ==> latest.Some? && latest.value.Answered? && !Purchased(latest.value))
    && match latest
       case None => k.m2.None?
       case Some(Failed) => k.m2.Some? ==> !k.m2.value.scrambleSet
       case Some(Answered(_, keys)) =>
         if !Purchased(latest.value) then k.m2.None?
         else k.m2.Some? && (k.m2.value.scrambleSet ==> Holds(k.m2.value, keys))
  }

  lemma StepFollows(k: Keys, latest: Option<Answer>, e: KeyEvent, rounds: int)
    requires Follows(k, latest)
    ensures Follows(k.Step(e, rounds).0, if k.Asks(e) then Some(e.answer) else latest)
  {
    hide WorkKey, LoadBlock, KeyAt;
  }

  lemma {:induction false} RunFollows(es: seq<KeyEvent>, rounds: int)
    ensures Follows(After(NEW_KEYS, es, rounds), Latest(NEW_KEYS, es, rounds))
    decreases |es|
  {
    if |es| > 0 {
      hide Keys.Step, Keys.Asks, Follows;
      var before := es[..|es| - 1];
      RunFollows(before, rounds);
      StepFollows(After(NEW_KEYS, before, rounds), Latest(NEW_KEYS, before, rounds), es[|es| - 1], rounds);
    }
  }

  /**
   Key freshness, over every run: a cipher object that would decrypt holds the keys of the card's latest answer, and
   that answer was a purchased one.
   */
  lemma KeysAreFresh(es: seq<KeyEvent>, rounds: int, n: int)
    requires var k := After(NEW_KEYS, es, rounds); k.m2.Some? && k.m2.value.Status(n) == OK
    ensures var latest := Latest(NEW_KEYS, es, rounds);
      && latest.Some? && Purchased(latest.value)
      && Holds(After(NEW_KEYS, es, rounds).m2.value, latest.value.keys)
  {
    hide After, Latest, WorkKey, LoadBlock;
    RunFollows(es, rounds);
  }

  /** A refusal stands until the decryptor is unlocked. */
  lemma {:induction false} RefusalStands(k: Keys, es: seq<KeyEvent>, rounds: int)
    requires k.locked > 0 && k.m2.None? && forall i :: 0 <= i < |es| ==> es[i] != Unlock
    ensures After(k, es, rounds).locked == k.locked && After(k, es, rounds).m2.None?
    ensures Latest(k, es, rounds) == None
    decreases |es|
  {
    if |es| > 0 {
      RefusalStands(k, es[..|es| - 1], rounds);
    }
  }

  lemma {:induction false} AfterConcat(k: Keys, es: seq<KeyEvent>, fs: seq<KeyEvent>, rounds: int)
    ensures After(k, es + fs, rounds) == After(After(k, es, rounds), fs, rounds)
    decreases |fs|
  {
    hide Keys.Step;
    if |fs| == 0 {
      assert es + fs == es;
    } else {
      assert (es + fs)[..|es + fs| - 1] == es + fs[..|fs| - 1];
      AfterConcat(k, es, fs[..|fs| - 1], rounds);
    }
  }

  /**
   After an unpurchased answer there is no cipher object, and whatever sections come the card is not asked again until
   an EMM for this card has been processed.
   */
  lemma NotAskedAgain(before: seq<KeyEvent>, refusal: KeyEvent, since: seq<KeyEvent>, next: KeyEvent, rounds: int)
    requires After(NEW_KEYS, before, rounds).Asks(refusal)
    requires refusal.answer.Answered? && !Purchased(refusal.answer)
    requires forall i :: 0 <= i < |since| ==> since[i] != Unlock
    ensures var k := After(NEW_KEYS, before + [refusal] + since, rounds); k.m2.None? && !k.Asks(next)
  {
    var k := After(NEW_KEYS, before, rounds);
    assert (before + [refusal])[..|before|] == before;
    var refused := After(NEW_KEYS, before + [refusal], rounds);
    assert refused == k.Step(refusal, rounds).0;
    RefusalStands(refused, since, rounds);
    AfterConcat(NEW_KEYS, before + [refusal], since, rounds);
  }

  /** And once it has, the next ECM section is put to the card; nothing else changes. */
  lemma AskedAfterUnlock(es: seq<KeyEvent>, next: KeyEvent, rounds: int)
    requires next.Section? && next.card && next.tableId == ECM_S
    ensures After(NEW_KEYS, es + [Unlock], rounds).Asks(next)
    ensures After(NEW_KEYS, es + [Unlock], rounds) == After(NEW_KEYS, es, rounds).(locked := 0)
  {
    assert (es + [Unlock])[..|es|] == es;
  }

  // ---- The card's return codes ----

  /**
   Three return codes of the card mean a purchase: the scramble keys of the answer are taken, by the cipher object there
   is or by one made from the initial status. Every other code is a refusal, and takes the cipher object away.
   */
  lemma AnswerCodes(k: Keys, code: int, keys: KeyPair, init: Option<InitStatus>, rounds: int)
    requires k.locked == 0 && (k.m2.Some? || init.Some?)
    ensures var (k', r) := k.Step(Section(0x82, true, Answered(code, keys), init), rounds);
      if code == 0x0800 || code == 0x0400 || code == 0x0200 then
        && r == 0 && k'.locked == 0 && k'.unpurchased == k.unpurchased && k'.lastError == k.lastError && k'.m2.Some?
        && Holds(k'.m2.value, keys)
        && (k.m2.None? ==> SetUpBy(k'.m2.value, init.value, rounds))
        && (k.m2.Some? ==> k'.m2.value.(odd := k.m2.value.odd, even := k.m2.value.even, scrambleSet := true)
                             == k.m2.value.(scrambleSet := true))
      else r == 1 && k' == Keys(1, k.unpurchased + 1, code, None)
  {
    hide WorkKey, LoadBlock, KeyAt;
  }

  /** The system key, the initial value and the round count are as given. */
  predicate SetUpBy(m: Eager, init: InitStatus, rounds: int) {
    && m.systemSet && m.system == KeyAt(init.systemKey)
    && m.cbcSet && m.iv == LoadBlock(init.initCbc, 0)
    && m.rounds == rounds
  }

  /** A section the card is not asked about changes nothing but the count of the unpurchased ones. */
  lemma NotAskedAbout(k: Keys, e: KeyEvent, rounds: int)
    requires e.Section? && !k.Asks(e)
    ensures var (k', r) := k.Step(e, rounds);
      && r == (if !e.card then -7 else if e.tableId != 0x82 then 2 else 1)
      && k' == k.(unpurchased := k.unpurchased + if r == 1 then 1 else 0)
  {
  }

  /** When the request fails the scramble keys are forgotten: nothing can be decrypted until the next purchase. */
  lemma FailedForgets(k: Keys, e: KeyEvent, rounds: int, n: int)
    requires k.Asks(e) && e.answer.Failed?
    ensures var (k', r) := k.Step(e, rounds);
      && r == -9 && k'.m2.Some? == k.m2.Some? && (k'.m2.Some? ==> k'.m2.value.Status(n) != OK)
      && k'.locked == k.locked && k'.unpurchased == k.unpurchased && k'.lastError == k.lastError
  {
  }

  /** How many sections of a run drew the warning that they are not purchased. */
  function Warnings(k: Keys, es: seq<KeyEvent>, rounds: int): nat
    decreases |es|
  {
    if |es| == 0 then 0
    else
      var before := es[..|es| - 1];
      var e := es[|es| - 1];
      Warnings(k, before, rounds)
      + if e.Section? && After(k, before, rounds).Step(e, rounds).1 == WARN_UNPURCHASED_ECM then 1 else 0
  }

  /** The count of unpurchased sections is exactly that. */
  lemma {:induction false} UnpurchasedCounts(k: Keys, es: seq<KeyEvent>, rounds: int)
    ensures After(k, es, rounds).unpurchased == k.unpurchased + Warnings(k, es, rounds)
    decreases |es|
  {
    hide WorkKey, LoadBlock, KeyAt;
    if |es| > 0 {
      UnpurchasedCounts(k, es[..|es| - 1], rounds);
    }
  }

  // ---- The initial status must not fail ----

  /** A run in which the card gives its initial status whenever a cipher object is made. */
  predicate InitsGiven(es: seq<KeyEvent>) { forall i :: 0 <= i < |es| && es[i].Section? ==> es[i].init.Some? }

  predicate Usable(k: Keys) { k.m2.Some? ==> k.m2.value.systemSet && k.m2.value.cbcSet }

  lemma {:induction false} InitsMakeUsable(es: seq<KeyEvent>, rounds: int)
    requires InitsGiven(es)
    ensures Usable(After(NEW_KEYS, es, rounds))
    decreases |es|
  {
    if |es| > 0 {
      hide WorkKey, LoadBlock, KeyAt;
      InitsMakeUsable(es[..|es| - 1], rounds);
    }
  }

  /** Then a purchased latest answer means that decryption works. */
  lemma PurchasedWorks(es: seq<KeyEvent>, e: KeyEvent, rounds: int, n: int)
    requires InitsGiven(es + [e]) && After(NEW_KEYS, es, rounds).Asks(e) && Purchased(e.answer) && n >= 1
    ensures var k := After(NEW_KEYS, es + [e], rounds); k.m2.Some? && k.m2.value.Status(n) == OK
  {
    hide WorkKey, LoadBlock, KeyAt;
    assert (es + [e])[..|es|] == es;
    assert (es + [e])[|es|] == e;
    assert InitsGiven(es) by {
      forall i | 0 <= i < |es| && es[i].Section?
        ensures es[i].init.Some?
      {
        assert (es + [e])[i] == es[i];
      }
    }
    InitsMakeUsable(es, rounds);
  }

  /** In general a purchased answer works exactly when the cipher object was, or now is, set up by the card. */
  lemma PurchasedWorksWhen(k: Keys, e: KeyEvent, rounds: int, n: int)
    requires k.Asks(e) && Purchased(e.answer) && n >= 1
    ensures var m := k.Step(e, rounds).0.m2;
      m.Some? && (m.value.Status(n) == OK <==> if k.m2.None? then e.init.Some? else Usable(k))
  {
    hide WorkKey, LoadBlock, KeyAt;
  }

  /**
   One failure to give the initial status is enough to break that: the cipher object is kept without a system key,
   and no later purchased answer repairs it.
   */
  lemma {:induction false} StaysUnusable(k: Keys, es: seq<KeyEvent>, rounds: int, n: int)
    requires k.m2.Some? && !k.m2.value.cbcSet && k.locked == 0
    requires forall i :: 0 <= i < |es| && es[i].Section? ==> es[i].answer.Failed? || Purchased(es[i].answer)
    ensures After(k, es, rounds).m2.Some? && !After(k, es, rounds).m2.value.cbcSet && After(k, es, rounds).locked == 0
    ensures After(k, es, rounds).m2.value.Status(n) != OK
    decreases |es|
  {
    if |es| > 0 {
      hide WorkKey, LoadBlock, KeyAt;
      StaysUnusable(k, es[..|es| - 1], rounds, n);
    }
  }

  /** It comes from any purchased answer without it: the cipher object is made, and has no parameters and no keys. */
  lemma FailedInitUnusable(k: Keys, e: KeyEvent, rounds: int)
    requires k.Asks(e) && k.m2.None? && Purchased(e.answer) && e.init.None?
    ensures var (k', r) := k.Step(e, rounds);
      && r == -8 && k'.locked == 0 && k'.unpurchased == k.unpurchased && k'.lastError == k.lastError && k'.m2.Some?
      && !k'.m2.value.cbcSet && !k'.m2.value.systemSet && !k'.m2.value.scrambleSet
  {
  }

  // ---- Both cipher objects may be used ----

  /** The calls made on a cipher object set the system key once, before any scramble key; so both kinds agree. */
  lemma CallsAreOrderly(init: InitStatus, rounds: int, rest: seq<Call>)
    requires forall i :: 0 <= i < |rest| ==> !rest[i].SetSystemKey?
    ensures OrderlyRun(
      NEW_EAGER, NEW_LAZY,
      [SetSystemKey(KeyAt(init.systemKey)), SetInitCbc(LoadBlock(init.initCbc, 0)), SetRound(rounds)] + rest)
  {
    hide LoadBlock, KeyAt, WorkKey, Eager.Step, Lazy.Step;
    var a := SetSystemKey(KeyAt(init.systemKey));
    var later := [SetInitCbc(LoadBlock(init.initCbc, 0)), SetRound(rounds)] + rest;
    NeverAgain(NEW_EAGER.Step(a).0, NEW_LAZY.Step(a).0, later);
    var all := [SetSystemKey(KeyAt(init.systemKey)), SetInitCbc(LoadBlock(init.initCbc, 0)), SetRound(rounds)] + rest;
    assert all[0] == a && all[1..] == later;
    assert Orderly(NEW_EAGER, NEW_LAZY, a);
  }

  lemma {:induction false} NeverAgain(e: Eager, l: Lazy, cs: seq<Call>)
    requires forall i :: 0 <= i < |cs| ==> !cs[i].SetSystemKey?
    ensures OrderlyRun(e, l, cs)
    decreases |cs|
  {
    hide Eager.Step, Lazy.Step;
    if |cs| > 0 {
      NeverAgain(e.Step(cs[0]).0, l.Step(cs[0]).0, cs[1..]);
    }
  }

  // ---- The decryptor object ----

  class EcmDecryptor {
    var locked: int
    var unpurchased: int
    var lastError: int
    var m2: EagerMulti2?

    ghost predicate Valid()
      reads this, m2
    {
      m2 != null ==> m2.Valid()
    }

    ghost function View(): Keys
      reads this, m2
      requires Valid()
    {
      Keys(locked, unpurchased, lastError, if m2 == null then None else Some(m2.View()))
    }

    constructor ()
      ensures Valid() && View() == NEW_KEYS
    {
      locked, unpurchased, lastError, m2 := 0, 0, 0, null;
    }

    /** `proc_ecm`, with what the card answers, or would answer, to the section. */
    method ProcEcm(tableId: int, card: bool, answer: Answer, init: Option<InitStatus>, rounds: int) returns (code: int)
      requires Valid()
      modifies this, m2
      ensures Valid() && (View(), code) == old(View()).Step(Section(tableId, card, answer, init), rounds)
      ensures m2 == null || m2 == old(m2) || fresh(m2)
    {
      hide WorkKey, LoadBlock, KeyAt;
      if !card {
        return ERROR_EMPTY_B_CAS_CARD;
      }
      if tableId != ECM_S {
        return WARN_TS_SECTION_ID_MISMATCH;
      }
      if locked != 0 {
        unpurchased := unpurchased + 1;
        return WARN_UNPURCHASED_ECM;
      }
      if answer.Failed? {
        if m2 != null {
          var _ := m2.Clear();
        }
        return ERROR_ECM_PROC_FAILURE;
      }
      if answer.code != 0x0800 && answer.code != 0x0400 && answer.code != 0x0200 {
        m2 := null;
        unpurchased, lastError, locked := unpurchased + 1, answer.code, locked + 1;
        return WARN_UNPURCHASED_ECM;
      }
      code := Load(answer.keys, init, rounds);
    }

    /** A cipher object is made when there is none, and takes the scramble keys. */
    method Load(keys: KeyPair, init: Option<InitStatus>, rounds: int) returns (code: int)
      requires Valid()
      modifies this`m2, m2
      ensures Valid() && m2 != null && (m2 == old(m2) || fresh(m2))
      ensures (m2.View(), code) == old(View()).Loaded(keys, init, rounds)
    {
      hide WorkKey, LoadBlock, KeyAt;
      if m2 == null {
        m2 := new EagerMulti2();
        if init.None? {
          return ERROR_INVALID_B_CAS_STATUS;
        }
        var systemKey := CopyOf(init.value.systemKey);
        var initCbc := CopyOf(init.value.initCbc);
        var _ := m2.SetSystem(systemKey);
        var _ := m2.SetInit(initCbc);
        var _ := m2.SetRoundCount(rounds);
      }
      var scrambleKey := CopyOf(keys);
      var _ := m2.SetScramble(scrambleKey);
      code := OK;
    }
  }

  method CopyOf(s: seq<byte>) returns (a: array<byte>)
    ensures fresh(a) && a[..] == s
  {
    a := new byte[|s|](i requires 0 <= i < |s| => s[i]);
  }

  // ---- EMM sections ----

  /** An element of an EMM section: the card it is for, and whether that card takes it. */
  datatype EmmElem = EmmElem(cardId: int, taken: bool)

  datatype EmmSection = EmmMessage | EmmShort(elems: seq<EmmElem>) | OtherTable

  /** What a run over elements or sections comes to: whether decryptors were unlocked, and the code. */
  datatype EmmOutcome = EmmOutcome(unlocked: bool, code: int)

  /** An element for one of the card's identities unlocks the decryptors; one the card refuses ends the run. */
  function OfElems(ids: seq<int>, elems: seq<EmmElem>): EmmOutcome {
    if |elems| == 0 then EmmOutcome(false, OK)
    else if elems[0].cardId !in ids then OfElems(ids, elems[1..])
    else if !elems[0].taken then EmmOutcome(false, ERROR_EMM_PROC_FAILURE)
    else EmmOutcome(true, OfElems(ids, elems[1..]).code)
  }

  function OfSections(ids: seq<int>, sections: seq<EmmSection>): EmmOutcome {
    if |sections| == 0 then EmmOutcome(false, OK)
    else
      match sections[0]
      case EmmMessage => OfSections(ids, sections[1..])
      case OtherTable => EmmOutcome(false, WARN_TS_SECTION_ID_MISMATCH)
      case EmmShort(elems) =>
        var o := OfElems(ids, elems);
        if o.code != OK then o
        else
          var rest := OfSections(ids, sections[1..]);
          EmmOutcome(o.unlocked || rest.unlocked, rest.code)
  }

  /** The card takes this element and has refused none before it. */
  predicate Reached(ids: seq<int>, elems: seq<EmmElem>, i: nat)
    requires i < |elems|
  {
    && elems[i].cardId in ids && elems[i].taken
    && forall j :: 0 <= j < i ==> elems[j].cardId in ids ==> elems[j].taken
  }

  lemma {:induction false} UnlockedWhen(ids: seq<int>, elems: seq<EmmElem>)
    ensures OfElems(ids, elems).unlocked <==> exists i :: 0 <= i < |elems| && Reached(ids, elems, i)
    decreases |elems|
  {
    if |elems| > 0 {
      var rest := elems[1..];
      UnlockedWhen(ids, rest);
      if i :| 0 <= i < |elems| && Reached(ids, elems, i) {
        if i > 0 {
          assert rest[i - 1] == elems[i];
          assert elems[0].cardId in ids ==> elems[0].taken;
          assert Reached(ids, rest, i - 1);
        }
      }
      if elems[0].cardId in ids && elems[0].taken {
        assert Reached(ids, elems, 0);
      } else if i :| 0 <= i < |rest| && Reached(ids, rest, i) {
        if elems[0].cardId !in ids {
          assert Reached(ids, elems, i + 1);
        }
      }
    }
  }

  /** The card refuses an element that is for it. */
  ghost predicate Refused(ids: seq<int>, elems: seq<EmmElem>) {
    exists i :: 0 <= i < |elems| && RefusedAt(ids, elems, i)
  }

  predicate RefusedAt(ids: seq<int>, elems: seq<EmmElem>, i: nat)
    requires i < |elems|
  {
    elems[i].cardId in ids && !elems[i].taken
  }

  lemma RefusedMore(ids: seq<int>, elems: seq<EmmElem>)
    requires |elems| > 0
    ensures Refused(ids, elems) == (RefusedAt(ids, elems, 0) || Refused(ids, elems[1..]))
  {
    var rest := elems[1..];
    if i: nat :| i < |elems| && RefusedAt(ids, elems, i) {
      if i > 0 {
        assert RefusedAt(ids, rest, i - 1);
      }
    }
    if i: nat :| i < |rest| && RefusedAt(ids, rest, i) {
      assert RefusedAt(ids, elems, i + 1);
    }
  }

  lemma {:induction false} ElemsCode(ids: seq<int>, elems: seq<EmmElem>)
    ensures OfElems(ids, elems).code == if Refused(ids, elems) then -16 else 0
    decreases |elems|
  {
    if |elems| > 0 {
      hide Refused;
      ElemsCode(ids, elems[1..]);
      RefusedMore(ids, elems);
    }
  }

  /** A section that ends the run: not an EMM at all, or one in which the card refuses an element of its own. */
  ghost predicate Stops(ids: seq<int>, s: EmmSection) { s.OtherTable? || (s.EmmShort? && Refused(ids, s.elems)) }

  /** An EMM section with an element the card takes before it refuses one, and nothing before it ends the run. */
  ghost predicate UnlocksAt(ids: seq<int>, sections: seq<EmmSection>, i: nat) {
    && i < |sections| && sections[i].EmmShort?
    && (exists k :: 0 <= k < |sections[i].elems| && Reached(ids, sections[i].elems, k))
    && forall j :: 0 <= j < i ==> !Stops(ids, sections[j])
  }

  ghost predicate FirstStop(ids: seq<int>, sections: seq<EmmSection>, i: nat) {
    i < |sections| && Stops(ids, sections[i]) && forall j :: 0 <= j < i ==> !Stops(ids, sections[j])
  }

  /** What the first section comes to by itself. */
  lemma FirstSection(ids: seq<int>, sections: seq<EmmSection>)
    requires |sections| > 0
    ensures var s, all, rest := sections[0], OfSections(ids, sections), OfSections(ids, sections[1..]);
      && all.code == (if s.OtherTable? then 2 else if Stops(ids, s) then -16 else rest.code)
      && all.unlocked == (UnlocksAt(ids, sections, 0) || (!Stops(ids, s) && rest.unlocked))
  {
    hide OfElems, Refused, Reached;
    if sections[0].EmmShort? {
      ElemsCode(ids, sections[0].elems);
      UnlockedWhen(ids, sections[0].elems);
    }
  }

  /** The decryptors are unlocked exactly when some section is such a one; message sections are passed over. */
  lemma {:induction false} SectionsUnlock(ids: seq<int>, sections: seq<EmmSection>)
    ensures OfSections(ids, sections).unlocked <==> exists i: nat :: UnlocksAt(ids, sections, i)
    decreases |sections|
  {
    hide OfSections, Stops, Reached;
    if |sections| == 0 {
      NoSections(ids);
    } else {
      var rest := sections[1..];
      FirstSection(ids, sections);
      SectionsUnlock(ids, rest);
      if i: nat :| UnlocksAt(ids, sections, i) && i > 0 {
        assert sections[i] == rest[i - 1] && UnlocksAt(ids, rest, i - 1) by {
          assert forall j :: 0 <= j < i - 1 ==> rest[j] == sections[j + 1];
        }
        assert !Stops(ids, sections[0]);
      }
      if i: nat :| UnlocksAt(ids, rest, i) {
        if !Stops(ids, sections[0]) {
          assert sections[i + 1] == rest[i];
          assert forall j :: 0 < j < i + 1 ==> sections[j] == rest[j - 1];
          assert UnlocksAt(ids, sections, i + 1);
        }
      }
    }
  }

  lemma NoSections(ids: seq<int>)
    ensures OfSections(ids, []) == EmmOutcome(false, 0)
  {
  }

  /** The code is that of the first section that ends the run, and no error exactly when there is none. */
  lemma {:induction false} SectionsCode(ids: seq<int>, sections: seq<EmmSection>)
    ensures OfSections(ids, sections).code == 0 <==> forall i :: 0 <= i < |sections| ==> !Stops(ids, sections[i])
    ensures forall i: nat :: FirstStop(ids, sections, i) ==>
      OfSections(ids, sections).code == if sections[i].OtherTable? then 2 else -16
    decreases |sections|
  {
    hide OfSections, Refused, UnlocksAt;
    if |sections| == 0 {
      NoSections(ids);
    } else {
      var rest := sections[1..];
      FirstSection(ids, sections);
      SectionsCode(ids, rest);
      assert forall j :: 0 < j < |sections| ==> sections[j] == rest[j - 1];
      forall i: nat | FirstStop(ids, sections, i)
        ensures OfSections(ids, sections).code == if sections[i].OtherTable? then 2 else -16
      {
        if i > 0 {
          assert rest[i - 1] == sections[i];
          assert FirstStop(ids, rest, i - 1);
        }
      }
    }
  }

  class EmmProcessor {
    const ids: seq<int>
    var decryptors: seq<EcmDecryptor>

    constructor (ids: seq<int>)
      ensures this.ids == ids && decryptors == []
    {
      this.ids, decryptors := ids, [];
    }

    /** Every decryptor is unlocked, or none is touched; nothing else about one changes. */
    twostate predicate UnlockedIf(unlocked: bool)
      reads this, decryptors
    {
      && decryptors == old(decryptors)
      && forall d :: d in decryptors ==>
           && d.locked == (if unlocked then 0 else old(d.locked))
           && d.unpurchased == old(d.unpurchased) && d.lastError == old(d.lastError) && d.m2 == old(d.m2)
    }

    /** `unlock_all_decryptor`. */
    method UnlockAll()
      modifies decryptors
      ensures UnlockedIf(true)
    {
      for i := 0 to |decryptors|
        invariant forall k :: 0 <= k < |decryptors| ==>
          var d := decryptors[k];
          && (d.locked == old(d.locked) || d.locked == 0) && (k < i ==> d.locked == 0)
          && d.unpurchased == old(d.unpurchased) && d.lastError == old(d.lastError) && d.m2 == old(d.m2)
      {
        decryptors[i].locked := 0;
      }
    }

    /** The element loop of `proc_emm`. */
    method ProcElems(elems: seq<EmmElem>) returns (code: int)
      modifies decryptors
      ensures UnlockedIf(OfElems(ids, elems).unlocked) && code == OfElems(ids, elems).code
    {
      ghost var unlocked := false;
      assert elems[0..] == elems;
      for i := 0 to |elems|
        invariant UnlockedIf(unlocked)
        invariant OfElems(ids, elems)
          == EmmOutcome(unlocked || OfElems(ids, elems[i..]).unlocked, OfElems(ids, elems[i..]).code)
      {
        var e := elems[i];
        assert elems[i..][1..] == elems[i + 1..];
        for j := 0 to |ids|
          invariant UnlockedIf(unlocked || (e.taken && e.cardId in ids[..j]))
          invariant !e.taken ==> e.cardId !in ids[..j]
        {
          assert ids[..j + 1] == ids[..j] + [ids[j]];
          if ids[j] == e.cardId {
            if !e.taken {
              return ERROR_EMM_PROC_FAILURE;
            }
            UnlockAll();
          }
        }
        assert ids[..|ids|] == ids;
        unlocked := unlocked || (e.taken && e.cardId in ids);
      }
      code := OK;
    }

    /** `proc_emm` over the sections that have arrived. */
    method ProcEmm(card: bool, sections: seq<EmmSection>) returns (code: int)
      modifies decryptors
      ensures !card ==> code == ERROR_EMPTY_B_CAS_CARD && UnlockedIf(false)
      ensures card ==> UnlockedIf(OfSections(ids, sections).unlocked) && code == OfSections(ids, sections).code
    {
      if !card {
        return ERROR_EMPTY_B_CAS_CARD;
      }
      ghost var unlocked := false;
      assert sections[0..] == sections;
      for i := 0 to |sections|
        invariant UnlockedIf(unlocked)
        invariant OfSections(ids, sections)
          == EmmOutcome(unlocked || OfSections(ids, sections[i..]).unlocked, OfSections(ids, sections[i..]).code)
      {
        assert sections[i..][1..] == sections[i + 1..];
        match sections[i]
        case EmmMessage =>
        case OtherTable => return WARN_TS_SECTION_ID_MISMATCH;
        case EmmShort(elems) =>
          code := ProcElems(elems);
          unlocked := unlocked || OfElems(ids, elems).unlocked;
          if code != OK {
            return;
          }
      }
      code := OK;
    }
  }
}
