/**
 The ECM side of the tables behind the packet loop, concrete: each decryptor has its own section parser, and a section
 that has arrived goes to the card. What PAT, PMT, EMM and CAT payloads do is left arbitrary, and so is the card, whose
 answers may depend on everything that came before.
 */
module EcmTables {
  import opened Prelude
  import opened Bytes
  import opened Multi2Cbc
  import opened Multi2Dispatch
  import opened Multi2Keys
  import opened SectionEngine
  import S = SectionPackets
  import D = Descrambling
  import opened PacketLoop
  import opened PacketRuns
  import K = EcmKeys

  const ERROR_ECM_PARSE_FAILURE := -13

  /** A section the card was asked about, and its answer. */
  datatype Asked = Asked(section: seq<byte>, answer: K.Answer)

  /**
   A decryptor: which one it is, its parser and how many sections have been got from it, and its key state. `asked`
   records the questions put to the card for it; no step depends on it.
   */
  datatype DecryptorState = DecryptorState(id: nat, parser: Engine, got: nat, keys: K.Keys, asked: seq<Asked>)

  /** The parser never holds a completed section as unfinished, queues whole sections only, and gives out those. */
  type Decryptor = d: DecryptorState |
    d.parser.Sane() && WholeFrom(d.parser.log, 0) && d.got <= |Uniques(d.parser.log)|
    witness DecryptorState(0, NEW_ENGINE, 0, K.NEW_KEYS, [])

  function NewDecryptor(id: nat): Decryptor { DecryptorState(id, NEW_ENGINE, 0, K.NEW_KEYS, []) }

  /** The decryptor list, and everything else behind the loop. */
  datatype World<R> = World(decrypt: seq<Decryptor>, other: R)

  /** A decryptor there is after another table has been processed: one there was before, or a new one. */
  datatype Holding = Holding(id: nat, kept: bool)

  datatype Effect<R> = Effect(other: R, verdict: Verdict, holdings: seq<Holding>, unlock: bool)

  /**
   What is left arbitrary. The map says what a PID is used for, which decryptor a stream is bound to, and which one the
   entry of an ECM PID leads to; there may be several decryptors of one ECM PID.
   */
  datatype Services<!R> = Services(
    kind: (R, nat) -> PidUse,
    bound: (R, nat) -> Option<nat>,
    ecm: (R, nat) -> Option<nat>,
    cardPresent: R -> bool,
    card: (R, seq<byte>) -> (R, K.Answer),
    init: R -> Option<K.InitStatus>,
    rounds: int,
    others: (R, Channel, nat, bool, seq<byte>) -> Effect<R>,
    strip: bool,
    emmProc: bool)

  // ---- Steps ----

  function Find(ds: seq<Decryptor>, id: nat): (r: Option<nat>)
    ensures r.Some? ==> r.value < |ds| && ds[r.value].id == id
  {
    if |ds| == 0 then None
    else if ds[0].id == id then Some(0)
    else
      var r := Find(ds[1..], id);
      if r.None? then None else Some(r.value + 1)
  }

  function At(ds: seq<Decryptor>, id: Option<nat>): (r: Option<nat>)
    ensures r.Some? ==> r.value < |ds|
  {
    if id.Some? then Find(ds, id.value) else None
  }

  function Behind(ds: seq<Decryptor>, id: Option<nat>): (r: Option<Decryptor>)
    ensures r.Some? ==> r.value in ds
  {
    var i := At(ds, id);
    if i.Some? then Some(ds[i.value]) else None
  }

  function Sole(ds: seq<Decryptor>): (r: Option<Decryptor>)
    ensures r.Some? ==> r.value in ds
  {
    if |ds| == 1 then Some(ds[0]) else None
  }

  /** The decryptor whose keys the packets of a PID are descrambled with. */
  function Source<R>(sv: Services<R>, w: World<R>, pid: nat): (r: Option<Decryptor>)
    ensures r.Some? ==> r.value in w.decrypt
  {
    match sv.kind(w.other, pid)
    case OtherKind => Behind(w.decrypt, sv.bound(w.other, pid))
    case UnknownKind => Sole(w.decrypt)
    case _ => None
  }

  function CipherOf(d: Option<Decryptor>): Option<Eager> { if d.Some? then d.value.keys.m2 else None }

  /** A payload of an ECM PID reaches the parser of the decryptor its entry leads to. */
  function Read(d: Decryptor, start: bool, data: seq<byte>): Decryptor
    requires |data| >= 1
  {
    var parser := d.parser.Put(start, data).0;
    PutGrows(d.parser, start, data);
    UniquesGrow(d.parser.log, parser.log);
    assert WholeFrom(parser.log, 0) by { StillWhole(d.parser.log, parser.log); }
    DecryptorState(d.id, parser, d.got, d.keys, d.asked)
  }

  lemma StillWhole(log: seq<Event>, log': seq<Event>)
    requires WholeFrom(log, 0) && Grown(log, log')
    ensures WholeFrom(log', 0)
  {
    hide Whole;
    forall i | 0 <= i < |log'| && log'[i].Unique?
      ensures Whole(log'[i].section)
    {
      if i < |log| {
        assert log'[i] == log[i];
      }
    }
  }

  /** The next section to be got from the parser. */
  function Waiting(d: Decryptor): (r: Option<seq<byte>>)
    ensures r.Some? ==> Whole(r.value)
  {
    var queued := Uniques(d.parser.log);
    if d.got < |queued| then
      UniquesWhole(d.parser.log, d.got);
      Some(queued[d.got])
    else None
  }

  /** `proc_ecm` on the section that is waiting. */
  function Process<R>(sv: Services<R>, other: R, d: Decryptor): (R, Decryptor, int)
    requires Waiting(d).Some?
  {
    if !sv.cardPresent(other) then (other, d, K.ERROR_EMPTY_B_CAS_CARD)
    else
      var section := Waiting(d).value;
      var asks := section[0] as int == K.ECM_S && d.keys.locked == 0;
      var (other', answer) := if asks then sv.card(other, section) else (other, K.Failed);
      var (keys, code) := d.keys.Step(K.Section(section[0] as int, true, answer, sv.init(other')), sv.rounds);
      var asked := if asks then d.asked + [Asked(section, answer)] else d.asked;
      (other', DecryptorState(d.id, d.parser, d.got + 1, keys, asked), code)
  }

  function PutEcm<R>(sv: Services<R>, w: World<R>, pid: nat, start: bool, data: seq<byte>): (World<R>, Verdict) {
    var i := At(w.decrypt, sv.ecm(w.other, pid));
    if i.None? || |data| < 1 then (w, Code(ERROR_ECM_PARSE_FAILURE))
    else
      var d := Read(w.decrypt[i.value], start, data);
      if Waiting(d).None? then (World(w.decrypt[i.value := d], w.other), Quiet)
      else
        var (other, d', code) := Process(sv, w.other, d);
        (World(w.decrypt[i.value := d'], other), Code(code))
  }

  function Held(ds: seq<Decryptor>, h: Holding, unlock: bool): Decryptor {
    var i := Find(ds, h.id);
    if !h.kept || i.None? then NewDecryptor(h.id)
    else
      var d := ds[i.value];
      DecryptorState(d.id, d.parser, d.got, if unlock then d.keys.Step(K.Unlock, 0).0 else d.keys, d.asked)
  }

  function PutOther<R>(sv: Services<R>, w: World<R>, c: Channel, pid: nat, start: bool, data: seq<byte>)
    : (World<R>, Verdict)
  {
    var e := sv.others(w.other, c, pid, start, data);
    var decrypt := seq(|e.holdings|, i requires 0 <= i < |e.holdings| => Held(w.decrypt, e.holdings[i], e.unlock));
    (World(decrypt, e.other), e.verdict)
  }

  function Put<R>(sv: Services<R>, w: World<R>, c: Channel, pid: nat, start: bool, data: seq<byte>)
    : (World<R>, Verdict)
  {
    if c == EcmChannel then PutEcm(sv, w, pid, start, data) else PutOther(sv, w, c, pid, start, data)
  }

  function TablesOf<R>(sv: Services<R>): Tables<World<R>> {
    Tables(
      (w: World<R>, pid: nat) => sv.kind(w.other, pid),
      (w: World<R>, pid: nat) => CipherOf(Behind(w.decrypt, sv.bound(w.other, pid))),
      (w: World<R>) => CipherOf(Sole(w.decrypt)),
      (w: World<R>, c: Channel, pid: nat, start: bool, data: seq<byte>) => Put(sv, w, c, pid, start, data),
      sv.strip,
      sv.emmProc)
  }

  lemma CipherIs<R>(sv: Services<R>, w: World<R>, pid: nat)
    ensures TablesOf(sv).Cipher(w, pid) == CipherOf(Source(sv, w, pid))
  {
  }

  // ---- Keys follow the card's answers, in every run ----

  function LastAnswer(asked: seq<Asked>): Option<K.Answer> {
    if |asked| == 0 then None else Some(asked[|asked| - 1].answer)
  }

  /** The sections asked about are some of those got, in their order, each asked about at most once. */
  ghost predicate InOrder(asked: seq<Asked>, got: seq<seq<byte>>)
    decreases |got|
  {
    if |asked| == 0 then true
    else if |got| == 0 then false
    else
      var n, m := |asked| - 1, |got| - 1;
      (asked[n].section == got[m] && InOrder(asked[..n], got[..m])) || InOrder(asked, got[..m])
  }

  lemma {:induction false} InOrderMember(asked: seq<Asked>, got: seq<seq<byte>>, i: nat)
    requires InOrder(asked, got) && i < |asked|
    ensures asked[i].section in got
    decreases |got|
  {
    var n, m := |asked| - 1, |got| - 1;
    if InOrder(asked, got[..m]) {
      InOrderMember(asked, got[..m], i);
    } else if i < n {
      InOrderMember(asked[..n], got[..m], i);
    }
  }

  /** The key state is what the card's latest answer makes it, and only sections got were asked about. */
  ghost predicate Fresh(d: Decryptor) {
    K.Follows(d.keys, LastAnswer(d.asked)) && InOrder(d.asked, Uniques(d.parser.log)[..d.got])
  }

  ghost predicate AllFresh<R>(w: World<R>) { forall i :: 0 <= i < |w.decrypt| ==> Fresh(w.decrypt[i]) }

  lemma NewIsFresh(id: nat)
    ensures Fresh(NewDecryptor(id))
  {
  }

  lemma ReadKeeps(d: Decryptor, start: bool, data: seq<byte>)
    requires |data| >= 1 && Fresh(d)
    ensures Fresh(Read(d, start, data))
  {
    hide InOrder, K.Follows, Engine.Put, Uniques;
    var parser := d.parser.Put(start, data).0;
    PutGrows(d.parser, start, data);
    UniquesGrow(d.parser.log, parser.log);
    assert Uniques(parser.log)[..d.got] == Uniques(d.parser.log)[..d.got];
  }

  lemma ProcessKeeps<R>(sv: Services<R>, other: R, d: Decryptor)
    requires Waiting(d).Some? && Fresh(d)
    ensures Fresh(Process(sv, other, d).1)
  {
    hide K.Follows, K.Keys.Step, Uniques, Sound, Announced, WholeFrom;
    if sv.cardPresent(other) {
      var section := Waiting(d).value;
      var d' := Process(sv, other, d).1;
      var asks := section[0] as int == K.ECM_S && d.keys.locked == 0;
      var (other', answer) := if asks then sv.card(other, section) else (other, K.Failed);
      K.StepFollows(d.keys, LastAnswer(d.asked), K.Section(section[0] as int, true, answer, sv.init(other')),
        sv.rounds);
      var queued := Uniques(d.parser.log);
      assert queued[..d.got + 1][..d.got] == queued[..d.got];
      if asks {
        assert d'.asked[..|d.asked|] == d.asked;
      }
    }
  }

  lemma HeldKeeps<R>(w: World<R>, h: Holding, unlock: bool)
    requires AllFresh(w)
    ensures Fresh(Held(w.decrypt, h, unlock))
  {
    hide InOrder, K.Follows, K.Keys.Step, Uniques;
    var i := Find(w.decrypt, h.id);
    if !h.kept || i.None? {
      NewIsFresh(h.id);
    } else {
      K.StepFollows(w.decrypt[i.value].keys, LastAnswer(w.decrypt[i.value].asked), K.Unlock, 0);
    }
  }

  lemma PutKeeps<R>(sv: Services<R>, w: World<R>, c: Channel, pid: nat, start: bool, data: seq<byte>)
    requires AllFresh(w)
    ensures AllFresh(Put(sv, w, c, pid, start, data).0)
  {
    hide Fresh, Read, Process, Waiting, Held, At;
    if c == EcmChannel {
      var i := At(w.decrypt, sv.ecm(w.other, pid));
      if i.Some? && |data| >= 1 {
        ReadKeeps(w.decrypt[i.value], start, data);
        var d := Read(w.decrypt[i.value], start, data);
        if Waiting(d).Some? {
          ProcessKeeps(sv, w.other, d);
        }
      }
    } else {
      var e := sv.others(w.other, c, pid, start, data);
      forall i | 0 <= i < |e.holdings|
        ensures Fresh(Held(w.decrypt, e.holdings[i], e.unlock))
      {
        HeldKeeps(w, e.holdings[i], e.unlock);
      }
    }
  }

  lemma TablesKeep<R(!new)>(sv: Services<R>)
    ensures KeptByPut(TablesOf(sv), (w: World<R>) => AllFresh(w))
  {
    hide AllFresh, Put;
    forall w: World<R>, c: Channel, pid: nat, start: bool, data: seq<byte> | AllFresh(w)
      ensures AllFresh(TablesOf(sv).put(w, c, pid, start, data).0)
    {
      PutKeeps(sv, w, c, pid, start, data);
    }
  }

  /** Whatever the input, the card and the other tables do, every decryptor's keys follow the card's latest answer. */
  lemma FreshInEveryRun<R(!new)>(sv: Services<R>, unit: nat, st: State<World<R>>, pending: seq<byte>,
                                 chunks: seq<seq<byte>>)
    requires unit >= PACKET && AllFresh(st.tables)
    ensures AllFresh(RunChunks(TablesOf(sv), unit, st, pending, chunks).state.tables)
  {
    hide RunChunks, AllFresh;
    TablesKeep(sv);
    ChunksKeep(TablesOf(sv), (w: World<R>) => AllFresh(w), unit, st, pending, chunks);
  }

  // ---- What reaches the output ----

  lemma PayloadFits(p: seq<byte>)
    requires |p| >= PACKET && !Broken(p)
    ensures |PayloadOf(p)| <= PACKET - 4
  {
    hide HasAdaptation, HasPayload;
  }

  /**
   The payload of a scrambled packet decrypted under a pair of scramble keys: a packet marked 2 under the second half of
   the sixteen bytes, any other under the first.
   */
  function Opened(m: Eager, keys: K.KeyPair, p: seq<byte>): (data: seq<byte>)
    requires |p| >= PACKET && !Broken(p)
    ensures |data| <= PACKET - 4
  {
    PayloadFits(p);
    var key := WorkKey(m.system, LoadBlock(keys, if Scrambling(p[3]) == 2 then 8 else 0));
    Reference(key, m.rounds).DecryptBytes(m.iv, PayloadOf(p))
  }

  /** `out` is the packet opened under the latest answer: a purchased one, to a section that had arrived whole. */
  ghost predicate OpenedBy(d: Decryptor, p: seq<byte>, out: seq<byte>)
    requires |p| >= PACKET && !Broken(p)
  {
    && d.keys.m2.Some? && |d.asked| > 0
    && var last := d.asked[|d.asked| - 1];
       && K.Purchased(last.answer) && Whole(last.section)
       && out == Unmarked(WithPayload(p, Opened(d.keys.m2.value, last.answer.keys, p)))
  }

  lemma OpenedIs(m: Eager, keys: K.KeyPair, p: seq<byte>)
    requires |p| >= PACKET && !Broken(p) && K.Holds(m, keys) && m.Status(|PayloadOf(p)|) == OK
    ensures m.Step(Decrypt(Scrambling(p[3]) as int, PayloadOf(p))).1 == Reply(OK, Opened(m, keys, p))
  {
    hide WorkKey, LoadBlock, Reference, BlockCipher.DecryptBytes, Broken, Scrambling, PayloadOf;
    var b := Scrambling(p[3]);
    assert b as int == 2 <==> b == 2;
  }

  /** What becomes of a scrambled packet: it is opened under fresh keys, left as it is, or the run fails. */
  lemma ScrambledFate(d: Decryptor, p: seq<byte>)
    requires Fresh(d) && |p| >= PACKET && !Broken(p) && Scrambling(p[3]) != 0 && HasPayload(p)
    ensures match Descramble(d.keys.m2, p)
      case Clear(out) => OpenedBy(d, p, out)
      case Left(out) => out == p && d.keys.m2.None?
      case Refused => d.keys.m2.Some? && !(LastAnswer(d.asked).Some? && LastAnswer(d.asked).value.Answered?
                                           && !K.Purchased(LastAnswer(d.asked).value))
  {
    hide InOrder, WorkKey, LoadBlock, Unmarked, WithPayload, Broken, HasPayload, Scrambling, Whole, PayloadOf, Opened,
         Crypt;
    if d.keys.m2.Some? && d.keys.m2.value.Status(|PayloadOf(p)|) == OK {
      OpenedIs(d.keys.m2.value, LastAnswer(d.asked).value.keys, p);
      var queued := Uniques(d.parser.log);
      InOrderMember(d.asked, queued[..d.got], |d.asked| - 1);
      var k :| 0 <= k < d.got && queued[..d.got][k] == d.asked[|d.asked| - 1].section;
      UniquesWhole(d.parser.log, k);
    }
  }

  lemma HandleOut<S>(t: Tables<S>, st: State<S>, p: seq<byte>, r: int)
    requires |p| >= PACKET && !Passed(t, p) && !Broken(p) && !Handle(t, st, p, r).Failed?
    ensures var d := Descramble(t.Cipher(st.tables, Pid(p)), p); !d.Refused? && Handle(t, st, p, r).out == d.p
  {
    hide Descramble, Broken, Pid, StartBit, PayloadSize, Tables.Cipher, Tables.ChannelOf;
  }

  /** A scrambled packet leaves as it came, or opened under the latest answer for the decryptor its PID is bound to. */
  lemma EmittedFresh<R>(sv: Services<R>, st: State<World<R>>, p: seq<byte>, r: int)
    requires AllFresh(st.tables) && |p| >= PACKET && !Passed(TablesOf(sv), p) && !Broken(p)
    requires Scrambling(p[3]) != 0 && HasPayload(p) && !Handle(TablesOf(sv), st, p, r).Failed?
    ensures var source, out := Source(sv, st.tables, Pid(p)), Handle(TablesOf(sv), st, p, r).out;
      out == p || (source.Some? && OpenedBy(source.value, p, out))
  {
    hide OpenedBy, Fresh, Handle, Broken, Scrambling, HasPayload, Passed, TablesOf, Source, Tables.Cipher, Pid,
         PayloadOf, Unmarked, WithPayload;
    var source := Source(sv, st.tables, Pid(p));
    CipherIs(sv, st.tables, Pid(p));
    HandleOut(TablesOf(sv), st, p, r);
    if source.Some? {
      ScrambledFate(source.value, p);
    }
  }

  /**
   Key freshness of the whole decoder: started with no decryptor, after any input in any chunks, with any card and any
   behaviour of the other tables, the next packet that is scrambled leaves as it came or opened under fresh keys.
   */
  lemma OnlyFreshKeysOpen<R(!new)>(sv: Services<R>, unit: nat, other: R, chunks: seq<seq<byte>>, p: seq<byte>, r: int)
    requires unit >= PACKET && |p| >= PACKET && !Passed(TablesOf(sv), p) && !Broken(p)
    requires Scrambling(p[3]) != 0 && HasPayload(p)
    ensures var start := State(World([], other), multiset{}, multiset{});
      var st := RunChunks(TablesOf(sv), unit, start, [], chunks).state;
      var h := Handle(TablesOf(sv), st, p, r);
      var source := Source(sv, st.tables, Pid(p));
      h.Failed? || h.out == p || (source.Some? && OpenedBy(source.value, p, h.out))
  {
    hide RunChunks, Handle, Broken, Scrambling, HasPayload, Passed, TablesOf, Source, OpenedBy, Pid;
    var start := State(World([], other), multiset{}, multiset{});
    FreshInEveryRun(sv, unit, start, [], chunks);
    var st := RunChunks(TablesOf(sv), unit, start, [], chunks).state;
    if !Handle(TablesOf(sv), st, p, r).Failed? {
      EmittedFresh(sv, st, p, r);
    }
  }

  // ---- Every section sent is asked about ----

  /** The card is there, gives its initial status and a purchased answer, and answering changes nothing in the map. */
  ghost predicate Obliging<R(!new)>(sv: Services<R>, other: R, section: seq<byte>) {
    && sv.cardPresent(other) && sv.init(sv.card(other, section).0).Some? && K.Purchased(sv.card(other, section).1)
    && SameMap(sv, other, sv.card(other, section).0)
  }

  ghost predicate SameMap<R(!new)>(sv: Services<R>, a: R, b: R) {
    forall pid: nat :: sv.kind(a, pid) == sv.kind(b, pid) && sv.ecm(a, pid) == sv.ecm(b, pid)
  }

  ghost predicate Willing<R(!new)>(sv: Services<R>) {
    forall other: R, section: seq<byte> :: Obliging(sv, other, section)
  }

  /** The ECM sections among some sections. */
  function EcmsOf(sections: seq<seq<byte>>): seq<seq<byte>> {
    if |sections| == 0 then []
    else
      var n := |sections| - 1;
      var s := sections[n];
      EcmsOf(sections[..n]) + if |s| > 0 && s[0] as int == K.ECM_S then [s] else []
  }

  function SectionsOf(asked: seq<Asked>): (r: seq<seq<byte>>)
    ensures |r| == |asked|
  {
    seq(|asked|, i requires 0 <= i < |asked| => asked[i].section)
  }

  /** No refusal stands, and the card has been asked about each ECM section got, in order. */
  ghost predicate InStep(d: Decryptor) {
    d.keys.locked == 0 && SectionsOf(d.asked) == EcmsOf(Uniques(d.parser.log)[..d.got])
  }

  /** No payload completes more than one new section. */
  predicate OneEach(e: Engine, ps: seq<S.Payload>)
    requires e.Sane() && forall i :: 0 <= i < |ps| ==> |ps[i].data| > 0
    decreases |ps|
  {
    |ps| > 0 ==>
      var e' := e.Put(ps[0].start, ps[0].data).0;
      |Uniques(e'.log)| <= |Uniques(e.log)| + 1 && OneEach(e', ps[1..])
  }

  /** The payloads of an ECM PID, one after the other. */
  function Feed<R>(sv: Services<R>, w: World<R>, pid: nat, ps: seq<S.Payload>): World<R>
    decreases |ps|
  {
    if |ps| == 0 then w else Feed(sv, Put(sv, w, EcmChannel, pid, ps[0].start, ps[0].data).0, pid, ps[1..])
  }

  lemma {:induction false} FindUpdate(ds: seq<Decryptor>, i: nat, d: Decryptor, id: nat)
    requires i < |ds| && d.id == ds[i].id
    ensures Find(ds[i := d], id) == Find(ds, id)
    decreases |ds|
  {
    if i == 0 {
      assert ds[i := d][1..] == ds[1..];
    } else {
      assert ds[i := d][1..] == ds[1..][i - 1 := d];
      FindUpdate(ds[1..], i - 1, d, id);
    }
  }

  lemma NewInStep(id: nat)
    ensures InStep(NewDecryptor(id))
  {
  }

  lemma ReadInStep(d: Decryptor, start: bool, data: seq<byte>)
    requires |data| >= 1 && InStep(d)
    ensures InStep(Read(d, start, data))
    ensures Uniques(d.parser.log) <= Uniques(Read(d, start, data).parser.log)
  {
    hide Engine.Put, Uniques, EcmsOf;
    var parser := d.parser.Put(start, data).0;
    PutGrows(d.parser, start, data);
    UniquesGrow(d.parser.log, parser.log);
    assert Uniques(parser.log)[..d.got] == Uniques(d.parser.log)[..d.got];
  }

  /** What a purchased answer, or no question, does to the key state: it stays unlocked and draws no error. */
  lemma StepInStep(k: K.Keys, tableId: int, answer: K.Answer, init: Option<K.InitStatus>, rounds: int)
    requires k.locked == 0 && (tableId == K.ECM_S ==> K.Purchased(answer) && init.Some?)
    ensures k.Step(K.Section(tableId, true, answer, init), rounds).0.locked == 0
    ensures k.Step(K.Section(tableId, true, answer, init), rounds).1 >= 0
  {
    hide WorkKey, LoadBlock;
  }

  lemma ProcessInStep<R(!new)>(sv: Services<R>, other: R, d: Decryptor)
    requires Waiting(d).Some? && InStep(d) && Obliging(sv, other, Waiting(d).value)
    ensures var (other', d', code) := Process(sv, other, d);
      && InStep(d') && d'.got == d.got + 1 && d'.parser == d.parser && d'.id == d.id
      && SameMap(sv, other, other') && code >= 0
  {
    hide K.Keys.Step, Uniques, Sound, Announced, WholeFrom, SameMap;
    var section := Waiting(d).value;
    var tableId := section[0] as int;
    if tableId == K.ECM_S {
      StepInStep(d.keys, tableId, sv.card(other, section).1, sv.init(sv.card(other, section).0), sv.rounds);
    } else {
      StepInStep(d.keys, tableId, K.Failed, sv.init(other), sv.rounds);
      MapItself(sv, other);
    }
    var queued := Uniques(d.parser.log);
    assert queued[..d.got + 1][..d.got] == queued[..d.got];
    AskedMore(d.asked, Asked(section, sv.card(other, section).1));
  }

  lemma MapItself<R(!new)>(sv: Services<R>, other: R)
    ensures SameMap(sv, other, other)
  {
  }

  lemma AskedMore(asked: seq<Asked>, a: Asked)
    ensures SectionsOf(asked + [a]) == SectionsOf(asked) + [a.section]
  {
  }

  /** A world in which an ECM PID leads to the decryptor at `i`. */
  ghost predicate Leads<R>(sv: Services<R>, w: World<R>, pid: nat, i: nat) {
    At(w.decrypt, sv.ecm(w.other, pid)) == Some(i)
  }

  /**
   One payload of an ECM PID: the section that waits, or is completed by it, is got and asked about at once, and the
   loop goes on.
   */
  lemma PutInStep<R(!new)>(sv: Services<R>, w: World<R>, pid: nat, i: nat, start: bool, data: seq<byte>)
    requires Willing(sv) && Leads(sv, w, pid, i) && |data| >= 1 && InStep(w.decrypt[i])
    ensures var (w', v) := Put(sv, w, EcmChannel, pid, start, data);
      && Leads(sv, w', pid, i) && InStep(w'.decrypt[i]) && SameMap(sv, w.other, w'.other)
      && (v.Quiet? || v.r >= 0)
      && w'.decrypt[i].parser == w.decrypt[i].parser.Put(start, data).0
      && var all := |Uniques(w'.decrypt[i].parser.log)|;
         w'.decrypt[i].got == if w.decrypt[i].got < all then w.decrypt[i].got + 1 else w.decrypt[i].got
  {
    hide InStep, Process, Engine.Put, Uniques, WholeFrom, Grown, Obliging;
    ReadInStep(w.decrypt[i], start, data);
    var d := Read(w.decrypt[i], start, data);
    var id := sv.ecm(w.other, pid).value;
    FindUpdate(w.decrypt, i, d, id);
    if Waiting(d).Some? {
      assert Obliging(sv, w.other, Waiting(d).value);
      ProcessInStep(sv, w.other, d);
      FindUpdate(w.decrypt, i, Process(sv, w.other, d).1, id);
    }
  }

  /** With a willing card the sections got are asked about; with no two new ones in a payload, no section waits. */
  lemma {:induction false} FeedInStep<R(!new)>(sv: Services<R>, w: World<R>, pid: nat, i: nat, ps: seq<S.Payload>)
    requires Willing(sv) && Leads(sv, w, pid, i) && forall k :: 0 <= k < |ps| ==> |ps[k].data| > 0
    requires InStep(w.decrypt[i])
    ensures var w' := Feed(sv, w, pid, ps);
      && Leads(sv, w', pid, i) && InStep(w'.decrypt[i])
      && w'.decrypt[i].parser == S.Parse(w.decrypt[i].parser, ps).0
      && (w.decrypt[i].got == |Uniques(w.decrypt[i].parser.log)| && OneEach(w.decrypt[i].parser, ps) ==>
            w'.decrypt[i].got == |Uniques(w'.decrypt[i].parser.log)|)
    decreases |ps|
  {
    hide InStep, Put, Engine.Put, Uniques, Find, Willing;
    if |ps| > 0 {
      var d := w.decrypt[i];
      PutGrows(d.parser, ps[0].start, ps[0].data);
      UniquesGrow(d.parser.log, d.parser.Put(ps[0].start, ps[0].data).0.log);
      PutInStep(sv, w, pid, i, ps[0].start, ps[0].data);
      FeedInStep(sv, Put(sv, w, EcmChannel, pid, ps[0].start, ps[0].data).0, pid, i, ps[1..]);
    }
  }

  lemma {:induction false} EcmsPrefix(sections: seq<seq<byte>>, n: nat)
    requires n <= |sections|
    ensures EcmsOf(sections[..n]) <= EcmsOf(sections)
    decreases |sections|
  {
    if n < |sections| {
      var front := sections[..|sections| - 1];
      EcmsPrefix(front, n);
      assert front[..n] == sections[..n];
    } else {
      assert sections[..n] == sections;
    }
  }

  // ---- The same in runs of the loop ----

  /** A packet of an ECM PID, with a payload. */
  predicate OnEcm<R>(sv: Services<R>, other: R, pid: nat, p: seq<byte>) {
    && |p| >= PACKET && !Passed(TablesOf(sv), p) && !Broken(p) && Scrambling(p[3]) == 0
    && Pid(p) == pid && sv.kind(other, pid) == EcmKind && PayloadSize(p) >= 1
  }

  /** A packet whose payload no table takes. */
  predicate Aside<R>(sv: Services<R>, other: R, p: seq<byte>) {
    && |p| >= PACKET
    && (Passed(TablesOf(sv), p)
        || (!Broken(p) && Scrambling(p[3]) == 0
            && TablesOf(sv).ChannelOf(World([], other), Pid(p)).None?))
  }

  /** The payloads that the packets of an ECM PID carry. */
  function PayloadsOn<R>(sv: Services<R>, other: R, pid: nat, pk: seq<seq<byte>>): seq<S.Payload>
    decreases |pk|
  {
    if |pk| == 0 then []
    else
      (if OnEcm(sv, other, pid, pk[0]) then [S.Payload(StartBit(pk[0]), PayloadOf(pk[0]))] else [])
      + PayloadsOn(sv, other, pid, pk[1..])
  }

  lemma ClearPacket(cipher: Option<Eager>, p: seq<byte>)
    requires |p| >= PACKET && !Broken(p) && Scrambling(p[3]) == 0
    ensures Descramble(cipher, p) == Clear(p)
  {
  }

  /** What the tables make of the use of a PID depends on the map alone. */
  lemma ChannelIs<R(!new)>(sv: Services<R>, w: World<R>, other: R, pid: nat)
    requires SameMap(sv, other, w.other)
    ensures TablesOf(sv).ChannelOf(w, pid) == TablesOf(sv).ChannelOf(World([], other), pid)
    ensures sv.kind(other, pid) == EcmKind ==> TablesOf(sv).ChannelOf(w, pid) == Some(EcmChannel)
  {
  }

  lemma HandleAside<R(!new)>(sv: Services<R>, st: State<World<R>>, other: R, p: seq<byte>, r: int)
    requires SameMap(sv, other, st.tables.other) && Aside(sv, other, p)
    ensures Handle(TablesOf(sv), st, p, r).Next? && Handle(TablesOf(sv), st, p, r).state.tables == st.tables
  {
    ChannelIs(sv, st.tables, other, Pid(p));
    hide Descramble, Broken, Scrambling, TablesOf, SameMap, Tables.ChannelOf, Tables.Cipher, Pid, ErrorBit, PayloadSize;
    if !Passed(TablesOf(sv), p) {
      ClearPacket(TablesOf(sv).Cipher(st.tables, Pid(p)), p);
    }
  }

  lemma HandleOnEcm<R(!new)>(sv: Services<R>, st: State<World<R>>, other: R, pid: nat, i: nat, p: seq<byte>, r: int)
    requires SameMap(sv, other, st.tables.other) && OnEcm(sv, other, pid, p)
    requires Willing(sv) && Leads(sv, st.tables, pid, i) && InStep(st.tables.decrypt[i])
    ensures |PayloadOf(p)| >= 1
    ensures var h := Handle(TablesOf(sv), st, p, r);
      h.Next? && h.state.tables == Put(sv, st.tables, EcmChannel, pid, StartBit(p), PayloadOf(p)).0
  {
    PayloadAtLeastOne(p);
    ChannelIs(sv, st.tables, other, pid);
    ClearPacket(TablesOf(sv).Cipher(st.tables, pid), p);
    PutInStep(sv, st.tables, pid, i, StartBit(p), PayloadOf(p));
    PutIs(sv, st.tables, EcmChannel, pid, StartBit(p), PayloadOf(p));
    hide Descramble, Broken, Scrambling, TablesOf, SameMap, Tables.ChannelOf, Tables.Cipher, Pid, ErrorBit, PayloadSize,
         Put, Leads, InStep, Willing, StartBit;
  }

  lemma PutIs<R>(sv: Services<R>, w: World<R>, c: Channel, pid: nat, start: bool, data: seq<byte>)
    ensures TablesOf(sv).put(w, c, pid, start, data) == Put(sv, w, c, pid, start, data)
  {
    hide Put;
  }

  lemma PayloadAtLeastOne(p: seq<byte>)
    requires |p| >= PACKET && !Broken(p) && PayloadSize(p) >= 1
    ensures |PayloadOf(p)| >= 1
  {
    hide HasAdaptation, HasPayload;
  }

  /** Each packet but the last, which the loop holds back, is one of the ECM PID or one whose payload no table takes. */
  ghost predicate OnlyEcm<R>(sv: Services<R>, other: R, pid: nat, pk: seq<seq<byte>>) {
    forall k :: 0 <= k < |pk| - 1 ==> OnEcm(sv, other, pid, pk[k]) || Aside(sv, other, pk[k])
  }

  lemma SameMapTwice<R(!new)>(sv: Services<R>, a: R, b: R, c: R)
    requires SameMap(sv, a, b) && SameMap(sv, b, c)
    ensures SameMap(sv, a, c)
  {
  }

  /** One packet of such a stream, and what it feeds. */
  lemma PacketFeeds<R(!new)>(sv: Services<R>, st: State<World<R>>, other: R, pid: nat, i: nat, p: seq<byte>, r: int)
    requires Willing(sv) && SameMap(sv, other, st.tables.other) && Leads(sv, st.tables, pid, i)
    requires InStep(st.tables.decrypt[i]) && (OnEcm(sv, other, pid, p) || Aside(sv, other, p))
    ensures Passed(TablesOf(sv), p) || !Broken(p)
    ensures var h := Handle(TablesOf(sv), st, p, r);
      && h.Next? && SameMap(sv, other, h.state.tables.other) && Leads(sv, h.state.tables, pid, i)
      && InStep(h.state.tables.decrypt[i])
      && h.state.tables == Feed(sv, st.tables, pid, PayloadsOn(sv, other, pid, [p]))
  {
    hide Handle, TablesOf, SameMap, Put, Leads, InStep, Willing, Scrambling, Pid, Broken, PayloadSize, StartBit,
         ErrorBit, Tables.ChannelOf, PayloadOf;
    OnePayload(sv, other, pid, p);
    if OnEcm(sv, other, pid, p) {
      HandleOnEcm(sv, st, other, pid, i, p, r);
      PutInStep(sv, st.tables, pid, i, StartBit(p), PayloadOf(p));
      SameMapTwice(sv, other, st.tables.other, Put(sv, st.tables, EcmChannel, pid, StartBit(p), PayloadOf(p)).0.other);
      var ps := PayloadsOn(sv, other, pid, [p]);
      assert ps[1..] == [];
    } else {
      HandleAside(sv, st, other, p, r);
    }
  }

  lemma OnePayload<R>(sv: Services<R>, other: R, pid: nat, p: seq<byte>)
    ensures PayloadsOn(sv, other, pid, [p])
      == if OnEcm(sv, other, pid, p) then [S.Payload(StartBit(p), PayloadOf(p))] else []
  {
    hide OnEcm, StartBit, PayloadOf;
    assert [p][1..] == [];
  }

  lemma {:induction false} FeedConcat<R>(sv: Services<R>, w: World<R>, pid: nat, a: seq<S.Payload>, b: seq<S.Payload>)
    ensures Feed(sv, w, pid, a + b) == Feed(sv, Feed(sv, w, pid, a), pid, b)
    decreases |a|
  {
    hide Put;
    if |a| == 0 {
      assert a + b == b;
    } else {
      assert (a + b)[1..] == a[1..] + b;
      FeedConcat(sv, Put(sv, w, EcmChannel, pid, a[0].start, a[0].data).0, pid, a[1..], b);
    }
  }

  /** A run over such a stream feeds the decryptor the payloads its packets carry. */
  lemma {:induction false} StreamFeeds<R(!new)>(sv: Services<R>, unit: nat, st: State<World<R>>, other: R, pid: nat,
                                                i: nat, pk: seq<seq<byte>>, r: int)
    requires unit >= PACKET && D.InSync(pk, unit) && |pk| > 0 && OnlyEcm(sv, other, pid, pk)
    requires Willing(sv) && SameMap(sv, other, st.tables.other) && Leads(sv, st.tables, pid, i)
    requires InStep(st.tables.decrypt[i])
    ensures var o := Run(TablesOf(sv), unit, st, Concat(pk), r);
      && o.status == Idle
      && o.state.tables == Feed(sv, st.tables, pid, PayloadsOn(sv, other, pid, pk[..|pk| - 1]))
    decreases |pk|
  {
    hide Handle, Run, TablesOf, SameMap, Leads, InStep, Willing, Concat, Feed, OnEcm, Aside, Passed, Broken;
    if |pk| == 1 {
      D.RunShort(TablesOf(sv), unit, st, pk, r);
      assert Feed(sv, st.tables, pid, []) == st.tables by { FeedNothing(sv, st.tables, pid); }
    } else {
      PacketFeeds(sv, st, other, pid, i, pk[0], r);
      D.RunInSync(TablesOf(sv), unit, st, pk, r);
      var h := Handle(TablesOf(sv), st, pk[0], r);
      StreamFeeds(sv, unit, h.state, other, pid, i, pk[1..], h.r);
      var front := pk[..|pk| - 1];
      assert front[1..] == pk[1..][..|pk| - 2];
      PayloadsFirst(sv, other, pid, front);
      FeedConcat(sv, st.tables, pid, PayloadsOn(sv, other, pid, [front[0]]), PayloadsOn(sv, other, pid, front[1..]));
    }
  }

  lemma FeedNothing<R>(sv: Services<R>, w: World<R>, pid: nat)
    ensures Feed(sv, w, pid, []) == w
  {
  }

  lemma PayloadsFirst<R>(sv: Services<R>, other: R, pid: nat, pk: seq<seq<byte>>)
    requires |pk| > 0
    ensures PayloadsOn(sv, other, pid, pk) == PayloadsOn(sv, other, pid, [pk[0]]) + PayloadsOn(sv, other, pid, pk[1..])
  {
    hide OnEcm;
    assert [pk[0]][1..] == [];
  }

  lemma {:induction false} PayloadsFull<R>(sv: Services<R>, other: R, pid: nat, pk: seq<seq<byte>>)
    ensures forall k :: 0 <= k < |PayloadsOn(sv, other, pid, pk)| ==> |PayloadsOn(sv, other, pid, pk)[k].data| > 0
    decreases |pk|
  {
    hide Passed, TablesOf, Scrambling, Pid, PayloadSize, Broken, PayloadOf, StartBit;
    if |pk| > 0 {
      PayloadsFull(sv, other, pid, pk[1..]);
      if OnEcm(sv, other, pid, pk[0]) {
        PayloadAtLeastOne(pk[0]);
      }
    }
  }

  /** The payloads of the ECM PID that a run comes to. */
  function Carried<R>(sv: Services<R>, st: State<World<R>>, pid: nat, pk: seq<seq<byte>>): (ps: seq<S.Payload>)
    requires |pk| > 0
    ensures forall k :: 0 <= k < |ps| ==> |ps[k].data| > 0
  {
    PayloadsFull(sv, st.tables.other, pid, pk[..|pk| - 1]);
    PayloadsOn(sv, st.tables.other, pid, pk[..|pk| - 1])
  }

  /**
   From sections sent to the card, in a run of the loop. A new decryptor stands behind an ECM PID whose packets, with
   packets no table takes between them, carry a list of sections. When the card answers every question with a purchase
   the run goes on to the end, and the card has been asked about the first of the ECM sections sent in full, consecutive
   repeats removed, in order; about all of them when no payload completes two new sections.
   */
  lemma EverySectionAsked<R(!new)>(sv: Services<R>, unit: nat, st: State<World<R>>, pid: nat, i: nat, id: nat,
                                   ss: seq<seq<byte>>, pk: seq<seq<byte>>, r: int)
    requires unit >= PACKET && D.InSync(pk, unit) && |pk| > 0 && OnlyEcm(sv, st.tables.other, pid, pk)
    requires Willing(sv) && Leads(sv, st.tables, pid, i) && st.tables.decrypt[i] == NewDecryptor(id)
    requires S.AllWellFormed(ss) && S.CarryAll(ss, S.Position(0, 0), Carried(sv, st, pid, pk)).Some?
    ensures var o := Run(TablesOf(sv), unit, st, Concat(pk), r);
      var sent := S.CarryAll(ss, S.Position(0, 0), Carried(sv, st, pid, pk)).value.done;
      && o.status == Idle && i < |o.state.tables.decrypt| && sent <= |ss|
      && SectionsOf(o.state.tables.decrypt[i].asked) <= EcmsOf(S.Dedup(ss[..sent]))
      && (OneEach(NEW_ENGINE, Carried(sv, st, pid, pk)) ==>
            SectionsOf(o.state.tables.decrypt[i].asked) == EcmsOf(S.Dedup(ss[..sent])))
  {
    hide Run, Feed, S.Parse, S.Dedup, S.CarryAll, S.WellFormed, EcmsOf, OneEach, OnEcm, Aside, TablesOf, SameMap,
         Willing, Concat, PayloadsOn, Find;
    var ps := Carried(sv, st, pid, pk);
    S.ReassemblyUndoesPacketisation(ss, ps);
    NewInStep(id);
    MapItself(sv, st.tables.other);
    StreamFeeds(sv, unit, st, st.tables.other, pid, i, pk, r);
    FeedInStep(sv, st.tables, pid, i, ps);
    var d := Feed(sv, st.tables, pid, ps).decrypt[i];
    var queued := Uniques(d.parser.log);
    EcmsPrefix(queued, d.got);
    if OneEach(NEW_ENGINE, ps) {
      assert queued[..d.got] == queued;
    }
  }

  // ---- A refusal stands in every run ----

  /** The other tables neither unlock the decryptors nor drop this one. */
  ghost predicate Spares<R>(e: Effect<R>, id: nat) {
    && !e.unlock
    && (forall k :: 0 <= k < |e.holdings| && e.holdings[k].id == id ==> e.holdings[k].kept)
    && (exists k :: 0 <= k < |e.holdings| && e.holdings[k].id == id)
  }

  ghost predicate Sparing<R(!new)>(sv: Services<R>, id: nat) {
    forall other: R, c: Channel, pid: nat, start: bool, data: seq<byte> ::
      Spares(sv.others(other, c, pid, start, data), id)
  }

  /** The decryptor has been refused, has no cipher object, and these questions were asked for it. */
  ghost predicate TurnedDown(d: Decryptor, asked: seq<Asked>) {
    d.keys.locked > 0 && d.keys.m2.None? && d.asked == asked
  }

  ghost predicate Standing<R>(w: World<R>, id: nat, asked: seq<Asked>) {
    && (forall k :: 0 <= k < |w.decrypt| && w.decrypt[k].id == id ==> TurnedDown(w.decrypt[k], asked))
    && Find(w.decrypt, id).Some?
  }

  lemma {:induction false} FindThere(ds: seq<Decryptor>, k: nat)
    requires k < |ds|
    ensures Find(ds, ds[k].id).Some?
    decreases |ds|
  {
    if k > 0 {
      FindThere(ds[1..], k - 1);
    }
  }

  lemma ProcessStands<R>(sv: Services<R>, other: R, d: Decryptor, asked: seq<Asked>)
    requires Waiting(d).Some? && TurnedDown(d, asked)
    ensures TurnedDown(Process(sv, other, d).1, asked) && Process(sv, other, d).1.id == d.id
  {
    hide Uniques, Sound, Announced, WholeFrom, K.Keys.Loaded;
  }

  lemma ReadStands(d: Decryptor, start: bool, data: seq<byte>, asked: seq<Asked>)
    requires |data| >= 1
    ensures Read(d, start, data).id == d.id && (TurnedDown(d, asked) ==> TurnedDown(Read(d, start, data), asked))
  {
    hide Engine.Put, Uniques;
  }

  lemma ProcessId<R>(sv: Services<R>, other: R, d: Decryptor)
    requires Waiting(d).Some?
    ensures Process(sv, other, d).1.id == d.id
  {
    hide Uniques, Sound, Announced, WholeFrom, K.Keys.Step;
  }

  lemma PutStands<R(!new)>(sv: Services<R>, w: World<R>, id: nat, asked: seq<Asked>, c: Channel, pid: nat, start: bool,
                           data: seq<byte>)
    requires Sparing(sv, id) && Standing(w, id, asked)
    ensures Standing(Put(sv, w, c, pid, start, data).0, id, asked)
  {
    hide TurnedDown, Read, Process, Waiting, Find, Spares;
    if c == EcmChannel {
      var i := At(w.decrypt, sv.ecm(w.other, pid));
      if i.Some? && |data| >= 1 {
        var was := w.decrypt[i.value];
        ReadStands(was, start, data, asked);
        var d := Read(was, start, data);
        FindUpdate(w.decrypt, i.value, d, id);
        if Waiting(d).Some? {
          ProcessId(sv, w.other, d);
          if d.id == id {
            ProcessStands(sv, w.other, d, asked);
          }
          FindUpdate(w.decrypt, i.value, Process(sv, w.other, d).1, id);
        }
      }
    } else {
      OtherStands(sv, w, id, asked, c, pid, start, data);
    }
  }

  lemma OtherStands<R(!new)>(sv: Services<R>, w: World<R>, id: nat, asked: seq<Asked>, c: Channel, pid: nat,
                             start: bool, data: seq<byte>)
    requires Sparing(sv, id) && Standing(w, id, asked)
    ensures Standing(PutOther(sv, w, c, pid, start, data).0, id, asked)
  {
    hide TurnedDown, Find;
    var e := sv.others(w.other, c, pid, start, data);
    assert Spares(e, id);
    var ds := PutOther(sv, w, c, pid, start, data).0.decrypt;
    assert w.decrypt[Find(w.decrypt, id).value].id == id;
    forall k | 0 <= k < |ds|
      ensures ds[k].id == e.holdings[k].id && (ds[k].id == id ==> TurnedDown(ds[k], asked))
    {
      HeldId(w.decrypt, e.holdings[k]);
    }
    var k :| 0 <= k < |e.holdings| && e.holdings[k].id == id;
    FindThere(ds, k);
  }

  /** A decryptor held on to without unlocking is the one there was. */
  lemma HeldId(ds: seq<Decryptor>, h: Holding)
    ensures Held(ds, h, false).id == h.id
    ensures h.kept && Find(ds, h.id).Some? ==> Held(ds, h, false) == ds[Find(ds, h.id).value]
  {
    hide Find;
  }

  /**
   After a refusal, in every run of the loop and whatever sections come: as long as no EMM for this card unlocks the
   decryptors and the decryptor is not dropped, the card is not asked for it again and it has no cipher object.
   */
  lemma RefusalStands<R(!new)>(sv: Services<R>, unit: nat, st: State<World<R>>, pending: seq<byte>,
                               chunks: seq<seq<byte>>, id: nat, asked: seq<Asked>)
    requires unit >= PACKET && Sparing(sv, id) && Standing(st.tables, id, asked)
    ensures Standing(RunChunks(TablesOf(sv), unit, st, pending, chunks).state.tables, id, asked)
  {
    hide RunChunks, Standing, Put, Sparing;
    var inv := (w: World<R>) => Standing(w, id, asked);
    forall w: World<R>, c: Channel, pid: nat, start: bool, data: seq<byte> | inv(w)
      ensures inv(TablesOf(sv).put(w, c, pid, start, data).0)
    {
      PutStands(sv, w, id, asked, c, pid, start, data);
    }
    ChunksKeep(TablesOf(sv), inv, unit, st, pending, chunks);
  }

  /** An unpurchased answer makes a decryptor so. */
  lemma RefusalStarts<R>(sv: Services<R>, other: R, d: Decryptor)
    requires Waiting(d).Some? && sv.cardPresent(other) && Waiting(d).value[0] as int == K.ECM_S && d.keys.locked == 0
    requires var a := sv.card(other, Waiting(d).value).1; a.Answered? && !K.Purchased(a)
    ensures var d' := Process(sv, other, d).1;
      TurnedDown(d', d.asked + [Asked(Waiting(d).value, sv.card(other, Waiting(d).value).1)])
  {
    hide Uniques, Sound, Announced, WholeFrom, K.Keys.Loaded;
  }
}
