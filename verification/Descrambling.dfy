/** Descrambling a scrambled stream gives back the clear stream. */
module Descrambling {
  import opened Prelude
  import opened Bytes
  import opened Multi2Keys
  import opened PacketLoop
  import opened PacketRuns

  // ---- Scrambled packets ----

  function MarkedByte(b: byte, mark: byte): byte { ClearedByte(b) | (mark << 6) }

  /** A packet with its scrambling bits set. */
  function Marked(p: seq<byte>, mark: byte): (r: seq<byte>)
    requires |p| >= PACKET
    ensures |r| == |p|
  {
    p[3 := MarkedByte(p[3], mark)]
  }

  /** A clear packet as the broadcaster sends it: payload encrypted under the even or odd key, bits set. */
  function Scrambled(m: Eager, p: seq<byte>, mark: byte): (r: seq<byte>)
    requires |p| >= PACKET && !Broken(p)
  {
    Marked(WithPayload(p, m.Step(Encrypt(mark as int, PayloadOf(p))).1.data), mark)
  }

  /** A packet may be scrambled when it has a payload and its PID a cipher object with all its keys. */
  predicate MayScramble<S>(t: Tables<S>, st: State<S>, p: seq<byte>) {
    && |p| >= PACKET && !Passed(t, p) && !Broken(p)
    && HasPayload(p) && Scrambling(p[3]) == 0
    && t.Cipher(st.tables, Pid(p)).Some?
    && t.Cipher(st.tables, Pid(p)).value.Status(PayloadSize(p)) == OK
  }

  // ---- Header bits ----

  lemma MarkBits(b: byte, mark: byte)
    requires Scrambling(b) == 0 && 1 <= mark <= 3
    ensures Scrambling(MarkedByte(b, mark)) == mark
    ensures MarkedByte(b, mark) & 0x20 == b & 0x20 && MarkedByte(b, mark) & 0x10 == b & 0x10
    ensures ClearedByte(MarkedByte(b, mark)) == b
  {
  }

  /** Two packets that agree on everything the loop reads from the header. */
  predicate SameHeader(p: seq<byte>, s: seq<byte>) {
    && |p| == |s| && |p| >= PACKET
    && p[1] == s[1] && p[2] == s[2]
    && p[3] & 0x20 == s[3] & 0x20 && p[3] & 0x10 == s[3] & 0x10
    && (p[3] & 0x20 != 0 ==> p[4] == s[4])
  }

  lemma HeaderReads<S>(t: Tables<S>, p: seq<byte>, s: seq<byte>)
    requires SameHeader(p, s)
    ensures ErrorBit(p) == ErrorBit(s) && StartBit(p) == StartBit(s) && Pid(p) == Pid(s)
    ensures HasAdaptation(p) == HasAdaptation(s) && HasPayload(p) == HasPayload(s)
    ensures PayloadSize(p) == PayloadSize(s) && Broken(p) == Broken(s) && Passed(t, p) == Passed(t, s)
  {
  }

  lemma PayloadBounds(p: seq<byte>)
    requires |p| >= PACKET && !Broken(p) && HasPayload(p)
    ensures 1 <= PayloadSize(p) <= PACKET - 4
    ensures HasAdaptation(p) ==> PayloadSize(p) <= PACKET - 5
  {
  }

  lemma EncryptKeepsLength(m: Eager, kind: int, data: seq<byte>)
    ensures |m.Step(Encrypt(kind, data)).1.data| == |data|
  {
  }

  lemma HeaderKept(p: seq<byte>, ct: seq<byte>, mark: byte)
    requires |p| >= PACKET && !Broken(p) && HasPayload(p) && |ct| == PayloadSize(p)
    requires Scrambling(p[3]) == 0 && 1 <= mark <= 3
    ensures var s := Marked(WithPayload(p, ct), mark);
      SameHeader(p, s) && Scrambling(s[3]) == mark && s[0] == p[0]
  {
    PayloadBounds(p);
    MarkBits(p[3], mark);
    hide Splice;
  }

  /** Putting the payload back and clearing the bits restores the packet. */
  lemma Restored(p: seq<byte>, ct: seq<byte>, mark: byte)
    requires |p| >= PACKET && !Broken(p) && HasPayload(p) && |ct| == PayloadSize(p)
    requires Scrambling(p[3]) == 0 && 1 <= mark <= 3
    ensures var s := Marked(WithPayload(p, ct), mark);
      s[PACKET - PayloadSize(p)..PACKET] == ct && Unmarked(WithPayload(s, PayloadOf(p))) == p
  {
    PayloadBounds(p);
    hide Splice, PayloadSize, Broken, HasPayload, MarkedByte, ClearedByte, Scrambling;
    MarkBits(p[3], mark);
    var s := Marked(WithPayload(p, ct), mark);
    var back := Unmarked(WithPayload(s, PayloadOf(p)));
    forall i | 0 <= i < |p|
      ensures back[i] == p[i]
    {
    }
  }

  /** Descrambling undoes scrambling. */
  lemma DescrambleScrambled(m: Eager, p: seq<byte>, mark: byte)
    requires |p| >= PACKET && !Broken(p) && HasPayload(p) && Scrambling(p[3]) == 0 && 1 <= mark <= 3
    requires m.Status(PayloadSize(p)) == OK
    ensures var s := Scrambled(m, p, mark);
      && SameHeader(p, s) && !Broken(s) && s[0] == p[0]
      && Descramble(Some(m), s) == Clear(p) == Descramble(Some(m), p)
  {
    hide Eager.Step, Eager.Status, Marked, WithPayload, Unmarked, PayloadSize, HasPayload, Scrambling, SameHeader;
    var data := PayloadOf(p);
    PayloadBounds(p);
    EagerRoundTrip(m, mark as int, data);
    EncryptKeepsLength(m, mark as int, data);
    var ct := m.Step(Encrypt(mark as int, data)).1.data;
    var s := Scrambled(m, p, mark);
    HeaderKept(p, ct, mark);
    Restored(p, ct, mark);
    HeaderReads(NoTables(), p, s);
    assert PayloadOf(s) == ct;
  }

  /** Tables that never do anything. */
  function NoTables(): Tables<int> {
    Tables((s: int, p: nat) => UnknownKind, (s: int, p: nat) => None, (s: int) => None,
           (s: int, c: Channel, p: nat, b: bool, d: seq<byte>) => (s, Quiet), false, false)
  }

  /** The loop treats a scrambled packet exactly as it treats the clear one. */
  lemma HandleScrambled<S>(t: Tables<S>, st: State<S>, p: seq<byte>, mark: byte, r: int)
    requires MayScramble(t, st, p) && 1 <= mark <= 3
    ensures var s := Scrambled(t.Cipher(st.tables, Pid(p)).value, p, mark);
      && |s| == |p| && s[0] == p[0] && !Passed(t, s) && !Broken(s)
      && Handle(t, st, s, r) == Handle(t, st, p, r)
  {
    hide Eager.Step, Eager.Status, Descramble, PayloadSize, HasPayload, Scrambling, SameHeader, Scrambled, Broken, Pid,
         ErrorBit, StartBit, Tables.Cipher, Tables.ChannelOf;
    var m := t.Cipher(st.tables, Pid(p)).value;
    DescrambleScrambled(m, p, mark);
    HeaderReads(t, p, Scrambled(m, p, mark));
  }

  // ---- Streams ----

  /** Packets of one unit each, all with their sync byte. */
  ghost predicate InSync(ps: seq<seq<byte>>, unit: nat) {
    unit > 0 && forall i :: 0 <= i < |ps| ==> |ps[i]| == unit && ps[i][0] == SYNC
  }

  /**
   `ss` is the clear stream `cs` with some payloads scrambled: each under the keys its PID's cipher object holds when
   the loop comes to the packet. The packet held back at the end is not looked at.
   */
  ghost predicate ScrambledStream<S>(t: Tables<S>, st: State<S>, cs: seq<seq<byte>>, ss: seq<seq<byte>>, r: int)
    decreases |cs|
  {
    && |cs| == |ss|
    && (|cs| > 1 ==>
          && |cs[0]| >= PACKET && (Passed(t, cs[0]) || !Broken(cs[0]))
          && OneScrambled(t, st, cs[0], ss[0])
          && (Handle(t, st, cs[0], r).Next? ==>
                ScrambledStream(t, Handle(t, st, cs[0], r).state, cs[1..], ss[1..], Handle(t, st, cs[0], r).r)))
  }

  ghost predicate OneScrambled<S>(t: Tables<S>, st: State<S>, c: seq<byte>, s: seq<byte>) {
    || s == c
    || (MayScramble(t, st, c)
        && exists mark: byte :: 1 <= mark <= 3 && s == Scrambled(t.Cipher(st.tables, Pid(c)).value, c, mark))
  }

  lemma HandleOne<S>(t: Tables<S>, st: State<S>, c: seq<byte>, s: seq<byte>, r: int)
    requires |c| >= PACKET && (Passed(t, c) || !Broken(c)) && OneScrambled(t, st, c, s)
    ensures |s| == |c| && s[0] == c[0] && (Passed(t, s) || !Broken(s))
    ensures Handle(t, st, s, r) == Handle(t, st, c, r)
  {
    hide Handle, Scrambled, Passed, Broken, Tables.Cipher, Pid;
    if s != c {
      var mark :| 1 <= mark <= 3 && s == Scrambled(t.Cipher(st.tables, Pid(c)).value, c, mark);
      HandleScrambled(t, st, c, mark, r);
    }
  }

  /** One turn on an in-sync stream is one packet. */
  lemma TurnInSync<S>(t: Tables<S>, unit: nat, st: State<S>, ps: seq<seq<byte>>, r: int)
    requires unit >= PACKET && InSync(ps, unit) && |ps| > 1 && (Passed(t, ps[0]) || !Broken(ps[0]))
    ensures |Concat(ps)| > unit && Concat(ps)[unit..] == Concat(ps[1..])
    ensures var h := Handle(t, st, ps[0], r);
      OneTurn(t, unit, st, Concat(ps), r) ==
        match h
        case Next(st', p', out, fate, r') => Moved(st', unit, p', out, fate, r')
        case Ended(st', p', out, fate, r') => Finished(st', unit, p', out, fate, r')
        case Failed(st', p', code) => Broke(st', unit, p', code)
  {
    hide Handle, Passed, Broken, Resync;
    var all, rest := Concat(ps), Concat(ps[1..]);
    assert all == ps[0] + rest;
    assert rest == ps[1..][0] + Concat(ps[1..][1..]);
    assert all[unit] == ps[1][0] == SYNC && all[0] == SYNC;
    assert Position(all, unit) == Some(0);
    assert all[0..0 + unit] == ps[0];
    var h := Handle(t, st, ps[0], r);
    assert all[..0] + h.p == h.p;
    assert h.Next? || h.Ended? ==> Lead(all, unit, 0) + h.out == h.out;
  }

  /** And the run goes on with the packets behind it. */
  lemma RunInSync<S>(t: Tables<S>, unit: nat, st: State<S>, ps: seq<seq<byte>>, r: int)
    requires unit >= PACKET && InSync(ps, unit) && |ps| > 1 && (Passed(t, ps[0]) || !Broken(ps[0]))
    ensures var h, o := Handle(t, st, ps[0], r), Run(t, unit, st, Concat(ps), r);
      && (h.Next? ==>
            o == Prepend(Moved(h.state, unit, h.p, h.out, h.fate, h.r), Run(t, unit, h.state, Concat(ps[1..]), h.r)))
      && (h.Ended? ==> o == Outcome(h.state, h.out, h.p, Concat(ps[1..]), PatDone, [h.fate], h.r))
      && (h.Failed? ==>
            o.state == h.state && o.out == [] && o.kept == [] && o.status == Failure && o.fates == [] && o.r == h.r)
  {
    hide Handle, OneTurn, Passed, Broken, Concat;
    TurnInSync(t, unit, st, ps, r);
  }

  /** The packet held back gives the loop nothing to do. */
  lemma RunShort<S>(t: Tables<S>, unit: nat, st: State<S>, ps: seq<seq<byte>>, r: int)
    requires unit >= PACKET && InSync(ps, unit) && |ps| <= 1
    ensures Run(t, unit, st, Concat(ps), r) == Outcome(st, [], [], if |ps| == 0 then [] else ps[0], Idle, [], r)
  {
    hide OneTurn;
    if |ps| == 1 {
      assert Concat(ps) == ps[0] + Concat(ps[1..]);
      assert Concat(ps) == ps[0];
    }
  }

  /**
   Descrambling restores the clear stream: on a scrambled stream the loop gives the output, the state, the counters
   and the result it gives on the clear stream.
   */
  lemma {:induction false} ScrambledRun<S>(t: Tables<S>, unit: nat, st: State<S>, cs: seq<seq<byte>>,
                                           ss: seq<seq<byte>>, r: int)
    requires unit >= PACKET && InSync(cs, unit) && InSync(ss, unit) && ScrambledStream(t, st, cs, ss, r)
    ensures var o, o' := Run(t, unit, st, Concat(cs), r), Run(t, unit, st, Concat(ss), r);
      && o'.out == o.out && o'.state == o.state && o'.status == o.status && o'.fates == o.fates && o'.r == o.r
      && o'.kept == o.kept
    decreases |cs|
  {
    hide Handle, Run, Passed, Broken, OneScrambled, Concat;
    if |cs| <= 1 {
      RunShort(t, unit, st, cs, r);
      RunShort(t, unit, st, ss, r);
    } else {
      HandleOne(t, st, cs[0], ss[0], r);
      RunInSync(t, unit, st, cs, r);
      RunInSync(t, unit, st, ss, r);
      var h := Handle(t, st, cs[0], r);
      if h.Next? {
        ScrambledRun(t, unit, h.state, cs[1..], ss[1..], h.r);
      }
    }
  }

  // ---- The clear stream itself ----

  /** A packet that is not marked scrambled. */
  predicate IsClear(p: seq<byte>) { |p| >= PACKET && Scrambling(p[3]) == 0 }

  /** The loop goes on over each of these packets. */
  ghost predicate NoEnd<S>(t: Tables<S>, st: State<S>, cs: seq<seq<byte>>, r: int)
    decreases |cs|
  {
    |cs| > 1 ==>
      && |cs[0]| >= PACKET && (Passed(t, cs[0]) || !Broken(cs[0])) && Handle(t, st, cs[0], r).Next?
      && NoEnd(t, Handle(t, st, cs[0], r).state, cs[1..], Handle(t, st, cs[0], r).r)
  }

  lemma ClearEmitted<S>(t: Tables<S>, st: State<S>, p: seq<byte>, r: int)
    requires IsClear(p) && !t.strip && (Passed(t, p) || !Broken(p)) && Handle(t, st, p, r).Next?
    ensures Handle(t, st, p, r).out == p
  {
    hide Broken, Pid, ErrorBit, StartBit, Tables.Cipher, Tables.ChannelOf, PayloadSize;
  }

  /** On a clear stream the loop emits every packet unchanged, in order, but the last, which it holds back. */
  lemma {:induction false} ClearRun<S>(t: Tables<S>, unit: nat, st: State<S>, cs: seq<seq<byte>>, r: int)
    requires unit >= PACKET && InSync(cs, unit) && |cs| > 0 && !t.strip && NoEnd(t, st, cs, r)
    requires forall i :: 0 <= i < |cs| ==> IsClear(cs[i])
    ensures var o := Run(t, unit, st, Concat(cs), r);
      o.status == Idle && o.out == Concat(cs[..|cs| - 1]) && o.rest == cs[|cs| - 1]
    decreases |cs|
  {
    hide Handle, Run, Passed, Broken, IsClear;
    if |cs| == 1 {
      RunShort(t, unit, st, cs, r);
      assert cs[..0] == [];
    } else {
      ClearEmitted(t, st, cs[0], r);
      RunInSync(t, unit, st, cs, r);
      var h := Handle(t, st, cs[0], r);
      ClearRun(t, unit, h.state, cs[1..], h.r);
      var front := cs[..|cs| - 1];
      assert front[1..] == cs[1..][..|cs| - 2];
      assert Concat(front) == front[0] + Concat(front[1..]);
    }
  }

  /** Both together: a scrambled stream comes out as the clear one, up to the packet held back. */
  lemma DescramblingRestores<S>(t: Tables<S>, unit: nat, st: State<S>, cs: seq<seq<byte>>, ss: seq<seq<byte>>, r: int)
    requires unit >= PACKET && InSync(cs, unit) && InSync(ss, unit) && |cs| > 0
    requires !t.strip && NoEnd(t, st, cs, r) && ScrambledStream(t, st, cs, ss, r)
    requires forall i :: 0 <= i < |cs| ==> IsClear(cs[i])
    ensures Run(t, unit, st, Concat(ss), r).out == Concat(cs[..|cs| - 1])
  {
    hide Run, NoEnd, ScrambledStream, IsClear, Concat;
    ClearRun(t, unit, st, cs, r);
    ScrambledRun(t, unit, st, cs, ss, r);
  }
}
