/**
 The packets a run comes to, where and in which state, and what each of them accounts for: the bytes left in place, the
 output and the counters.
 */
module RunTrace {
  import opened Prelude
  import opened Bytes
  import opened Multi2Keys
  import opened PacketLoop
  import opened PacketRuns

  type Packet = p: seq<byte> | |p| >= PACKET witness seq(PACKET, _ => 0)

  /** A packet the loop has come to: its offset in the input, the lead in front of it, the state then, its bytes. */
  datatype Visit<S> = Visit(at: nat, lead: seq<byte>, state: State<S>, p: Packet)

  function Shifted<S>(vs: seq<Visit<S>>, n: nat): (r: seq<Visit<S>>)
    ensures |r| == |vs|
  {
    seq(|vs|, i requires 0 <= i < |vs| => vs[i].(at := vs[i].at + n))
  }

  function VisitAt<S>(unit: nat, st: State<S>, rest: seq<byte>): (v: Visit<S>)
    requires |rest| > unit >= PACKET && Position(rest, unit).Some?
    ensures v.at + unit <= |rest| && v.p == rest[v.at..v.at + unit]
  {
    var q := Position(rest, unit).value;
    Visit(q, Lead(rest, unit, q), st, rest[q..q + unit])
  }

  /** The visits of a run, in order; broken packets are among them. */
  function Visits<S>(t: Tables<S>, unit: nat, st: State<S>, rest: seq<byte>, r: int): seq<Visit<S>>
    requires unit >= PACKET
    decreases |rest|
  {
    if |rest| <= unit || Position(rest, unit).None? then []
    else
      var here := VisitAt(unit, st, rest);
      var m := OneTurn(t, unit, st, rest, r);
      if m.Moved? then [here] + Shifted(Visits(t, unit, m.state, rest[m.used..], m.r), m.used) else [here]
  }

  // ---- One visit ----

  /** The packet is looked into: no error bit, not stripped, not broken. */
  predicate Parsed<S>(t: Tables<S>, p: Packet) { !Passed(t, p) && !Broken(p) }

  /** The packet was scrambled and has been descrambled. */
  predicate WasOpened<S>(t: Tables<S>, v: Visit<S>) {
    && Parsed(t, v.p) && Scrambling(v.p[3]) != 0
    && Descramble(t.Cipher(v.state.tables, Pid(v.p)), v.p).Clear?
  }

  /** The packet as the loop leaves it in place. */
  function LeftAs<S>(t: Tables<S>, v: Visit<S>): seq<byte> {
    if !Parsed(t, v.p) then v.p
    else
      match Descramble(t.Cipher(v.state.tables, Pid(v.p)), v.p)
      case Refused => v.p
      case Clear(q) => q
      case Left(q) => q
  }

  /** What a packet adds to the output, behind its lead, unless the run fails on it. */
  function OutOf<S>(t: Tables<S>, v: Visit<S>): seq<byte>
  {
    if ErrorBit(v.p) then v.p else if Parsed(t, v.p) then LeftAs(t, v) else []
  }

  function FateOf<S>(t: Tables<S>, v: Visit<S>): Fate
  {
    if ErrorBit(v.p) then Errored
    else if Passed(t, v.p) then Stripped
    else if Broken(v.p) then Skipped
    else Emitted(Pid(v.p))
  }

  /** The loop goes on behind the packet; from a broken one it goes on one byte further. */
  predicate Taken<S>(t: Tables<S>, v: Visit<S>)
  {
    Passed(t, v.p) || !Broken(v.p)
  }

  function Width<S>(t: Tables<S>, unit: nat, v: Visit<S>): nat
  {
    if Taken(t, v) then unit else 1
  }

  /** A visit of a run on `rest` that has left `now`. */
  ghost predicate VisitOk<S>(t: Tables<S>, unit: nat, v: Visit<S>, rest: seq<byte>, now: seq<byte>) {
    && unit >= PACKET && |rest| == |now| && v.at + unit <= |rest|
    && v.p == rest[v.at..v.at + unit] && rest[v.at] == SYNC
    && (Taken(t, v) ==> LeftAs(t, v) == now[v.at..v.at + unit])
  }

  lemma DescrambleInPlace(cipher: Option<Eager>, p: seq<byte>)
    requires |p| >= PACKET && !Broken(p)
    ensures var d := Descramble(cipher, p);
      !d.Refused? ==>
        |d.p| == |p| && forall i :: 0 <= i < |p| && d.p[i] != p[i] ==> 3 <= i < PACKET && Scrambling(p[3]) != 0
    ensures var d := Descramble(cipher, p); d.Left? ==> d.p == p
  {
    if HasPayload(p) && cipher.Some? {
      DecryptKeepsLength(cipher.value, Scrambling(p[3]) as int, PayloadOf(p));
    }
    hide ClearedByte, Scrambling, HasPayload, Broken, HasAdaptation, Eager.Step, Splice, PayloadSize;
  }

  lemma DecryptKeepsLength(m: Eager, kind: int, data: seq<byte>)
    ensures |m.Step(Decrypt(kind, data)).1.data| == |data|
  {
  }

  /** A packet changes in place only when it was scrambled and has been descrambled, and only behind its PID. */
  lemma LeftDiffers<S>(t: Tables<S>, v: Visit<S>)
    ensures |LeftAs(t, v)| == |v.p|
    ensures forall i :: 0 <= i < |v.p| && LeftAs(t, v)[i] != v.p[i] ==> 3 <= i < PACKET && WasOpened(t, v)
  {
    if Parsed(t, v.p) {
      DescrambleInPlace(t.Cipher(v.state.tables, Pid(v.p)), v.p);
    }
    hide Descramble, Broken, Passed, Scrambling, Pid, Tables.Cipher;
  }

  lemma HandleLeaves<S>(t: Tables<S>, st: State<S>, p: seq<byte>, r: int, v: Visit<S>)
    requires |p| >= PACKET && (Passed(t, p) || !Broken(p)) && v.state == st && v.p == p
    ensures var h := Handle(t, st, p, r);
      && h.p == LeftAs(t, v)
      && (!h.Failed? ==> h.out == OutOf(t, v) && h.fate == FateOf(t, v))
  {
    hide Descramble, Broken, StartBit, Pid, PayloadSize, Tables.Cipher, Tables.ChannelOf;
  }

  lemma PositionSync(rest: seq<byte>, unit: nat)
    requires |rest| > unit >= PACKET && Position(rest, unit).Some?
    ensures rest[Position(rest, unit).value] == SYNC
  {
    if !(rest[0] == SYNC && rest[unit] == SYNC) {
      ResyncIs(rest, unit, 0);
      var q := Resync(rest, unit, 0).value;
      assert rest[q + unit * 0] == SYNC;
    }
  }

  /** A turn that finds a packet, in terms of its visit: the output and the fate. */
  lemma TurnEmits<S>(t: Tables<S>, unit: nat, st: State<S>, rest: seq<byte>, r: int)
    requires |rest| > unit >= PACKET && Position(rest, unit).Some?
    ensures var m, v := OneTurn(t, unit, st, rest, r), VisitAt(unit, st, rest);
      && !m.Wait?
      && (m.Moved? || m.Finished? ==> m.out == v.lead + OutOf(t, v) && m.fate == FateOf(t, v))
      && m.used == v.at + Width(t, unit, v)
      && (m.Moved? || m.Finished? || m.Broke?)
  {
    hide Position, Handle, LeftAs, Lead, Broken, ErrorBit, Pid;
    var v := VisitAt(unit, st, rest);
    if Passed(t, v.p) || !Broken(v.p) {
      HandleLeaves(t, st, v.p, r, v);
    } else {
      assert v.lead + [] == v.lead;
    }
  }

  /** And the bytes it leaves in place. */
  lemma TurnLeaves<S>(t: Tables<S>, unit: nat, st: State<S>, rest: seq<byte>, r: int)
    requires |rest| > unit >= PACKET && Position(rest, unit).Some?
    ensures var m, v := OneTurn(t, unit, st, rest, r), VisitAt(unit, st, rest);
      !m.Wait? && m.kept + rest[m.used..] == rest[..v.at] + LeftAs(t, v) + rest[v.at + unit..]
  {
    hide Position, Handle, LeftAs, Lead, Broken, Passed;
    var v := VisitAt(unit, st, rest);
    if Passed(t, v.p) || !Broken(v.p) {
      HandleLeaves(t, st, v.p, r, v);
    } else {
      NotParsed(t, v);
      assert rest[..v.at + 1] + rest[v.at + 1..] == rest;
      assert rest[..v.at] + v.p + rest[v.at + unit..] == rest;
    }
  }

  /** Only the packet visited may differ. */
  ghost predicate SameElsewhere<S>(unit: nat, v: Visit<S>, rest: seq<byte>, now: seq<byte>) {
    |rest| == |now| && forall i :: 0 <= i < |rest| && !(v.at <= i < v.at + unit) ==> now[i] == rest[i]
  }

  lemma TurnVisit<S>(t: Tables<S>, unit: nat, st: State<S>, rest: seq<byte>, r: int)
    requires |rest| > unit >= PACKET && Position(rest, unit).Some?
    ensures var m, v := OneTurn(t, unit, st, rest, r), VisitAt(unit, st, rest);
      !m.Wait? && VisitOk(t, unit, v, rest, m.kept + rest[m.used..])
      && SameElsewhere(unit, v, rest, m.kept + rest[m.used..])
  {
    PositionSync(rest, unit);
    TurnLeaves(t, unit, st, rest, r);
    hide *;
    var m, v := OneTurn(t, unit, st, rest, r), VisitAt(unit, st, rest);
    VisitStarts(unit, st, rest);
    LeftDiffers(t, v);
    PutBack(t, unit, v, rest, m.kept + rest[m.used..]);
  }

  lemma VisitStarts<S>(unit: nat, st: State<S>, rest: seq<byte>)
    requires |rest| > unit >= PACKET && Position(rest, unit).Some?
    ensures VisitAt(unit, st, rest).at == Position(rest, unit).value
  {
    hide Position, Lead;
  }

  lemma PutBack<S>(t: Tables<S>, unit: nat, v: Visit<S>, rest: seq<byte>, now: seq<byte>)
    requires unit >= PACKET && v.at + unit <= |rest| && v.p == rest[v.at..v.at + unit] && rest[v.at] == SYNC
    requires |LeftAs(t, v)| == unit && now == rest[..v.at] + LeftAs(t, v) + rest[v.at + unit..]
    ensures VisitOk(t, unit, v, rest, now) && SameElsewhere(unit, v, rest, now)
  {
    hide LeftAs, Passed, Broken;
    assert now[v.at..v.at + unit] == LeftAs(t, v);
  }

  lemma NotParsed<S>(t: Tables<S>, v: Visit<S>)
    requires !Parsed(t, v.p)
    ensures LeftAs(t, v) == v.p
  {
  }

  // ---- All visits ----

  /** Byte `i` lies in the marks or the payload of a scrambled packet that the run has come to and descrambled. */
  ghost predicate InOpened<S>(t: Tables<S>, vs: seq<Visit<S>>, i: nat) {
    exists j :: 0 <= j < |vs| && Covers(t, vs[j], i)
  }

  predicate Covers<S>(t: Tables<S>, v: Visit<S>, i: nat) { WasOpened(t, v) && v.at + 3 <= i < v.at + PACKET }

  ghost predicate InTurn<S>(t: Tables<S>, unit: nat, vs: seq<Visit<S>>) {
    forall j, k :: 0 <= j < k < |vs| ==> vs[j].at + Width(t, unit, vs[j]) <= vs[k].at
  }

  /**
   How a run has gone over its input: the packets visited follow one another, each is in place as it should be left,
   and no byte outside the descrambled ones has changed.
   */
  ghost predicate Trace<S>(t: Tables<S>, unit: nat, vs: seq<Visit<S>>, rest: seq<byte>, now: seq<byte>) {
    && unit >= PACKET && |now| == |rest|
    && (forall j :: 0 <= j < |vs| ==> VisitOk(t, unit, vs[j], rest, now))
    && InTurn(t, unit, vs)
    && forall i :: 0 <= i < |rest| && now[i] != rest[i] ==> InOpened(t, vs, i)
  }

  lemma NoVisits<S>(t: Tables<S>, unit: nat, rest: seq<byte>)
    requires unit >= PACKET
    ensures Trace(t, unit, [], rest, rest)
  {
  }

  lemma OneVisit<S>(t: Tables<S>, unit: nat, v: Visit<S>, rest: seq<byte>, now: seq<byte>)
    requires VisitOk(t, unit, v, rest, now) && SameElsewhere(unit, v, rest, now)
    requires Taken(t, v) || now == rest
    ensures Trace(t, unit, [v], rest, now)
  {
    hide Width;
    forall i | 0 <= i < |rest| && now[i] != rest[i]
      ensures InOpened(t, [v], i)
    {
      OneChange(t, unit, v, rest, now, i);
      assert Covers(t, [v][0], i);
    }
  }

  lemma OneChange<S>(t: Tables<S>, unit: nat, v: Visit<S>, rest: seq<byte>, now: seq<byte>, i: nat)
    requires VisitOk(t, unit, v, rest, now) && SameElsewhere(unit, v, rest, now) && Taken(t, v)
    requires i < |rest| && now[i] != rest[i]
    ensures Covers(t, v, i)
  {
    hide LeftAs, WasOpened;
    LeftDiffers(t, v);
    assert LeftAs(t, v)[i - v.at] == now[v.at..v.at + unit][i - v.at];
    assert v.p[i - v.at] == rest[v.at..v.at + unit][i - v.at];
  }

  /** A visit of the rest of a run, seen from the run's start. */
  lemma ShiftOk<S>(t: Tables<S>, unit: nat, v: Visit<S>, rest: seq<byte>, kept: seq<byte>, later: seq<byte>)
    requires |kept| <= |rest| && VisitOk(t, unit, v, rest[|kept|..], later)
    ensures VisitOk(t, unit, v.(at := v.at + |kept|), rest, kept + later)
  {
    hide LeftAs, Passed, Broken;
    var v' := v.(at := v.at + |kept|);
    SameLeft(t, v, v');
    assert rest == rest[..|kept|] + rest[|kept|..];
    SliceBehind(rest[..|kept|], rest[|kept|..], v.at, v.at + unit);
    SliceBehind(kept, later, v.at, v.at + unit);
  }

  lemma SliceBehind(a: seq<byte>, b: seq<byte>, lo: nat, hi: nat)
    requires lo <= hi <= |b|
    ensures (a + b)[|a| + lo..|a| + hi] == b[lo..hi]
  {
  }

  /** What is done with a packet does not depend on where it is. */
  lemma SameLeft<S>(t: Tables<S>, v: Visit<S>, v': Visit<S>)
    requires v'.p == v.p && v'.state == v.state
    ensures LeftAs(t, v') == LeftAs(t, v) && WasOpened(t, v') == WasOpened(t, v)
  {
  }

  lemma FirstOk<S>(t: Tables<S>, unit: nat, v: Visit<S>, rest: seq<byte>, kept: seq<byte>, later: seq<byte>)
    requires |kept| <= |rest| && |later| == |rest| - |kept|
    requires VisitOk(t, unit, v, rest, kept + rest[|kept|..]) && |kept| == v.at + Width(t, unit, v)
    ensures VisitOk(t, unit, v, rest, kept + later)
  {
    hide LeftAs, Passed, Broken;
    if Taken(t, v) {
      assert (kept + later)[v.at..v.at + unit] == (kept + rest[|kept|..])[v.at..v.at + unit];
    }
  }

  lemma ShiftedOk<S>(t: Tables<S>, unit: nat, vs: seq<Visit<S>>, rest: seq<byte>, kept: seq<byte>, later: seq<byte>)
    requires |kept| <= |rest| && forall j :: 0 <= j < |vs| ==> VisitOk(t, unit, vs[j], rest[|kept|..], later)
    ensures forall j :: 0 <= j < |vs| ==> VisitOk(t, unit, Shifted(vs, |kept|)[j], rest, kept + later)
  {
    hide VisitOk;
    forall j | 0 <= j < |vs|
      ensures VisitOk(t, unit, Shifted(vs, |kept|)[j], rest, kept + later)
    {
      ShiftOk(t, unit, vs[j], rest, kept, later);
    }
  }

  lemma MoreVisits<S>(t: Tables<S>, unit: nat, v: Visit<S>, vs: seq<Visit<S>>, rest: seq<byte>, kept: seq<byte>,
                      later: seq<byte>)
    requires |kept| <= |rest| && Trace(t, unit, [v], rest, kept + rest[|kept|..])
    requires |kept| == v.at + Width(t, unit, v) && Trace(t, unit, vs, rest[|kept|..], later)
    ensures Trace(t, unit, [v] + Shifted(vs, |kept|), rest, kept + later)
  {
    hide VisitOk, Width, Covers, InTurn, InOpened, Shifted;
    var all, now := [v] + Shifted(vs, |kept|), kept + later;
    assert VisitOk(t, unit, [v][0], rest, kept + rest[|kept|..]);
    FirstOk(t, unit, v, rest, kept, later);
    ShiftedOk(t, unit, vs, rest, kept, later);
    ShiftedInTurn(t, unit, v, vs, |kept|);
    forall i | 0 <= i < |rest| && now[i] != rest[i]
      ensures InOpened(t, all, i)
    {
      ChangeSeen(t, unit, v, vs, rest, kept, later, i);
    }
  }

  lemma ShiftedInTurn<S>(t: Tables<S>, unit: nat, v: Visit<S>, vs: seq<Visit<S>>, n: nat)
    requires InTurn(t, unit, vs) && n == v.at + Width(t, unit, v)
    ensures InTurn(t, unit, [v] + Shifted(vs, n))
  {
    hide Passed, Broken;
    var all := [v] + Shifted(vs, n);
    forall j, k | 0 <= j < k < |all|
      ensures all[j].at + Width(t, unit, all[j]) <= all[k].at
    {
      if j > 0 {
        assert vs[j - 1].at + Width(t, unit, vs[j - 1]) <= vs[k - 1].at;
      }
    }
  }

  lemma ChangeSeen<S>(t: Tables<S>, unit: nat, v: Visit<S>, vs: seq<Visit<S>>, rest: seq<byte>, kept: seq<byte>,
                      later: seq<byte>, i: nat)
    requires |kept| <= |rest| && Trace(t, unit, [v], rest, kept + rest[|kept|..])
    requires Trace(t, unit, vs, rest[|kept|..], later)
    requires i < |rest| && (kept + later)[i] != rest[i]
    ensures InOpened(t, [v] + Shifted(vs, |kept|), i)
  {
    hide VisitOk, InTurn, WasOpened;
    var all := [v] + Shifted(vs, |kept|);
    if i < |kept| {
      assert (kept + rest[|kept|..])[i] != rest[i];
      var j :| 0 <= j < |[v]| && Covers(t, [v][j], i);
      assert Covers(t, all[0], i);
    } else {
      assert later[i - |kept|] != rest[|kept|..][i - |kept|];
      var j :| 0 <= j < |vs| && Covers(t, vs[j], i - |kept|);
      SameLeft(t, vs[j], all[j + 1]);
      assert Covers(t, all[j + 1], i);
    }
  }

  /**
   Whatever way a run ends, the bytes it leaves differ from the input only in scrambled packets that it has come to and
   descrambled, and those hold the descrambled packets.
   */
  lemma {:induction false} RunInPlace<S>(t: Tables<S>, unit: nat, st: State<S>, rest: seq<byte>, r: int)
    requires unit >= PACKET
    ensures var o := Run(t, unit, st, rest, r);
      Trace(t, unit, Visits(t, unit, st, rest, r), rest, o.kept + o.rest)
    decreases |rest|
  {
    hide OneTurn, Trace, Position, VisitAt, Width, Shifted, Run, Visits;
    var o := Run(t, unit, st, rest, r);
    if |rest| <= unit || Position(rest, unit).None? {
      NoTurn(t, unit, st, rest, r);
      assert o.kept + o.rest == rest;
      NoVisits(t, unit, rest);
    } else {
      var m, v := OneTurn(t, unit, st, rest, r), VisitAt(unit, st, rest);
      TurnEmits(t, unit, st, rest, r);
      TurnTrace(t, unit, st, rest, r);
      RunVisits(t, unit, st, rest, r);
      if m.Moved? {
        RunInPlace(t, unit, m.state, rest[m.used..], m.r);
        var o' := Run(t, unit, m.state, rest[m.used..], m.r);
        MoreVisits(t, unit, v, Visits(t, unit, m.state, rest[m.used..], m.r), rest, m.kept, o'.kept + o'.rest);
        assert o.kept + o.rest == m.kept + (o'.kept + o'.rest);
      } else {
        RunEnds(t, unit, st, rest, r);
        assert o.kept + o.rest == m.kept + rest[m.used..];
      }
    }
  }

  /** How a run and its visits go on from the first turn. */
  lemma RunVisits<S>(t: Tables<S>, unit: nat, st: State<S>, rest: seq<byte>, r: int)
    requires |rest| > unit >= PACKET && Position(rest, unit).Some?
    ensures var m, v := OneTurn(t, unit, st, rest, r), VisitAt(unit, st, rest);
      && (m.Moved? ==>
            && Run(t, unit, st, rest, r) == Prepend(m, Run(t, unit, m.state, rest[m.used..], m.r))
            && Visits(t, unit, st, rest, r) == [v] + Shifted(Visits(t, unit, m.state, rest[m.used..], m.r), m.used))
      && (!m.Moved? ==> Visits(t, unit, st, rest, r) == [v])
  {
    hide OneTurn, Position, VisitAt, Shifted;
  }

  lemma NoTurn<S>(t: Tables<S>, unit: nat, st: State<S>, rest: seq<byte>, r: int)
    requires unit >= PACKET && (|rest| <= unit || Position(rest, unit).None?)
    ensures Run(t, unit, st, rest, r) == Outcome(st, [], [], rest, Idle, [], r)
    ensures Visits(t, unit, st, rest, r) == []
  {
  }

  lemma NotTaken<S>(t: Tables<S>, v: Visit<S>)
    requires !Taken(t, v)
    ensures LeftAs(t, v) == v.p
  {
    hide Passed, Broken;
  }

  lemma WholeAgain(s: seq<byte>, lo: nat, hi: nat)
    requires lo <= hi <= |s|
    ensures s[..lo] + s[lo..hi] + s[hi..] == s
  {
  }

  lemma TurnTrace<S>(t: Tables<S>, unit: nat, st: State<S>, rest: seq<byte>, r: int)
    requires |rest| > unit >= PACKET && Position(rest, unit).Some?
    ensures var m, v := OneTurn(t, unit, st, rest, r), VisitAt(unit, st, rest);
      !m.Wait? && Trace(t, unit, [v], rest, m.kept + rest[m.used..])
  {
    hide *;
    TurnVisit(t, unit, st, rest, r);
    TurnLeaves(t, unit, st, rest, r);
    var m, v := OneTurn(t, unit, st, rest, r), VisitAt(unit, st, rest);
    if !Taken(t, v) {
      NotTaken(t, v);
      WholeAgain(rest, v.at, v.at + unit);
    }
    OneVisit(t, unit, v, rest, m.kept + rest[m.used..]);
  }

  // ---- What is put out ----

  function OutOfAll<S>(t: Tables<S>, vs: seq<Visit<S>>): seq<byte> {
    if |vs| == 0 then [] else vs[0].lead + OutOf(t, vs[0]) + OutOfAll(t, vs[1..])
  }

  function FatesOf<S>(t: Tables<S>, vs: seq<Visit<S>>): (r: seq<Fate>)
    ensures |r| == |vs|
  {
    if |vs| == 0 then [] else [FateOf(t, vs[0])] + FatesOf(t, vs[1..])
  }

  /** The bytes of leads, which belong to no packet. */
  function Leads<S>(vs: seq<Visit<S>>): nat {
    if |vs| == 0 then 0 else |vs[0].lead| + Leads(vs[1..])
  }

  lemma {:induction false} ShiftedSame<S>(t: Tables<S>, vs: seq<Visit<S>>, n: nat)
    ensures OutOfAll(t, Shifted(vs, n)) == OutOfAll(t, vs) && FatesOf(t, Shifted(vs, n)) == FatesOf(t, vs)
    decreases |vs|
  {
    hide LeftAs, ErrorBit, Passed, Broken, Pid;
    if |vs| > 0 {
      var w := Shifted(vs, n);
      assert w[1..] == Shifted(vs[1..], n);
      ShiftedSame(t, vs[1..], n);
      SameLeft(t, vs[0], w[0]);
    }
  }

  /** The visits that have put something out: all of them, but for the packet a run fails on. */
  function Done<S>(t: Tables<S>, unit: nat, st: State<S>, rest: seq<byte>, r: int): seq<Visit<S>>
    requires unit >= PACKET
  {
    var vs := Visits(t, unit, st, rest, r);
    if Run(t, unit, st, rest, r).status == Failure && |vs| > 0 then vs[..|vs| - 1] else vs
  }

  lemma DoneMore<S>(t: Tables<S>, unit: nat, st: State<S>, rest: seq<byte>, r: int)
    requires |rest| > unit >= PACKET && Position(rest, unit).Some?
    requires OneTurn(t, unit, st, rest, r).Moved?
    ensures var m, v := OneTurn(t, unit, st, rest, r), VisitAt(unit, st, rest);
      Done(t, unit, st, rest, r) == [v] + Shifted(Done(t, unit, m.state, rest[m.used..], m.r), m.used)
  {
    hide OneTurn, Position, VisitAt, Run, Visits;
    RunVisits(t, unit, st, rest, r);
    var m, v := OneTurn(t, unit, st, rest, r), VisitAt(unit, st, rest);
    var vs := Visits(t, unit, m.state, rest[m.used..], m.r);
    if Run(t, unit, m.state, rest[m.used..], m.r).status == Failure {
      FailureVisited(t, unit, m.state, rest[m.used..], m.r);
      assert ([v] + Shifted(vs, m.used))[..|vs|] == [v] + Shifted(vs[..|vs| - 1], m.used);
    }
  }

  /** A run that fails does so on a packet. */
  lemma FailureVisited<S>(t: Tables<S>, unit: nat, st: State<S>, rest: seq<byte>, r: int)
    requires unit >= PACKET && Run(t, unit, st, rest, r).status == Failure
    ensures |Visits(t, unit, st, rest, r)| > 0
  {
    hide OneTurn, Position, VisitAt;
    if |rest| <= unit || Position(rest, unit).None? {
      NoTurn(t, unit, st, rest, r);
    }
  }

  /** The output is that of the packets visited, in order, and the fates are theirs. */
  lemma {:induction false} RunOutput<S>(t: Tables<S>, unit: nat, st: State<S>, rest: seq<byte>, r: int)
    requires unit >= PACKET
    ensures var o, vs := Run(t, unit, st, rest, r), Done(t, unit, st, rest, r);
      o.out == OutOfAll(t, vs) && o.fates == FatesOf(t, vs)
    decreases |rest|
  {
    hide OneTurn, Position, VisitAt, Run, Visits, OutOf, FateOf;
    if |rest| <= unit || Position(rest, unit).None? {
      NoTurn(t, unit, st, rest, r);
    } else {
      var m, v := OneTurn(t, unit, st, rest, r), VisitAt(unit, st, rest);
      TurnEmits(t, unit, st, rest, r);
      RunVisits(t, unit, st, rest, r);
      if m.Moved? {
        RunOutput(t, unit, m.state, rest[m.used..], m.r);
        DoneMore(t, unit, st, rest, r);
        hide Done;
        var vs := Done(t, unit, m.state, rest[m.used..], m.r);
        ShiftedSame(t, vs, m.used);
        assert ([v] + Shifted(vs, m.used))[1..] == Shifted(vs, m.used);
      } else {
        RunEnds(t, unit, st, rest, r);
        assert [v][1..] == [];
        assert m.Finished? ==> m.out + [] == m.out;
      }
    }
  }

  // ---- The counters and the output ----

  /** The PIDs of the packets in an output without leads, but for those with the error bit. */
  function PidsIn(unit: nat, out: seq<byte>): multiset<nat>
    requires unit >= PACKET
    decreases |out|
  {
    if |out| < unit then multiset{}
    else (if ErrorBit(out[..unit]) then multiset{} else multiset{Pid(out[..unit])}) + PidsIn(unit, out[unit..])
  }

  /** Packets of one unit each, with leads no longer than what a unit has beyond a packet. */
  ghost predicate Sized<S>(unit: nat, vs: seq<Visit<S>>) {
    forall j :: 0 <= j < |vs| ==> |vs[j].p| == unit && |vs[j].lead| <= unit - PACKET
  }

  lemma {:induction false} VisitsSized<S>(t: Tables<S>, unit: nat, st: State<S>, rest: seq<byte>, r: int)
    requires unit >= PACKET
    ensures Sized(unit, Visits(t, unit, st, rest, r))
    decreases |rest|
  {
    hide OneTurn, Position, Run, Visits;
    if |rest| <= unit || Position(rest, unit).None? {
      NoTurn(t, unit, st, rest, r);
    } else {
      TurnEmits(t, unit, st, rest, r);
      RunVisits(t, unit, st, rest, r);
      var m := OneTurn(t, unit, st, rest, r);
      if m.Moved? {
        VisitsSized(t, unit, m.state, rest[m.used..], m.r);
      }
    }
  }

  lemma OutSize<S>(t: Tables<S>, v: Visit<S>)
    ensures |OutOf(t, v)| == if FateOf(t, v).Emitted? || FateOf(t, v).Errored? then |v.p| else 0
  {
    hide LeftAs, ErrorBit, Broken, Pid;
    LeftDiffers(t, v);
  }

  lemma PacketsFirst(unit: nat, f: Fate, fs: seq<Fate>)
    ensures unit * Packets([f] + fs) == (if f.Emitted? || f.Errored? then unit else 0) + unit * Packets(fs)
  {
    assert ([f] + fs)[1..] == fs;
    OneMore(unit, Packets(fs));
  }

  lemma OneMore(unit: nat, n: nat)
    ensures unit * (1 + n) == unit + unit * n
  {
  }

  lemma {:induction false} OutputSize<S>(t: Tables<S>, unit: nat, vs: seq<Visit<S>>)
    requires Sized(unit, vs)
    ensures |OutOfAll(t, vs)| == unit * Packets(FatesOf(t, vs)) + Leads(vs)
    decreases |vs|
  {
    if |vs| > 0 {
      hide OutOf, FateOf, Packets;
      OutSize(t, vs[0]);
      OutputSize(t, unit, vs[1..]);
      PacketsFirst(unit, FateOf(t, vs[0]), FatesOf(t, vs[1..]));
    }
  }

  /** A packet keeps its PID and its error bit on its way to the output. */
  lemma HeadersKept<S>(t: Tables<S>, v: Visit<S>)
    ensures FateOf(t, v).Emitted? ==> !ErrorBit(OutOf(t, v)) && FateOf(t, v) == Emitted(Pid(OutOf(t, v)))
    ensures FateOf(t, v).Errored? ==> ErrorBit(OutOf(t, v))
  {
    hide LeftAs, Broken, WasOpened;
    LeftDiffers(t, v);
    if Parsed(t, v.p) {
      assert LeftAs(t, v)[1] == v.p[1] && LeftAs(t, v)[2] == v.p[2];
    }
  }

  lemma {:induction false} OutputPids<S>(t: Tables<S>, unit: nat, vs: seq<Visit<S>>)
    requires unit >= PACKET && Sized(unit, vs) && Leads(vs) == 0
    ensures PidsIn(unit, OutOfAll(t, vs)) == CountedPids(FatesOf(t, vs))
    decreases |vs|
  {
    if |vs| > 0 {
      hide OutOf, FateOf, ErrorBit, Pid;
      OutSize(t, vs[0]);
      HeadersKept(t, vs[0]);
      OutputPids(t, unit, vs[1..]);
      var first, later := OutOf(t, vs[0]), OutOfAll(t, vs[1..]);
      assert vs[0].lead == [] && OutOfAll(t, vs) == first + later;
      assert FatesOf(t, vs)[1..] == FatesOf(t, vs[1..]);
      PidsFirst(unit, first, later);
    }
  }

  lemma PidsFirst(unit: nat, first: seq<byte>, later: seq<byte>)
    requires unit >= PACKET && (|first| == unit || |first| == 0)
    ensures PidsIn(unit, first + later)
      == (if |first| == 0 || ErrorBit(first) then multiset{} else multiset{Pid(first)}) + PidsIn(unit, later)
  {
    hide ErrorBit, Pid;
    if |first| == 0 {
      assert first + later == later;
    } else {
      assert (first + later)[..unit] == first && (first + later)[unit..] == later;
    }
  }

  lemma DoneSized<S>(t: Tables<S>, unit: nat, st: State<S>, rest: seq<byte>, r: int)
    requires unit >= PACKET
    ensures Sized(unit, Done(t, unit, st, rest, r))
  {
    VisitsSized(t, unit, st, rest, r);
    hide Run, Visits;
  }

  /** However a run ends, its output is the packets that are labelled emitted or erroneous, and the leads. */
  lemma OutputCounted<S>(t: Tables<S>, unit: nat, st: State<S>, rest: seq<byte>, r: int)
    requires unit >= PACKET
    ensures var o := Run(t, unit, st, rest, r);
      |o.out| == unit * Packets(o.fates) + Leads(Done(t, unit, st, rest, r))
  {
    hide Run, Done;
    RunOutput(t, unit, st, rest, r);
    DoneSized(t, unit, st, rest, r);
    OutputSize(t, unit, Done(t, unit, st, rest, r));
  }

  lemma {:induction false} NoLeads<S>(vs: seq<Visit<S>>)
    requires Sized(PACKET, vs)
    ensures Leads(vs) == 0
    decreases |vs|
  {
    if |vs| > 0 {
      NoLeads(vs[1..]);
    }
  }

  /**
   Output conservation. An output without leads is whole packets, and unless a program association section has been
   taken the counters rise, PID by PID, by the packets in the output that have no error bit. At a packet size of 188
   there are no leads.
   */
  lemma CountersMatchOutput<S>(t: Tables<S>, unit: nat, st: State<S>, rest: seq<byte>, r: int)
    requires unit >= PACKET
    ensures unit == PACKET ==> Leads(Done(t, unit, st, rest, r)) == 0
    ensures var o := Run(t, unit, st, rest, r);
      Leads(Done(t, unit, st, rest, r)) == 0 ==>
        && |o.out| == unit * Packets(o.fates)
        && PidsIn(unit, o.out) == CountedPids(o.fates)
        && (o.status == Idle ==>
              o.state.normal + o.state.undecrypted == st.normal + st.undecrypted + PidsIn(unit, o.out))
  {
    hide Run, Done, PidsIn, CountedPids;
    var vs := Done(t, unit, st, rest, r);
    DoneSized(t, unit, st, rest, r);
    if unit == PACKET {
      NoLeads(vs);
    }
    OutputCounted(t, unit, st, rest, r);
    RunOutput(t, unit, st, rest, r);
    if Leads(vs) == 0 {
      OutputPids(t, unit, vs);
      if Run(t, unit, st, rest, r).status == Idle {
        CountersConserved(t, unit, st, rest, r);
      }
    }
  }
}
