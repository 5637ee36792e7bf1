/**
 How a run gets from packet to packet: in step, over a packet it cannot use, and after bytes that are no packets. The
 sync byte and the distances are written out.
 */
module PacketSync {
  import opened Prelude
  import opened Bytes
  import opened PacketLoop
  import opened PacketHeaders

  /** There is a sync byte in front, and one a unit later. */
  predicate InStep(rest: seq<byte>, unit: nat) { |rest| > unit && rest[0] == 0x47 && rest[unit] == 0x47 }

  /** The first place from which eight sync bytes stand one unit apart. */
  ghost predicate FirstSync(rest: seq<byte>, unit: nat, q: nat) {
    && EightSyncs(rest, unit, q)
    && forall k: nat :: k < q ==> !EightSyncs(rest, unit, k)
  }

  predicate EightSyncs(rest: seq<byte>, unit: nat, q: nat) {
    && q + 8 * unit <= |rest|
    && (forall i :: 0 <= i < 8 ==> 0 <= q + unit * i < |rest|)
    && forall i :: 0 <= i < 8 ==> rest[q + unit * i] == 0x47
  }

  lemma EightSyncsAre(rest: seq<byte>, unit: nat, q: nat)
    requires unit >= 188 && q + 8 * unit <= |rest|
    ensures SyncAt(rest, unit, q) == EightSyncs(rest, unit, q)
  {
    forall i | 0 <= i < 8
      ensures 0 <= q + unit * i < |rest|
    {
      assert 0 <= unit * i <= unit * 7;
    }
  }

  lemma ResyncFinds(rest: seq<byte>, unit: nat, q: nat)
    requires unit >= 188 && FirstSync(rest, unit, q)
    ensures Resync(rest, unit, 0) == Some(q)
  {
    hide SyncAt, EightSyncs, Resync;
    assert q + 8 * unit <= |rest| by { Room(rest, unit, q); }
    EightSyncsAre(rest, unit, q);
    ResyncIs(rest, unit, 0);
    var r := Resync(rest, unit, 0);
    if r.Some? {
      EightSyncsAre(rest, unit, r.value);
    }
  }

  lemma Room(rest: seq<byte>, unit: nat, q: nat)
    requires EightSyncs(rest, unit, q)
    ensures q + 8 * unit <= |rest|
  {
  }

  /** A run with one packet more in front of it. */
  function Behind<S>(out: seq<byte>, kept: seq<byte>, fate: Fate, o: Outcome<S>): Outcome<S> {
    o.(out := out + o.out, kept := kept + o.kept, fates := [fate] + o.fates)
  }

  /** In step, a packet is handled as it is, and the run goes on a unit later. */
  lemma RunInStep<S>(t: Tables<S>, unit: nat, st: State<S>, rest: seq<byte>, r: int)
    requires unit >= 188 && InStep(rest, unit)
    requires Passed(t, rest[..unit]) || !Broken(rest[..unit])
    ensures var h := Handle(t, st, rest[..unit], r);
      Run(t, unit, st, rest, r)
        == if h.Failed? then Outcome(h.state, [], [], h.p + rest[unit..], Failure, [], h.r)
           else if h.Ended? then Outcome(h.state, h.out, h.p, rest[unit..], PatDone, [h.fate], h.r)
           else Behind(h.out, h.p, h.fate, Run(t, unit, h.state, rest[unit..], h.r))
  {
    hide Handle, Passed, Broken, Resync, Run;
    assert Position(rest, unit) == Some(0);
    assert rest[0..0 + unit] == rest[..unit];
    assert Lead(rest, unit, 0) == [];
    var h := Handle(t, st, rest[..unit], r);
    assert [] + h.p == h.p && rest[..0] + h.p == h.p;
    if !h.Failed? {
      assert [] + h.out == h.out;
    }
    RunIs(t, unit, st, rest, r);
  }

  /** What a run comes to after its first turn. */
  function AfterTurn<S>(t: Tables<S>, unit: nat, st: State<S>, rest: seq<byte>, m: Turn<S>, r: int): Outcome<S>
    requires unit >= 188 && (m.Wait? || m.used <= |rest|)
  {
    if m.Wait? then Outcome(st, [], [], rest, Idle, [], r)
    else if m.Broke? then Outcome(m.state, [], [], m.kept + rest[m.used..], Failure, [], m.r)
    else if m.Finished? then Outcome(m.state, m.out, m.kept, rest[m.used..], PatDone, [m.fate], m.r)
    else Behind(m.out, m.kept, m.fate, Run(t, unit, m.state, rest[m.used..], m.r))
  }

  lemma RunIs<S>(t: Tables<S>, unit: nat, st: State<S>, rest: seq<byte>, r: int)
    requires unit >= 188 && |rest| > unit
    ensures Run(t, unit, st, rest, r) == AfterTurn(t, unit, st, rest, OneTurn(t, unit, st, rest, r), r)
  {
    hide OneTurn;
  }

  /** In step on a packet whose adaptation field does not fit, the run goes on with the next byte. */
  lemma RunSkips<S>(t: Tables<S>, unit: nat, st: State<S>, rest: seq<byte>, f: Fields, r: int)
    requires unit >= 188 && InStep(rest, unit) && HasHeader(rest[..unit], f)
    requires Overlong(rest[..unit], f) && !f.error && !(f.Number() == 0x1fff && t.strip)
    ensures Run(t, unit, st, rest, r) == Behind([], [rest[0]], Skipped, Run(t, unit, st, rest[1..], r))
  {
    hide HasHeader, Run, OneTurn, Passed, Broken, Overlong;
    OverlongIs(t, rest[..unit], f);
    TurnSkips(t, unit, st, rest, r);
    RunIs(t, unit, st, rest, r);
  }

  lemma OverlongIs<S>(t: Tables<S>, p: seq<byte>, f: Fields)
    requires HasHeader(p, f) && Overlong(p, f) && !f.error && !(f.Number() == 0x1fff && t.strip)
    ensures !Passed(t, p) && Broken(p)
  {
    hide HasHeader, Broken;
    HeaderRead(p, f);
    PayloadRead(p, f);
  }

  lemma TurnSkips<S>(t: Tables<S>, unit: nat, st: State<S>, rest: seq<byte>, r: int)
    requires unit >= 188 && InStep(rest, unit) && !Passed(t, rest[..unit]) && Broken(rest[..unit])
    ensures OneTurn(t, unit, st, rest, r) == Moved(st, 1, [rest[0]], [], Skipped, r)
  {
    hide Handle, Passed, Broken, Resync;
    assert Position(rest, unit) == Some(0);
    assert rest[0..0 + unit] == rest[..unit];
    assert Lead(rest, unit, 0) == [];
    assert rest[..0 + 1] == [rest[0]];
  }

  /** Out of step and with no place to go on from, nothing is used and nothing emitted. */
  lemma RunWaits<S>(t: Tables<S>, unit: nat, st: State<S>, rest: seq<byte>, r: int)
    requires unit >= 188 && !InStep(rest, unit) && forall q: nat :: !EightSyncs(rest, unit, q)
    ensures Run(t, unit, st, rest, r) == Outcome(st, [], [], rest, Idle, [], r)
  {
    hide EightSyncs, SyncAt, Resync, Handle;
    if |rest| > unit {
      ResyncIs(rest, unit, 0);
      var at := Resync(rest, unit, 0);
      if at.Some? {
        EightSyncsAre(rest, unit, at.value);
      }
    }
  }

  /** The bytes just in front of a packet that make it a whole unit, when there are that many. */
  function InFront(rest: seq<byte>, unit: nat, q: nat): seq<byte>
    requires q <= |rest| && unit >= 188
  {
    if q >= unit - 188 then rest[q - (unit - 188)..q] else []
  }

  lemma SyncsInStep(rest: seq<byte>, unit: nat, q: nat)
    requires unit >= 188 && EightSyncs(rest, unit, q)
    ensures q + 8 * unit <= |rest| && InStep(rest[q..], unit)
  {
    assert rest[q..][0] == rest[q + unit * 0] && rest[q..][unit] == rest[q + unit * 1];
  }

  /**
   Out of step, the run is the run from the first place with eight sync bytes, which emits the bytes just in front of it
   first; they are lost when the run fails on the very first packet.
   */
  lemma RunResyncs<S>(t: Tables<S>, unit: nat, st: State<S>, rest: seq<byte>, q: nat, r: int)
    requires unit >= 188 && |rest| > unit && !InStep(rest, unit) && FirstSync(rest, unit, q)
    ensures q <= |rest|
    ensures var o := Run(t, unit, st, rest[q..], r);
      Run(t, unit, st, rest, r)
        == if o.status == Failure && |o.kept| == 0 then o.(rest := rest[..q] + o.rest)
           else o.(out := InFront(rest, unit, q) + o.out, kept := rest[..q] + o.kept)
  {
    hide EightSyncs, FirstSync, Run, OneTurn, InStep, AfterTurn, InFront, Shifted;
    FirstIsSync(rest, unit, q);
    SyncsInStep(rest, unit, q);
    TurnResyncs(t, unit, st, rest, q, r);
    RunIs(t, unit, st, rest, r);
    RunIs(t, unit, st, rest[q..], r);
    var m := OneTurn(t, unit, st, rest[q..], r);
    if m.Moved? {
      AfterMove(t, unit, st, rest, q, m, InFront(rest, unit, q), r);
    } else {
      AfterEnd(t, unit, st, rest, q, m, InFront(rest, unit, q), r);
    }
  }

  lemma FirstIsSync(rest: seq<byte>, unit: nat, q: nat)
    requires FirstSync(rest, unit, q)
    ensures EightSyncs(rest, unit, q) && q + 8 * unit <= |rest|
  {
  }

  /** The same turn with more bytes in front of it, some of which it emits. */
  function Shifted<S>(m: Turn<S>, front: seq<byte>, lead: seq<byte>): Turn<S>
    requires !m.Wait?
  {
    if m.Broke? then m.(used := |front| + m.used, kept := front + m.kept)
    else m.(used := |front| + m.used, kept := front + m.kept, out := lead + m.out)
  }

  lemma AfterMove<S>(t: Tables<S>, unit: nat, st: State<S>, rest: seq<byte>, q: nat, m: Turn<S>, lead: seq<byte>,
                     r: int)
    requires unit >= 188 && q <= |rest| && m.Moved? && m.used <= |rest[q..]| && |m.kept| > 0
    ensures var o := AfterTurn(t, unit, st, rest[q..], m, r);
      && |o.kept| > 0
      && AfterTurn(t, unit, st, rest, Shifted(m, rest[..q], lead), r)
           == o.(out := lead + o.out, kept := rest[..q] + o.kept)
  {
    hide Run;
    assert rest[q + m.used..] == rest[q..][m.used..];
    var o := Run(t, unit, m.state, rest[q..][m.used..], m.r);
    assert (lead + m.out) + o.out == lead + (m.out + o.out);
    assert (rest[..q] + m.kept) + o.kept == rest[..q] + (m.kept + o.kept);
  }

  lemma AfterEnd<S>(t: Tables<S>, unit: nat, st: State<S>, rest: seq<byte>, q: nat, m: Turn<S>, lead: seq<byte>,
                    r: int)
    requires unit >= 188 && q <= |rest| && (m.Finished? || m.Broke?) && m.used <= |rest[q..]|
    ensures var o := AfterTurn(t, unit, st, rest[q..], m, r);
      && (o.status == Failure) == m.Broke? && (m.Broke? ==> o.kept == [])
      && AfterTurn(t, unit, st, rest, Shifted(m, rest[..q], lead), r)
           == if m.Broke? then o.(rest := rest[..q] + o.rest) else o.(out := lead + o.out, kept := rest[..q] + o.kept)
  {
    hide Run;
    assert rest[q + m.used..] == rest[q..][m.used..];
    assert (rest[..q] + m.kept) + rest[q + m.used..] == rest[..q] + (m.kept + rest[q + m.used..]);
  }

  lemma TurnResyncs<S>(t: Tables<S>, unit: nat, st: State<S>, rest: seq<byte>, q: nat, r: int)
    requires unit >= 188 && |rest| > unit && !InStep(rest, unit) && FirstSync(rest, unit, q)
    ensures q + 8 * unit <= |rest|
    ensures var m := OneTurn(t, unit, st, rest[q..], r);
      && !m.Wait?
      && OneTurn(t, unit, st, rest, r) == Shifted(m, rest[..q], InFront(rest, unit, q))
  {
    hide EightSyncs, Resync, Handle, Passed, Broken;
    SyncsInStep(rest, unit, q);
    ResyncFinds(rest, unit, q);
    var from := rest[q..];
    assert Position(rest, unit) == Some(q) && Position(from, unit) == Some(0);
    var p := rest[q..q + unit];
    assert from[0..0 + unit] == p;
    assert Lead(from, unit, 0) == [] && Lead(rest, unit, q) == InFront(rest, unit, q);
    assert from[..0] == [] && rest[..q] + from[..1] == rest[..q + 1];
    if Passed(t, p) || !Broken(p) {
      var h := Handle(t, st, p, r);
      assert [] + h.p == h.p;
      if !h.Failed? {
        assert [] + h.out == h.out;
      }
    }
  }
}
