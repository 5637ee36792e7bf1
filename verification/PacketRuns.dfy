/** What holds of every run of the packet loop: chunk boundaries, output size, counters, and bytes left in place. */
module PacketRuns {
  import opened Bytes
  import opened PacketLoop

  // ---- Chunk boundaries do not matter ----

  lemma SyncMore(a: seq<byte>, b: seq<byte>, unit: nat, q: nat)
    requires unit >= PACKET && q + 8 * unit <= |a|
    ensures SyncAt(a + b, unit, q) == SyncAt(a, unit, q)
  {
    forall i | 0 <= i < 8
      ensures (a + b)[q + unit * i] == a[q + unit * i]
    {
      assert unit * i <= unit * 7;
    }
  }

  lemma {:induction false} ResyncMore(a: seq<byte>, b: seq<byte>, unit: nat, q: nat)
    requires unit >= PACKET && Resync(a, unit, q).Some?
    ensures Resync(a + b, unit, q) == Resync(a, unit, q)
    decreases |a| - q
  {
    hide SyncAt;
    SyncMore(a, b, unit, q);
    if !SyncAt(a, unit, q) {
      ResyncMore(a, b, unit, q + 1);
    }
  }

  lemma PositionMore(a: seq<byte>, b: seq<byte>, unit: nat)
    requires |a| > unit >= PACKET && Position(a, unit).Some?
    ensures Position(a + b, unit) == Position(a, unit)
  {
    hide Resync;
    assert (a + b)[0] == a[0] && (a + b)[unit] == a[unit];
    if !(a[0] == SYNC && a[unit] == SYNC) {
      ResyncMore(a, b, unit, 0);
    }
  }

  /** A turn that could be taken is taken in the same way when more bytes follow. */
  lemma TurnMore<S>(t: Tables<S>, unit: nat, st: State<S>, a: seq<byte>, b: seq<byte>, r: int)
    requires |a| > unit >= PACKET && !OneTurn(t, unit, st, a, r).Wait?
    ensures OneTurn(t, unit, st, a + b, r) == OneTurn(t, unit, st, a, r)
  {
    hide Handle, Position, Passed, Broken;
    var rest := a + b;
    PositionMore(a, b, unit);
    var q := Position(a, unit).value;
    assert rest[q..q + unit] == a[q..q + unit];
    assert Lead(rest, unit, q) == Lead(a, unit, q);
    hide Lead;
    assert rest[..q] == a[..q] && rest[..q + 1] == a[..q + 1];
  }

  /** Two runs, the second on what the first left, as one. */
  function Join<S>(o: Outcome<S>, o': Outcome<S>): Outcome<S> {
    o'.(out := o.out + o'.out, kept := o.kept + o'.kept, fates := o.fates + o'.fates)
  }

  /**
   Chunk independence: a run on `a`, then one on what it left with `b` behind it, comes to the same output, pending
   bytes, state and result as one run on everything, wherever the boundary falls.
   */
  lemma {:induction false} ChunkIndependence<S>(t: Tables<S>, unit: nat, st: State<S>, a: seq<byte>, b: seq<byte>,
                                                r: int)
    requires unit >= PACKET && Run(t, unit, st, a, r).status == Idle
    ensures var o := Run(t, unit, st, a, r);
      Run(t, unit, st, a + b, r) == Join(o, Run(t, unit, o.state, o.rest + b, o.r))
    decreases |a|
  {
    hide OneTurn;
    var o := Run(t, unit, st, a, r);
    if |a| <= unit || OneTurn(t, unit, st, a, r).Wait? {
      var o' := Run(t, unit, st, a + b, r);
      assert [] + o'.out == o'.out && [] + o'.kept == o'.kept && [] + o'.fates == o'.fates;
    } else {
      var m := OneTurn(t, unit, st, a, r);
      TurnMore(t, unit, st, a, b, r);
      assert (a + b)[m.used..] == a[m.used..] + b;
      ChunkIndependence(t, unit, m.state, a[m.used..], b, m.r);
      var o1 := Run(t, unit, m.state, a[m.used..], m.r);
      var o2 := Run(t, unit, o.state, o.rest + b, o.r);
      PrependJoined(m, o1, o2);
    }
  }

  lemma PrependJoined<S>(m: Turn<S>, o1: Outcome<S>, o2: Outcome<S>)
    requires m.Moved?
    ensures Prepend(m, Join(o1, o2)) == Join(Prepend(m, o1), o2)
  {
    assert (m.out + o1.out) + o2.out == m.out + (o1.out + o2.out);
    assert (m.kept + o1.kept) + o2.kept == m.kept + (o1.kept + o2.kept);
    assert ([m.fate] + o1.fates) + o2.fates == [m.fate] + (o1.fates + o2.fates);
  }

  /** Outcomes that differ at most in the result code. */
  ghost predicate SameButResult<S>(o: Outcome<S>, o': Outcome<S>) { o.(r := 0) == o'.(r := 0) }

  lemma HandleResult<S>(t: Tables<S>, st: State<S>, p: seq<byte>, r: int, r': int)
    requires |p| >= PACKET && (Passed(t, p) || !Broken(p))
    ensures Handle(t, st, p, r).(r := 0) == Handle(t, st, p, r').(r := 0)
  {
    hide Descramble, Tables.Cipher, Tables.ChannelOf, Pid, StartBit, PayloadSize;
  }

  lemma TurnResult<S>(t: Tables<S>, unit: nat, st: State<S>, rest: seq<byte>, r: int, r': int)
    requires |rest| > unit >= PACKET
    ensures OneTurn(t, unit, st, rest, r).Wait? <==> OneTurn(t, unit, st, rest, r').Wait?
    ensures !OneTurn(t, unit, st, rest, r).Wait? ==>
      OneTurn(t, unit, st, rest, r).(r := 0) == OneTurn(t, unit, st, rest, r').(r := 0)
  {
    hide Handle, Resync, Passed, Broken;
    var at := Position(rest, unit);
    if at.Some? {
      var p := rest[at.value..at.value + unit];
      if Passed(t, p) || !Broken(p) {
        HandleResult(t, st, p, r, r');
      }
    }
  }

  /** The code a run starts with matters to nothing but its result. */
  lemma {:induction false} ResultIrrelevant<S>(t: Tables<S>, unit: nat, st: State<S>, rest: seq<byte>, r: int, r': int)
    requires unit >= PACKET
    ensures SameButResult(Run(t, unit, st, rest, r), Run(t, unit, st, rest, r'))
    decreases |rest|
  {
    hide OneTurn;
    if |rest| > unit {
      TurnResult(t, unit, st, rest, r, r');
      var m, m' := OneTurn(t, unit, st, rest, r), OneTurn(t, unit, st, rest, r');
      if m.Moved? {
        ResultIrrelevant(t, unit, m.state, rest[m.used..], m.r, m'.r);
      }
    }
  }

  /** The loop run once for every chunk, each time afresh on what was pending and the chunk. */
  function RunChunks<S>(t: Tables<S>, unit: nat, st: State<S>, pending: seq<byte>, chunks: seq<seq<byte>>): Outcome<S>
    requires unit >= PACKET
    decreases |chunks|
  {
    if |chunks| == 0 then Outcome(st, [], [], pending, Idle, [], 0)
    else
      var o := Run(t, unit, st, pending + chunks[0], 0);
      if o.status != Idle then o
      else Join(o, RunChunks(t, unit, o.state, o.rest, chunks[1..]))
  }

  function Concat(chunks: seq<seq<byte>>): seq<byte> {
    if |chunks| == 0 then [] else chunks[0] + Concat(chunks[1..])
  }

  /** Nothing can be done with these pending bytes alone. */
  ghost predicate Stuck<S>(t: Tables<S>, unit: nat, st: State<S>, pending: seq<byte>)
    requires unit >= PACKET
  {
    SameButResult(Run(t, unit, st, pending, 0), Outcome(st, [], [], pending, Idle, [], 0))
  }

  /** Any division of the input into chunks gives the run on the whole input. */
  lemma {:induction false} AnyChunks<S>(t: Tables<S>, unit: nat, st: State<S>, pending: seq<byte>,
                                        chunks: seq<seq<byte>>)
    requires unit >= PACKET && Stuck(t, unit, st, pending)
    requires RunChunks(t, unit, st, pending, chunks).status == Idle
    ensures SameButResult(RunChunks(t, unit, st, pending, chunks), Run(t, unit, st, pending + Concat(chunks), 0))
    decreases |chunks|
  {
    hide Run;
    if |chunks| == 0 {
      assert pending + [] == pending;
    } else {
      var first, later := pending + chunks[0], Concat(chunks[1..]);
      var o := Run(t, unit, st, first, 0);
      Settled(t, unit, st, first, 0);
      ResultIrrelevant(t, unit, o.state, o.rest, o.r, 0);
      assert Stuck(t, unit, o.state, o.rest);
      AnyChunks(t, unit, o.state, o.rest, chunks[1..]);
      ChunkIndependence(t, unit, st, first, later, 0);
      ResultIrrelevant(t, unit, o.state, o.rest + later, o.r, 0);
      assert first + later == pending + Concat(chunks);
    }
  }

  /** What a run leaves pending gives it nothing more to do. */
  lemma {:induction false} Settled<S>(t: Tables<S>, unit: nat, st: State<S>, rest: seq<byte>, r: int)
    requires unit >= PACKET && Run(t, unit, st, rest, r).status == Idle
    ensures var o := Run(t, unit, st, rest, r);
      Run(t, unit, o.state, o.rest, o.r) == Outcome(o.state, [], [], o.rest, Idle, [], o.r)
    decreases |rest|
  {
    hide OneTurn;
    if |rest| > unit && !OneTurn(t, unit, st, rest, r).Wait? {
      var m := OneTurn(t, unit, st, rest, r);
      Settled(t, unit, m.state, rest[m.used..], m.r);
    }
  }

  /** A turn that does not move on is the whole run. */
  lemma RunEnds<S>(t: Tables<S>, unit: nat, st: State<S>, rest: seq<byte>, r: int)
    requires |rest| > unit >= PACKET
    ensures var m, o := OneTurn(t, unit, st, rest, r), Run(t, unit, st, rest, r);
      && (m.Finished? ==> o == Outcome(m.state, m.out, m.kept, rest[m.used..], PatDone, [m.fate], m.r))
      && (m.Broke? ==> o == Outcome(m.state, [], [], m.kept + rest[m.used..], Failure, [], m.r))
  {
    hide OneTurn;
  }

  // ---- Counters ----

  /** The PIDs of the packets counted in a run. */
  function CountedPids(fates: seq<Fate>): multiset<nat> {
    if |fates| == 0 then multiset{}
    else CountOf(fates[0]) + CountedPids(fates[1..])
  }

  function Packets(fates: seq<Fate>): nat {
    if |fates| == 0 then 0 else (if fates[0].Emitted? || fates[0].Errored? then 1 else 0) + Packets(fates[1..])
  }

  function ErrorPackets(fates: seq<Fate>): nat {
    if |fates| == 0 then 0 else (if fates[0].Errored? then 1 else 0) + ErrorPackets(fates[1..])
  }

  function CountOf(fate: Fate): multiset<nat> { if fate.Emitted? then multiset{fate.pid} else multiset{} }

  lemma CountedOnce<S>(st: State<S>, pid: nat, d: Descrambled)
    ensures var st' := Counted(st, pid, d);
      st'.normal + st'.undecrypted == st.normal + st.undecrypted + multiset{pid}
  {
    var one := multiset{pid};
    assert (st.normal + one) + st.undecrypted == st.normal + st.undecrypted + one;
    assert st.normal + (st.undecrypted + one) == st.normal + st.undecrypted + one;
  }

  lemma DeliveredCounts<S>(t: Tables<S>, st: State<S>, p: seq<byte>, q: seq<byte>, r: int)
    requires |p| >= PACKET && !Broken(p) && |q| == |p| && Delivered(t, st, p, q, r).Next?
    ensures var h := Delivered(t, st, p, q, r);
      h.state.normal == st.normal && h.state.undecrypted == st.undecrypted && h.fate == Emitted(Pid(p))
  {
    hide Tables.ChannelOf, StartBit, Pid, PayloadSize, Broken;
  }

  lemma HandleCounts<S>(t: Tables<S>, st: State<S>, p: seq<byte>, r: int)
    requires |p| >= PACKET && (Passed(t, p) || !Broken(p)) && Handle(t, st, p, r).Next?
    ensures var h := Handle(t, st, p, r);
      h.state.normal + h.state.undecrypted == st.normal + st.undecrypted + CountOf(h.fate)
  {
    hide Descramble, Delivered, Counted, Broken, Tables.Cipher, ErrorBit, Pid;
    if !Passed(t, p) {
      var d := Descramble(t.Cipher(st.tables, Pid(p)), p);
      CountedOnce(st, Pid(p), d);
      DeliveredCounts(t, Counted(st, Pid(p), d), p, d.p, r);
    }
    assert st.normal + st.undecrypted + multiset{} == st.normal + st.undecrypted;
  }

  lemma TurnCounts<S>(t: Tables<S>, unit: nat, st: State<S>, rest: seq<byte>, r: int)
    requires |rest| > unit >= PACKET && OneTurn(t, unit, st, rest, r).Moved?
    ensures var m := OneTurn(t, unit, st, rest, r);
      m.state.normal + m.state.undecrypted == st.normal + st.undecrypted + CountOf(m.fate)
  {
    hide Resync, Handle, Passed, Broken;
    var q := Position(rest, unit).value;
    var p := rest[q..q + unit];
    if Passed(t, p) || !Broken(p) {
      HandleCounts(t, st, p, r);
    }
  }

  /** Without a program association section, the counters rise by exactly the packets emitted and parsed. */
  lemma {:induction false} CountersConserved<S>(t: Tables<S>, unit: nat, st: State<S>, rest: seq<byte>, r: int)
    requires unit >= PACKET && Run(t, unit, st, rest, r).status == Idle
    ensures var o := Run(t, unit, st, rest, r);
      && o.state.normal + o.state.undecrypted == st.normal + st.undecrypted + CountedPids(o.fates)
      && |CountedPids(o.fates)| == Packets(o.fates) - ErrorPackets(o.fates)
    decreases |rest|
  {
    if |rest| > unit && !OneTurn(t, unit, st, rest, r).Wait? {
      hide OneTurn;
      var m := OneTurn(t, unit, st, rest, r);
      CountersConserved(t, unit, m.state, rest[m.used..], m.r);
      TurnCounts(t, unit, st, rest, r);
      var o := Run(t, unit, m.state, rest[m.used..], m.r);
      assert ([m.fate] + o.fates)[1..] == o.fates;
    }
  }

  // ---- Failures ----

  lemma HandleCode<S>(t: Tables<S>, st: State<S>, p: seq<byte>, r: int)
    requires |p| >= PACKET && (Passed(t, p) || !Broken(p)) && r >= 0
    ensures Handle(t, st, p, r).Failed? <==> Handle(t, st, p, r).r < 0
  {
    hide Descramble, Tables.ChannelOf, Tables.Cipher, Pid, StartBit;
  }

  lemma TurnCode<S>(t: Tables<S>, unit: nat, st: State<S>, rest: seq<byte>, r: int)
    requires |rest| > unit >= PACKET && r >= 0 && !OneTurn(t, unit, st, rest, r).Wait?
    ensures OneTurn(t, unit, st, rest, r).Broke? <==> OneTurn(t, unit, st, rest, r).r < 0
  {
    hide Handle, Resync, Passed, Broken;
    var q := Position(rest, unit).value;
    var p := rest[q..q + unit];
    if Passed(t, p) || !Broken(p) {
      HandleCode(t, st, p, r);
    }
  }

  /** A run fails exactly when its result is negative. */
  lemma {:induction false} FailureCode<S>(t: Tables<S>, unit: nat, st: State<S>, rest: seq<byte>, r: int)
    requires unit >= PACKET && r >= 0
    ensures Run(t, unit, st, rest, r).status == Failure <==> Run(t, unit, st, rest, r).r < 0
    decreases |rest|
  {
    hide OneTurn;
    if |rest| > unit && !OneTurn(t, unit, st, rest, r).Wait? {
      TurnCode(t, unit, st, rest, r);
      var m := OneTurn(t, unit, st, rest, r);
      if m.Moved? {
        FailureCode(t, unit, m.state, rest[m.used..], m.r);
      }
    }
  }

  // ---- The tables' state ----

  ghost predicate KeptByPut<S(!new)>(t: Tables<S>, inv: S -> bool) {
    forall s: S, c: Channel, pid: nat, start: bool, data: seq<byte> ::
      inv(s) ==> inv(t.put(s, c, pid, start, data).0)
  }

  lemma HandleKeeps<S(!new)>(t: Tables<S>, inv: S -> bool, st: State<S>, p: seq<byte>, r: int)
    requires KeptByPut(t, inv) && inv(st.tables) && |p| >= PACKET && (Passed(t, p) || !Broken(p))
    ensures inv(Handle(t, st, p, r).state.tables)
  {
    if !Passed(t, p) {
      var d := Descramble(t.Cipher(st.tables, Pid(p)), p);
      if !d.Refused? {
        DeliveredKeeps(t, inv, Counted(st, Pid(p), d), p, d.p, r);
      }
    }
  }

  lemma DeliveredKeeps<S(!new)>(t: Tables<S>, inv: S -> bool, st: State<S>, p: seq<byte>, q: seq<byte>, r: int)
    requires KeptByPut(t, inv) && inv(st.tables) && |p| >= PACKET && !Broken(p) && |q| == |p|
    ensures inv(Delivered(t, st, p, q, r).state.tables)
  {
    var channel := t.ChannelOf(st.tables, Pid(p));
    if channel.Some? {
      var data := q[PACKET - PayloadSize(p)..PACKET];
      assert inv(t.put(st.tables, channel.value, Pid(p), StartBit(p), data).0);
    }
  }

  /** What every payload handed to the tables keeps, every run keeps, however it ends. */
  lemma {:induction false} RunKeeps<S(!new)>(t: Tables<S>, inv: S -> bool, unit: nat, st: State<S>, rest: seq<byte>,
                                             r: int)
    requires unit >= PACKET && KeptByPut(t, inv) && inv(st.tables)
    ensures inv(Run(t, unit, st, rest, r).state.tables)
    decreases |rest|
  {
    hide Handle, KeptByPut, Resync, Passed, Broken, Lead;
    if |rest| > unit && Position(rest, unit).Some? {
      var q := Position(rest, unit).value;
      var p := rest[q..q + unit];
      if Passed(t, p) || !Broken(p) {
        HandleKeeps(t, inv, st, p, r);
      }
      var m := OneTurn(t, unit, st, rest, r);
      if m.Moved? {
        RunKeeps(t, inv, unit, m.state, rest[m.used..], m.r);
      }
    }
  }

  lemma {:induction false} ChunksKeep<S(!new)>(t: Tables<S>, inv: S -> bool, unit: nat, st: State<S>,
                                               pending: seq<byte>, chunks: seq<seq<byte>>)
    requires unit >= PACKET && KeptByPut(t, inv) && inv(st.tables)
    ensures inv(RunChunks(t, unit, st, pending, chunks).state.tables)
    decreases |chunks|
  {
    hide Run, KeptByPut;
    if |chunks| > 0 {
      RunKeeps(t, inv, unit, st, pending + chunks[0], 0);
      var o := Run(t, unit, st, pending + chunks[0], 0);
      if o.status == Idle {
        ChunksKeep(t, inv, unit, o.state, o.rest, chunks[1..]);
      }
    }
  }
}
