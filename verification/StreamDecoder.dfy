/** The decoder around the packet loop: pending input and output queues, worked on in place, with rollback. */
module StreamDecoder {
  import opened Prelude
  import opened Bytes
  import opened Multi2Keys
  import opened Multi2Cbc
  import opened Multi2Simd
  import opened PacketLoop
  import opened PacketRuns
  import opened RunTrace
  import opened WorkBuffer

  const ERROR_NO_ENOUGH_MEMORY := -2

  /** What has been done so far in front of what a run will still do. */
  function Ahead<S>(out: seq<byte>, kept: seq<byte>, fates: seq<Fate>, o: Outcome<S>): Outcome<S> {
    o.(out := out + o.out, kept := kept + o.kept, fates := fates + o.fates)
  }

  lemma AheadMoved<S>(out: seq<byte>, kept: seq<byte>, fates: seq<Fate>, m: Turn<S>, o: Outcome<S>)
    requires m.Moved?
    ensures Ahead(out, kept, fates, Prepend(m, o)) == Ahead(out + m.out, kept + m.kept, fates + [m.fate], o)
  {
    assert out + (m.out + o.out) == (out + m.out) + o.out;
    assert kept + (m.kept + o.kept) == (kept + m.kept) + o.kept;
    assert fates + ([m.fate] + o.fates) == (fates + [m.fate]) + o.fates;
  }

  /** Eight sync bytes one unit apart. */
  predicate SyncsFrom(pool: seq<byte>, buf: nat, unit: nat)
    requires buf + unit * 8 <= |pool| && unit >= PACKET
  {
    forall k :: 0 <= k < 8 ==> pool[buf + unit * k] == SYNC
  }

  method EightSyncs(pool: array<byte>, buf: nat, unit: nat) returns (ok: bool)
    requires buf + unit * 8 <= pool.Length && unit >= PACKET
    ensures ok <==> SyncsFrom(pool[..], buf, unit)
  {
    if pool[buf] != SYNC {
      assert pool[buf + unit * 0] != SYNC;
      return false;
    }
    var i := 1;
    while i < 8 && pool[buf + unit * i] == SYNC
      invariant 1 <= i <= 8
      invariant forall k :: 0 <= k < i ==> pool[buf + unit * k] == SYNC
    {
      i := i + 1;
    }
    ok := i == 8;
  }

  lemma SameSyncs(pool: seq<byte>, head: nat, tail: nat, buf: nat, unit: nat)
    requires head <= buf && buf + unit * 8 <= tail <= |pool| && unit >= PACKET
    ensures SyncAt(pool[head..tail], unit, buf - head) <==> SyncsFrom(pool, buf, unit)
  {
    forall k | 0 <= k < 8
      ensures pool[head..tail][buf - head + unit * k] == pool[buf + unit * k]
    {
      assert unit * k <= unit * 7;
    }
  }

  /** `resync` in a buffer: the first offset with eight sync bytes one unit apart. */
  method FindSync(pool: array<byte>, head: nat, tail: nat, unit: nat) returns (found: bool, at: nat)
    requires head <= tail <= pool.Length && unit >= PACKET
    ensures found == Resync(pool[head..tail], unit, 0).Some?
    ensures found ==> at == head + Resync(pool[head..tail], unit, 0).value
    ensures found ==> head <= at && at + unit * 8 <= tail && SyncsFrom(pool[..], at, unit)
    ensures forall k :: head <= k && k + unit * 8 <= tail && (found ==> k < at) ==> !SyncsFrom(pool[..], k, unit)
  {
    hide SyncAt, SyncsFrom;
    ghost var rest := pool[head..tail];
    var buf := head;
    while buf + unit * 8 <= tail
      invariant head <= buf
      invariant Resync(rest, unit, 0) == Resync(rest, unit, buf - head)
      invariant forall k :: head <= k < buf && k + unit * 8 <= tail ==> !SyncsFrom(pool[..], k, unit)
    {
      var ok := EightSyncs(pool, buf, unit);
      SameSyncs(pool[..], head, tail, buf, unit);
      assert pool[..][head..tail] == rest;
      if ok {
        return true, buf;
      }
      buf := buf + 1;
    }
    found, at := false, head;
  }

  /** How a turn of the loop went. */
  datatype After = Starved | GoOn | Stop | Fail

  /** How a handled packet lets the loop go on. */
  function AfterHandled<S>(h: Handled<S>): After {
    match h
    case Next(_, _, _, _, _) => GoOn
    case Ended(_, _, _, _, _) => Stop
    case Failed(_, _, _) => Fail
  }

  class Decoder<S> {
    const t: Tables<S>
    const unit: nat
    const sbuf: Buffer
    const dbuf: Buffer
    var st: State<S>

    ghost predicate Valid()
      reads this, sbuf, dbuf
    {
      && unit >= PACKET && sbuf != dbuf && sbuf.Valid() && dbuf.Valid()
      && sbuf.pool != dbuf.pool && dbuf.head == 0
    }

    constructor (t: Tables<S>, unit: nat, st: State<S>)
      requires unit >= PACKET
      ensures Valid() && this.t == t && this.unit == unit && this.st == st
      ensures sbuf.Contents() == [] && dbuf.Contents() == []
      ensures fresh(sbuf) && fresh(dbuf) && fresh(sbuf.pool) && fresh(dbuf.pool)
      ensures sbuf.head == 0 && sbuf.pool.Length == 0
    {
      this.t, this.unit, this.st := t, unit, st;
      sbuf := new Buffer();
      dbuf := new Buffer();
    }

    /** Output bytes for which room was reserved. */
    method Emit(data: seq<byte>)
      requires Valid() && dbuf.tail + |data| <= dbuf.pool.Length
      modifies dbuf, dbuf.pool
      ensures Valid() && dbuf.Contents() == old(dbuf.Contents()) + data
      ensures dbuf.pool == old(dbuf.pool) && dbuf.tail == old(dbuf.tail) + |data|
    {
      var ok := dbuf.Append(data);
    }

    /** The descrambling part of the loop body; the packet at `curr` is changed in place and counted. */
    method DescrambleAt(curr: nat) returns (ok: bool)
      requires Valid() && curr + unit <= sbuf.tail && !Broken(sbuf.pool[curr..curr + unit])
      modifies this`st, sbuf.pool
      ensures var p := old(sbuf.pool[curr..curr + unit]);
        var d := Descramble(t.Cipher(old(st).tables, Pid(p)), p);
        && ok == !d.Refused?
        && sbuf.pool[..] == (if ok then Splice(old(sbuf.pool[..]), curr, d.p) else old(sbuf.pool[..]))
        && st == (if ok then Counted(old(st), Pid(p), d) else old(st))
    {
      hide Tables.Cipher, Eager.Step, ClearedByte, Splice;
      ghost var before := sbuf.pool[..];
      var p := sbuf.pool[curr..curr + unit];
      var pid := Pid(p);
      SpliceSame(before, curr, p);
      if Scrambling(p[3]) == 0 {
        st := st.(normal := st.normal + multiset{pid});
        return true;
      }
      if !HasPayload(p) {
        sbuf.pool[curr + 3] := ClearedByte(p[3]);
        SpliceByte(before, curr, p, 3, ClearedByte(p[3]));
        st := st.(normal := st.normal + multiset{pid});
        return true;
      }
      var cipher := t.Cipher(st.tables, pid);
      if cipher.None? {
        st := st.(undecrypted := st.undecrypted + multiset{pid});
        return true;
      }
      var n := PayloadSize(p);
      var reply := cipher.value.Step(Decrypt(Scrambling(p[3]) as int, PayloadOf(p))).1;
      if reply.code != OK {
        return false;
      }
      DecryptKeepsLength(cipher.value, Scrambling(p[3]) as int, PayloadOf(p));
      WriteBytes(sbuf.pool, curr + PACKET - n, reply.data);
      SpliceInner(before, curr, p, PACKET - n, reply.data);
      ghost var q := WithPayload(p, reply.data);
      assert sbuf.pool[curr + 3] == q[3];
      sbuf.pool[curr + 3] := ClearedByte(sbuf.pool[curr + 3]);
      SpliceByte(before, curr, q, 3, ClearedByte(q[3]));
      st := st.(normal := st.normal + multiset{pid});
      ok := true;
    }

    /** The loop body from the header on, for a packet that is not broken. */
    method HandlePacket(curr: nat, r0: int) returns (after: After, r: int)
      requires Valid() && curr + unit <= sbuf.tail && dbuf.tail + unit <= dbuf.pool.Length
      requires Passed(t, sbuf.pool[curr..curr + unit]) || !Broken(sbuf.pool[curr..curr + unit])
      modifies this`st, sbuf.pool, dbuf, dbuf.pool
      ensures Valid() && dbuf.pool == old(dbuf.pool) && dbuf.tail <= old(dbuf.tail) + unit
      ensures var h := Handle(t, old(st), old(sbuf.pool[curr..curr + unit]), r0);
        && sbuf.pool[..] == Splice(old(sbuf.pool[..]), curr, h.p)
        && st == h.state && r == h.r && after == AfterHandled(h)
        && (if h.Failed? then old(dbuf.Contents()) <= dbuf.Contents()
            else dbuf.Contents() == old(dbuf.Contents()) + h.out)
    {
      hide Splice, Pid, Broken, StartBit, Counted;
      var p := sbuf.pool[curr..curr + unit];
      SpliceSame(sbuf.pool[..], curr, p);
      if ErrorBit(p) {
        Emit(p);
        return GoOn, r0;
      }
      if Pid(p) == 0x1fff && t.strip {
        return GoOn, r0;
      }
      after, r := ParsePacket(curr, r0);
    }

    /** A packet that is looked into: descrambled, emitted, handed to the table that takes its PID. */
    method ParsePacket(curr: nat, r0: int) returns (after: After, r: int)
      requires Valid() && curr + unit <= sbuf.tail && dbuf.tail + unit <= dbuf.pool.Length
      requires !Passed(t, sbuf.pool[curr..curr + unit]) && !Broken(sbuf.pool[curr..curr + unit])
      modifies this`st, sbuf.pool, dbuf, dbuf.pool
      ensures Valid() && dbuf.pool == old(dbuf.pool) && dbuf.tail <= old(dbuf.tail) + unit
      ensures var h := Handle(t, old(st), old(sbuf.pool[curr..curr + unit]), r0);
        && sbuf.pool[..] == Splice(old(sbuf.pool[..]), curr, h.p)
        && st == h.state && r == h.r && after == AfterHandled(h)
        && (if h.Failed? then old(dbuf.Contents()) <= dbuf.Contents()
            else dbuf.Contents() == old(dbuf.Contents()) + h.out)
    {
      hide Tables.Cipher, Descramble, Splice, Pid, Broken, Counted, ErrorBit, Delivered;
      ghost var before := sbuf.pool[..];
      var p := sbuf.pool[curr..curr + unit];
      SpliceSame(before, curr, p);
      var ok, q := DescrambleAndEmit(curr);
      if !ok {
        return Fail, ERROR_DECRYPT_FAILURE;
      }
      after, r := Deliver(p, q, r0);
    }

    method DescrambleAndEmit(curr: nat) returns (ok: bool, q: seq<byte>)
      requires Valid() && curr + unit <= sbuf.tail && dbuf.tail + unit <= dbuf.pool.Length
      requires !Broken(sbuf.pool[curr..curr + unit])
      modifies this`st, sbuf.pool, dbuf, dbuf.pool
      ensures Valid() && dbuf.pool == old(dbuf.pool) && dbuf.tail <= old(dbuf.tail) + unit
      ensures var p := old(sbuf.pool[curr..curr + unit]);
        var d := Descramble(t.Cipher(old(st).tables, Pid(p)), p);
        && ok == !d.Refused? && (ok ==> q == d.p)
        && sbuf.pool[..] == (if ok then Splice(old(sbuf.pool[..]), curr, d.p) else old(sbuf.pool[..]))
        && st == (if ok then Counted(old(st), Pid(p), d) else old(st))
        && dbuf.Contents() == (if ok then old(dbuf.Contents()) + d.p else old(dbuf.Contents()))
    {
      hide Tables.Cipher, Descramble, Splice, Pid, Broken, Counted;
      ghost var before := sbuf.pool[..];
      ghost var d := Descramble(t.Cipher(st.tables, Pid(sbuf.pool[curr..curr + unit])), sbuf.pool[curr..curr + unit]);
      ok := DescrambleAt(curr);
      q := [];
      if ok {
        SpliceRead(before, curr, d.p);
        q := sbuf.pool[curr..curr + unit];
        assert q == sbuf.pool[..][curr..curr + unit];
        Emit(q);
      }
    }

    /** A packet's payload goes to the table that takes its PID. */
    method Deliver(p: seq<byte>, q: seq<byte>, r0: int) returns (after: After, r: int)
      requires |p| >= PACKET && !Broken(p) && |q| == |p|
      modifies this`st
      ensures var h := Delivered(t, old(st), p, q, r0);
        st == h.state && r == h.r && after == AfterHandled(h) && h.p == q
    {
      hide Tables.ChannelOf, Pid, StartBit;
      SizeBounds(p);
      var pid := Pid(p);
      var channel := t.ChannelOf(st.tables, pid);
      if channel.None? {
        return GoOn, r0;
      }
      var (tables, v) := t.put(st.tables, channel.value, pid, StartBit(p), q[PACKET - PayloadSize(p)..PACKET]);
      st := st.(tables := tables);
      if v.Quiet? {
        return GoOn, r0;
      }
      r := v.r;
      if r < 0 {
        return Fail, r;
      }
      if channel.value != PatChannel {
        return GoOn, r;
      }
      after := Stop;
      st := Wiped(st, r);
    }

    /** One turn of the loop. */
    method TakeTurn(curr: nat, r0: int) returns (after: After, next: nat, r: int)
      requires Valid() && curr + unit < sbuf.tail && dbuf.tail + (sbuf.tail - curr) <= dbuf.pool.Length
      modifies this`st, sbuf.pool, dbuf, dbuf.pool
      ensures Valid() && dbuf.pool == old(dbuf.pool)
      ensures Took(OneTurn(t, unit, old(st), old(sbuf.pool[curr..sbuf.tail]), r0), curr, old(sbuf.pool[..]),
                   sbuf.pool[..], old(dbuf.Contents()), dbuf.Contents(), old(st), st, after, next, r)
    {
      hide Handle, Position, Splice, Passed, Broken, Took, OneTurn, Lead;
      ghost var before, rest, out, st0 := sbuf.pool[..], sbuf.pool[curr..sbuf.tail], dbuf.Contents(), st;
      var found, q := Locate(curr);
      if !found {
        TookNothing(t, unit, st, rest, r0, curr, before, out);
        return Starved, curr, r0;
      }
      ghost var p := rest[q - curr..q - curr + unit];
      assert p == sbuf.pool[q..q + unit];
      if !Passed(t, sbuf.pool[q..q + unit]) && Broken(sbuf.pool[q..q + unit]) {
        TookBroken(t, unit, st, rest, r0, curr, before, out, q);
        return GoOn, q + 1, r0;
      }
      after, r := HandlePacket(q, r0);
      next := q + unit;
      TookPacket(t, unit, st0, rest, r0, curr, before, sbuf.pool[..], out, dbuf.Contents(), q);
    }

    /** The start of a turn: the next packet, and the bytes in front of it that belong to its unit. */
    method Locate(curr: nat) returns (found: bool, q: nat)
      requires Valid() && curr + unit < sbuf.tail && dbuf.tail + (sbuf.tail - curr) <= dbuf.pool.Length
      modifies dbuf, dbuf.pool
      ensures Valid() && dbuf.pool == old(dbuf.pool)
      ensures var rest := sbuf.pool[curr..sbuf.tail];
        && found == Position(rest, unit).Some?
        && (found ==>
              && q == curr + Position(rest, unit).value
              && dbuf.Contents() == old(dbuf.Contents()) + Lead(rest, unit, q - curr)
              && dbuf.tail + (sbuf.tail - q) <= dbuf.pool.Length)
        && (!found ==> dbuf.Contents() == old(dbuf.Contents()))
    {
      hide Resync;
      ghost var rest := sbuf.pool[curr..sbuf.tail];
      assert rest[0] == sbuf.pool[curr] && rest[unit] == sbuf.pool[curr + unit];
      found, q := true, curr;
      if sbuf.pool[curr] != SYNC || sbuf.pool[curr + unit] != SYNC {
        found, q := FindSync(sbuf.pool, curr, sbuf.tail, unit);
        if !found {
          return;
        }
        OutOfSync(rest, unit);
        if q - curr >= unit - PACKET {
          var lead := sbuf.pool[q - (unit - PACKET)..q];
          assert lead == Lead(rest, unit, q - curr);
          Emit(lead);
        }
      }
    }

    /** `proc_arib_std_b25` behind the reservation: the loop over the pending bytes. */
    method Loop() returns (curr: nat, after: After, r: int)
      requires Valid() && dbuf.tail + (sbuf.tail - sbuf.head) <= dbuf.pool.Length
      modifies this`st, sbuf.pool, dbuf, dbuf.pool
      ensures Valid() && sbuf.head <= curr <= sbuf.tail && dbuf.pool == old(dbuf.pool)
      ensures var o := Run(t, unit, old(st), old(sbuf.Contents()), 0);
        && st == o.state && r == o.r && (after == Fail <==> o.status == Failure)
        && sbuf.Contents() == o.kept + o.rest
        && (if o.status == Failure then old(dbuf.Contents()) <= dbuf.Contents()
            else dbuf.Contents() == old(dbuf.Contents()) + o.out && sbuf.pool[curr..sbuf.tail] == o.rest)
    {
      hide OneTurn, Splice, Run, Midway, Took, Stopped;
      ghost var input, out0 := sbuf.Contents(), dbuf.Contents();
      ghost var done := Done([], [], []);
      ghost var target := Run(t, unit, st, input, 0);
      curr, after, r := sbuf.head, GoOn, 0;
      MidwayStart(t, unit, st, sbuf.head, sbuf.tail, sbuf.pool[..], out0, 0);
      while curr + unit < sbuf.tail
        invariant Valid() && sbuf.head <= curr <= sbuf.tail && dbuf.pool == old(dbuf.pool)
        invariant Midway(t, unit, target, sbuf.head, sbuf.tail, curr, sbuf.pool[..], out0, dbuf.Contents(), st, r, done)
        invariant after == GoOn
        decreases sbuf.tail - curr
      {
        ghost var st1, pool, out1, r1 := st, sbuf.pool[..], dbuf.Contents(), r;
        ghost var m := OneTurn(t, unit, st, sbuf.pool[curr..sbuf.tail], r);
        MidwayRoom(t, unit, target, sbuf.head, sbuf.tail, curr, pool, out0, out1, st, r, done);
        var next, code;
        after, next, code := TakeTurn(curr, r);
        TookAfter(m, curr, pool, sbuf.pool[..], out1, dbuf.Contents(), st1, st, after, next, code);
        if after == Starved {
          break;
        }
        r := code;
        if after != GoOn {
          MidwayEnds(t, unit, target, sbuf.head, sbuf.tail, curr, pool, sbuf.pool[..], out0, out1, dbuf.Contents(),
                     st1, st, r1, r, done, after, next);
          if after == Stop {
            curr := next;
          }
          Concluded(target, sbuf.head, sbuf.tail, curr, sbuf.pool[..], out0, dbuf.Contents(), st, r, after);
          return;
        }
        MidwayMoved(t, unit, target, sbuf.head, sbuf.tail, curr, pool, sbuf.pool[..], out0, out1, dbuf.Contents(),
                    st1, st, r1, r, done, after, next);
        done := Done(done.out + m.out, done.kept + m.kept, done.fates + [m.fate]);
        curr := next;
      }
      MidwayStops(t, unit, target, sbuf.head, sbuf.tail, curr, sbuf.pool[..], out0, dbuf.Contents(), st, r, done);
      after := GoOn;
      Concluded(target, sbuf.head, sbuf.tail, curr, sbuf.pool[..], out0, dbuf.Contents(), st, r, after);
    }

    /**
     `proc_arib_std_b25`: room for the output is reserved once, the loop runs, and what it used is dropped. A failure
     leaves the queues as the loop had them.
     */
    method Proc() returns (r: int)
      requires Valid()
      modifies this`st, sbuf, sbuf.pool, dbuf, dbuf.pool
      ensures Valid() && sbuf.pool == old(sbuf.pool)
      ensures |old(dbuf.Contents())| + |old(sbuf.Contents())| > MAX_SIZE ==>
        r == ERROR_NO_ENOUGH_MEMORY && sbuf.Contents() == old(sbuf.Contents())
          && dbuf.Contents() == old(dbuf.Contents()) && st == old(st)
      ensures |old(dbuf.Contents())| + |old(sbuf.Contents())| <= MAX_SIZE ==>
        var o := Run(t, unit, old(st), old(sbuf.Contents()), 0);
        && r == o.r && st == o.state
        && (if o.status == Failure then sbuf.Contents() == o.kept + o.rest && old(dbuf.Contents()) <= dbuf.Contents()
            else sbuf.Contents() == o.rest && dbuf.Contents() == old(dbuf.Contents()) + o.out)
    {
      hide Run;
      var m, n := dbuf.tail - dbuf.head, sbuf.tail - sbuf.head;
      var ok := dbuf.Reserve(m + n);
      if !ok {
        return ERROR_NO_ENOUGH_MEMORY;
      }
      var curr, after;
      curr, after, r := Loop();
      if after != Fail {
        sbuf.Consume(curr);
      }
    }

    /** The new data fit: they are no longer than a buffer may be, and so are both queues with them. */
    ghost predicate Fits(data: seq<byte>)
      reads this, sbuf, dbuf
      requires Valid()
    {
      && |data| <= MAX_SIZE
      && (|data| < 1 || sbuf.tail + |data| <= if sbuf.pool.Length < MAX_SIZE then MAX_SIZE else sbuf.pool.Length)
      && (dbuf.tail - dbuf.head) + (sbuf.tail - sbuf.head) + |data| <= MAX_SIZE
    }

    /**
     `put` with the tables complete: everything pending and the new data go through the loop. When they do not fit
     nothing changes; when the loop fails the output is as before, and the pending input as the loop has left it.
     */
    method Put(data: seq<byte>) returns (r: int)
      requires Valid()
      modifies this`st, sbuf, sbuf.pool, dbuf, dbuf.pool
      ensures Valid()
      ensures !old(Fits(data)) ==>
        && r == ERROR_NO_ENOUGH_MEMORY && st == old(st)
        && sbuf.Contents() == old(sbuf.Contents()) && dbuf.Contents() == old(dbuf.Contents())
      ensures old(Fits(data)) ==>
        PutThrough(Run(t, unit, old(st), old(sbuf.Contents()) + data, 0), old(sbuf.Contents()), old(dbuf.Contents()),
                   sbuf.Contents(), dbuf.Contents(), st, r)
      ensures r < 0 ==> RolledBack(t, unit, old(st), old(sbuf.Contents()), data, sbuf.Contents())
    {
      hide Run, RolledBack, PutThrough;
      NothingChanged(t, unit, st, sbuf.Contents(), data);
      if |data| > MAX_SIZE {
        return ERROR_NO_ENOUGH_MEMORY;
      }
      var slen, dlen := sbuf.tail - sbuf.head, dbuf.tail - dbuf.head;
      var ok := sbuf.Append(data);
      if !ok {
        return ERROR_NO_ENOUGH_MEMORY;
      }
      r := ProcOrRollback(old(sbuf.Contents()), old(dbuf.Contents()), data, slen, dlen);
    }

    /** The packet loop, and on a failure the queues cut back to their old lengths. */
    method ProcOrRollback(ghost pending: seq<byte>, ghost out: seq<byte>, ghost data: seq<byte>, slen: nat, dlen: nat)
      returns (r: int)
      requires Valid() && sbuf.Contents() == pending + data && dbuf.Contents() == out && slen == |pending|
        && dlen == |out|
      modifies this`st, sbuf, sbuf.pool, dbuf, dbuf.pool
      ensures Valid()
      ensures |out| + |pending| + |data| > MAX_SIZE ==>
        r == ERROR_NO_ENOUGH_MEMORY && st == old(st) && sbuf.Contents() == pending && dbuf.Contents() == out
      ensures |out| + |pending| + |data| <= MAX_SIZE ==>
        PutThrough(Run(t, unit, old(st), pending + data, 0), pending, out, sbuf.Contents(), dbuf.Contents(), st, r)
      ensures r < 0 ==> RolledBack(t, unit, old(st), pending, data, sbuf.Contents())
    {
      hide Run, RolledBack;
      ghost var o, st0 := Run(t, unit, st, pending + data, 0), st;
      FailureCode(t, unit, st, pending + data, 0);
      NothingChanged(t, unit, st, pending, data);
      r := Proc();
      if r < 0 {
        assert (pending + data)[..|pending|] == pending;
        CutBack(t, unit, st0, pending, data);
        sbuf.Truncate(slen);
        dbuf.Truncate(dlen);
      }
    }

    /** `get`: hands out the output. */
    method Get() returns (data: seq<byte>)
      requires Valid()
      modifies dbuf
      ensures Valid() && data == old(dbuf.Contents()) && dbuf.Contents() == []
        && sbuf.Contents() == old(sbuf.Contents())
    {
      data := dbuf.pool[dbuf.head..dbuf.tail];
      dbuf.Reset();
    }

    /** `withdraw`: hands out the pending input. */
    method Withdraw() returns (data: seq<byte>)
      requires Valid()
      modifies sbuf
      ensures Valid() && data == old(sbuf.Contents()) && sbuf.Contents() == []
        && dbuf.Contents() == old(dbuf.Contents())
    {
      data := sbuf.pool[sbuf.head..sbuf.tail];
      sbuf.Reset();
    }
  }

  /**
   What comes of a call whose data fit: a negative code exactly when the run fails. Then the output is as before and the
   pending input what the run has left of it; else both are the run's.
   */
  ghost predicate PutThrough<S>(o: Outcome<S>, pending: seq<byte>, out: seq<byte>, pending': seq<byte>, out': seq<byte>,
                                st: State<S>, r: int)
  {
    && st == o.state && r == o.r && (r < 0 <==> o.status == Failure)
    && (if o.status == Failure
          then |pending| <= |o.kept + o.rest| && pending' == (o.kept + o.rest)[..|pending|] && out' == out
          else pending' == o.rest && out' == out + o.out)
  }

  /**
   The pending input has its old length, and differs from the old only in packets that the run over it and the new data
   has come to and descrambled.
   */
  ghost predicate RolledBack<S>(t: Tables<S>, unit: nat, st: State<S>, pending: seq<byte>, data: seq<byte>,
                                now: seq<byte>)
  {
    && unit >= PACKET && |now| == |pending|
    && forall i :: 0 <= i < |pending| && now[i] != pending[i] ==>
         InOpened(t, Visits(t, unit, st, pending + data, 0), i)
  }

  lemma NothingChanged<S>(t: Tables<S>, unit: nat, st: State<S>, pending: seq<byte>, data: seq<byte>)
    requires unit >= PACKET
    ensures RolledBack(t, unit, st, pending, data, pending)
  {
    hide InOpened, Visits;
  }

  lemma CutBack<S>(t: Tables<S>, unit: nat, st: State<S>, pending: seq<byte>, data: seq<byte>)
    requires unit >= PACKET
    ensures var now := Run(t, unit, st, pending + data, 0).kept + Run(t, unit, st, pending + data, 0).rest;
      |now| == |pending + data| && RolledBack(t, unit, st, pending, data, now[..|pending|])
  {
    RunInPlace(t, unit, st, pending + data, 0);
    hide InOpened, Visits, Run, VisitOk, InTurn;
    var o := Run(t, unit, st, pending + data, 0);
    var now := o.kept + o.rest;
    forall i | 0 <= i < |pending| && now[..|pending|][i] != pending[i]
      ensures InOpened(t, Visits(t, unit, st, pending + data, 0), i)
    {
      assert (pending + data)[i] == pending[i];
    }
  }

  /** Output, bytes left in place, and fates up to some point of a run. */
  datatype Done = Done(out: seq<byte>, kept: seq<byte>, fates: seq<Fate>)

  /** The loop has come to `curr`: what it has done so far, with what a run does from here, is the whole run. */
  ghost predicate Midway<S>(t: Tables<S>, unit: nat, target: Outcome<S>, head: nat, tail: nat, curr: nat,
                            pool: seq<byte>, out0: seq<byte>, out: seq<byte>, st: State<S>, r: int, done: Done)
  {
    && unit >= PACKET && head <= curr <= tail <= |pool|
    && pool[head..curr] == done.kept && |done.out| <= |done.kept| && out == out0 + done.out
    && target == Ahead(done.out, done.kept, done.fates, Run(t, unit, st, pool[curr..tail], r))
  }

  lemma MidwayStart<S>(t: Tables<S>, unit: nat, st: State<S>, head: nat, tail: nat, pool: seq<byte>, out0: seq<byte>,
                       r: int)
    requires unit >= PACKET && head <= tail <= |pool|
    ensures Midway(t, unit, Run(t, unit, st, pool[head..tail], r), head, tail, head, pool, out0, out0, st, r,
      Done([], [], []))
  {
    hide Run;
    AheadNothing(Run(t, unit, st, pool[head..tail], r));
  }

  /** There is room for everything the rest can still give. */
  lemma MidwayRoom<S>(t: Tables<S>, unit: nat, target: Outcome<S>, head: nat, tail: nat, curr: nat, pool: seq<byte>,
                      out0: seq<byte>, out: seq<byte>, st: State<S>, r: int, done: Done)
    requires Midway(t, unit, target, head, tail, curr, pool, out0, out, st, r, done)
    ensures |out| - |out0| <= curr - head
  {
  }

  /** The end of a run, however it ends. */
  ghost predicate Stopped<S>(target: Outcome<S>, head: nat, tail: nat, curr: nat, pool: seq<byte>, out0: seq<byte>,
                             out: seq<byte>, st: State<S>, r: int, after: After)
  {
    && head <= curr <= tail <= |pool|
    && st == target.state && r == target.r && (after == Fail <==> target.status == Failure)
    && pool[head..tail] == target.kept + target.rest
    && (if target.status == Failure then out0 <= out else out == out0 + target.out && pool[curr..tail] == target.rest)
  }

  /** The parts of a buffer around bytes written at `curr`. */
  lemma SplicedParts(pool: seq<byte>, head: nat, curr: nat, tail: nat, kept: seq<byte>)
    requires head <= curr && curr + |kept| <= tail <= |pool|
    ensures Splice(pool, curr, kept)[head..curr + |kept|] == pool[head..curr] + kept
    ensures Splice(pool, curr, kept)[curr + |kept|..tail] == pool[curr..tail][|kept|..]
  {
  }

  lemma MidwayMoved<S>(t: Tables<S>, unit: nat, target: Outcome<S>, head: nat, tail: nat, curr: nat, pool: seq<byte>,
                       pool': seq<byte>, out0: seq<byte>, out: seq<byte>, out': seq<byte>, st: State<S>, st': State<S>,
                       r: int, r': int, done: Done, after: After, next: nat)
    requires Midway(t, unit, target, head, tail, curr, pool, out0, out, st, r, done) && tail - curr > unit
    requires var m := OneTurn(t, unit, st, pool[curr..tail], r);
      m.Moved? && Took(m, curr, pool, pool', out, out', st, st', after, next, r')
    ensures var m := OneTurn(t, unit, st, pool[curr..tail], r);
      Midway(t, unit, target, head, tail, next, pool', out0, out', st', r',
             Done(done.out + m.out, done.kept + m.kept, done.fates + [m.fate]))
  {
    hide OneTurn, Splice;
    var rest := pool[curr..tail];
    var m := OneTurn(t, unit, st, rest, r);
    SplicedParts(pool, head, curr, tail, m.kept);
    assert (out0 + done.out) + m.out == out0 + (done.out + m.out);
    AheadMoved(done.out, done.kept, done.fates, m, Run(t, unit, st', rest[m.used..], r'));
  }

  lemma MidwayStops<S>(t: Tables<S>, unit: nat, target: Outcome<S>, head: nat, tail: nat, curr: nat, pool: seq<byte>,
                       out0: seq<byte>, out: seq<byte>, st: State<S>, r: int, done: Done)
    requires Midway(t, unit, target, head, tail, curr, pool, out0, out, st, r, done)
    requires tail - curr <= unit || OneTurn(t, unit, st, pool[curr..tail], r).Wait?
    ensures Stopped(target, head, tail, curr, pool, out0, out, st, r, GoOn)
  {
    hide OneTurn;
    assert done.out + [] == done.out && done.kept + [] == done.kept;
    assert pool[head..tail] == pool[head..curr] + pool[curr..tail];
  }

  lemma MidwayEnds<S>(t: Tables<S>, unit: nat, target: Outcome<S>, head: nat, tail: nat, curr: nat, pool: seq<byte>,
                      pool': seq<byte>, out0: seq<byte>, out: seq<byte>, out': seq<byte>, st: State<S>, st': State<S>,
                      r: int, r': int, done: Done, after: After, next: nat)
    requires Midway(t, unit, target, head, tail, curr, pool, out0, out, st, r, done) && tail - curr > unit
    requires var m := OneTurn(t, unit, st, pool[curr..tail], r);
      (m.Finished? || m.Broke?) && Took(m, curr, pool, pool', out, out', st, st', after, next, r')
    ensures Stopped(target, head, tail, if after == Stop then next else curr, pool', out0, out', st', r', after)
  {
    hide OneTurn, Splice, Run, Stopped;
    var rest := pool[curr..tail];
    var m := OneTurn(t, unit, st, rest, r);
    RunEnds(t, unit, st, rest, r);
    EndsWith(m, target, head, tail, curr, pool, pool', done, Run(t, unit, st, rest, r));
    Stops(m, target, head, tail, curr, pool, pool', out0, out, out', st, st', r', done, after, next);
  }

  /** The buffer at the end of a run is what it used, as left in place, and what it left. */
  lemma EndsWith<S>(m: Turn<S>, target: Outcome<S>, head: nat, tail: nat, curr: nat, pool: seq<byte>,
                    pool': seq<byte>, done: Done, o: Outcome<S>)
    requires head <= curr < tail <= |pool| && pool[head..curr] == done.kept
    requires (m.Finished? || m.Broke?) && m.used == |m.kept| && curr + m.used <= tail
    requires pool' == Splice(pool, curr, m.kept) && target == Ahead(done.out, done.kept, done.fates, o)
    requires o.kept + o.rest == m.kept + pool[curr..tail][m.used..]
    ensures |pool'| == |pool| && pool'[head..tail] == target.kept + target.rest
    ensures pool'[curr + m.used..tail] == pool[curr..tail][m.used..]
  {
    hide Splice;
    SplicedParts(pool, head, curr, tail, m.kept);
    assert pool'[head..tail] == pool'[head..curr + m.used] + pool'[curr + m.used..tail];
    assert done.kept + (m.kept + pool[curr..tail][m.used..]) == (done.kept + m.kept) + pool[curr..tail][m.used..];
    assert done.kept + (o.kept + o.rest) == (done.kept + o.kept) + o.rest;
  }

  lemma Stops<S>(m: Turn<S>, target: Outcome<S>, head: nat, tail: nat, curr: nat, pool: seq<byte>, pool': seq<byte>,
                 out0: seq<byte>, out: seq<byte>, out': seq<byte>, st: State<S>, st': State<S>, r: int, done: Done,
                 after: After, next: nat)
    requires head <= curr < tail <= |pool| && (m.Finished? || m.Broke?) && curr + m.used <= tail
    requires Took(m, curr, pool, pool', out, out', st, st', after, next, r) && out == out0 + done.out
    requires |pool'| == |pool| && pool'[head..tail] == target.kept + target.rest
    requires pool'[curr + m.used..tail] == pool[curr..tail][m.used..]
    requires var rest := pool[curr..tail];
      && (m.Finished? ==> target == Ahead(done.out, done.kept, done.fates,
                                          Outcome(m.state, m.out, m.kept, rest[m.used..], PatDone, [m.fate], m.r)))
      && (m.Broke? ==> target == Ahead(done.out, done.kept, done.fates,
                                       Outcome(m.state, [], [], m.kept + rest[m.used..], Failure, [], m.r)))
    ensures Stopped(target, head, tail, if after == Stop then next else curr, pool', out0, out', st', r, after)
  {
    hide Splice;
    if m.Finished? {
      assert (out0 + done.out) + m.out == out0 + (done.out + m.out);
    }
  }

  lemma TookAfter<S>(m: Turn<S>, curr: nat, pool: seq<byte>, pool': seq<byte>, out: seq<byte>, out': seq<byte>,
                     st: State<S>, st': State<S>, after: After, next: nat, r: int)
    requires Took(m, curr, pool, pool', out, out', st, st', after, next, r)
    ensures match after
      case Starved => m.Wait? && pool' == pool && out' == out && st' == st
      case GoOn => m.Moved? && next == curr + m.used
      case Stop => m.Finished? && next == curr + m.used
      case Fail => m.Broke?
  {
  }

  lemma Concluded<S>(target: Outcome<S>, head: nat, tail: nat, curr: nat, pool: seq<byte>, out0: seq<byte>,
                     out: seq<byte>, st: State<S>, r: int, after: After)
    requires Stopped(target, head, tail, curr, pool, out0, out, st, r, after)
    ensures head <= curr <= tail <= |pool|
    ensures st == target.state && r == target.r && (after == Fail <==> target.status == Failure)
    ensures pool[head..tail] == target.kept + target.rest
    ensures if target.status == Failure then out0 <= out
            else out == out0 + target.out && pool[curr..tail] == target.rest
  {
  }

  lemma AheadNothing<S>(o: Outcome<S>)
    ensures Ahead([], [], [], o) == o
  {
    assert [] + o.out == o.out && [] + o.kept == o.kept && [] + o.fates == o.fates;
  }

  /** When the first packet is out of sync, resynchronisation moves on. */
  lemma OutOfSync(rest: seq<byte>, unit: nat)
    requires |rest| > unit >= PACKET && (rest[0] != SYNC || rest[unit] != SYNC) && Resync(rest, unit, 0).Some?
    ensures Resync(rest, unit, 0).value > 0
  {
    if 8 * unit <= |rest| && SyncAt(rest, unit, 0) {
      FirstTwo(rest, unit);
    }
  }

  lemma FirstTwo(rest: seq<byte>, unit: nat)
    requires 8 * unit <= |rest| && unit >= PACKET && SyncAt(rest, unit, 0)
    ensures rest[0] == SYNC && rest[unit] == SYNC
  {
    assert rest[0 + unit * 0] == SYNC && rest[0 + unit * 1] == SYNC;
  }

  /** What a turn has done to the buffers and the state, given what it should do. */
  ghost predicate Took<S>(m: Turn<S>, curr: nat, pool: seq<byte>, pool': seq<byte>, out: seq<byte>, out': seq<byte>,
                          st: State<S>, st': State<S>, after: After, next: nat, r: int)
  {
    match m
    case Wait => after == Starved && pool' == pool && out' == out && st' == st
    case Moved(state, used, kept, more, _, r') =>
      && after == GoOn && next == curr + used && r == r' && st' == state && out' == out + more
      && curr + |kept| <= |pool| && pool' == Splice(pool, curr, kept)
    case Finished(state, used, kept, more, _, r') =>
      && after == Stop && next == curr + used && r == r' && st' == state && out' == out + more
      && curr + |kept| <= |pool| && pool' == Splice(pool, curr, kept)
    case Broke(state, used, kept, r') =>
      && after == Fail && r == r' && st' == state && out <= out'
      && curr + |kept| <= |pool| && pool' == Splice(pool, curr, kept)
  }

  lemma TookNothing<S>(t: Tables<S>, unit: nat, st: State<S>, rest: seq<byte>, r: int, curr: nat, pool: seq<byte>,
                       out: seq<byte>)
    requires |rest| > unit >= PACKET && Position(rest, unit).None?
    ensures Took(OneTurn(t, unit, st, rest, r), curr, pool, pool, out, out, st, st, Starved, curr, r)
  {
  }

  lemma TookBroken<S>(t: Tables<S>, unit: nat, st: State<S>, rest: seq<byte>, r: int, curr: nat, pool: seq<byte>,
                      out: seq<byte>, q: nat)
    requires |rest| > unit >= PACKET && q >= curr && Position(rest, unit) == Some(q - curr)
    requires curr + |rest| <= |pool| && rest == pool[curr..curr + |rest|]
    requires var p := rest[q - curr..q - curr + unit]; !Passed(t, p) && Broken(p)
    ensures Took(OneTurn(t, unit, st, rest, r), curr, pool, pool, out, out + Lead(rest, unit, q - curr), st, st, GoOn,
      q + 1, r)
  {
    hide Position, Passed, Broken, Splice, Lead;
    SpliceSame(pool, curr, rest[..q - curr + 1]);
  }

  lemma TookPacket<S>(t: Tables<S>, unit: nat, st: State<S>, rest: seq<byte>, r: int, curr: nat, pool: seq<byte>,
                      pool': seq<byte>, out: seq<byte>, out': seq<byte>, q: nat)
    requires |rest| > unit >= PACKET && q >= curr && Position(rest, unit) == Some(q - curr)
    requires curr + |rest| <= |pool| && rest == pool[curr..curr + |rest|]
    requires var p := rest[q - curr..q - curr + unit]; Passed(t, p) || !Broken(p)
    requires var h := Handle(t, st, rest[q - curr..q - curr + unit], r);
      var lead := Lead(rest, unit, q - curr);
      pool' == Splice(pool, q, h.p) && (if h.Failed? then out + lead <= out' else out' == (out + lead) + h.out)
    ensures var h := Handle(t, st, rest[q - curr..q - curr + unit], r);
      Took(OneTurn(t, unit, st, rest, r), curr, pool, pool', out, out', st, h.state, AfterHandled(h), q + unit, h.r)
  {
    hide Position, Passed, Broken, Splice, Lead, Handle;
    var h := Handle(t, st, rest[q - curr..q - curr + unit], r);
    var lead := Lead(rest, unit, q - curr);
    SpliceAfter(pool, curr, rest[..q - curr], h.p);
    if !h.Failed? {
      assert (out + lead) + h.out == out + (lead + h.out);
    }
  }

  lemma SpliceAfter(s: seq<byte>, at: nat, front: seq<byte>, p: seq<byte>)
    requires at + |front| + |p| <= |s| && front == s[at..at + |front|]
    ensures Splice(s, at, front + p) == Splice(s, at + |front|, p)
  {
  }

  /**
   The loop looks at a packet with one byte behind its unit in the buffer. That is room enough for the SSE routines,
   which need eight bytes behind a payload of 184, exactly when there is an adaptation field or the pool goes on.
   */
  lemma SseRoomInLoop(length: nat, tail: nat, curr: nat, unit: nat, p: seq<byte>)
    requires |p| == unit >= PACKET && curr + unit < tail <= length && !Broken(p) && HasPayload(p)
    ensures SseRoom(length, curr + PACKET - PayloadSize(p), PayloadSize(p))
      <==> HasAdaptation(p) || curr + 196 <= length
  {
  }

  /**
   A new decoder that has taken in its first 4096 bytes, packets from 145 on: the buffer is full, and the twenty-first
   packet, which the loop looks at, has three bytes behind it.
   */
  method SseRoomLacking<S>(t: Tables<S>, st: State<S>, data: seq<byte>) returns (d: Decoder<S>)
    requires |data| == 4096
    requires var p := data[3905..3905 + PACKET]; !HasAdaptation(p) && HasPayload(p)
    ensures d.Valid() && d.t == t && d.unit == PACKET && d.st == st
    ensures d.sbuf.head == 0 && d.sbuf.Contents() == data && d.sbuf.pool.Length == 4096
    ensures 3905 == 145 + 20 * PACKET && 3905 + d.unit < d.sbuf.tail
    ensures var p := d.sbuf.pool[3905..3905 + PACKET];
      !Broken(p) && !SseRoom(d.sbuf.pool.Length, 3905 + PACKET - PayloadSize(p), PayloadSize(p))
  {
    d := new Decoder(t, PACKET, st);
    assert Doubled(512, 4096) == Doubled(1024, 4096) == Doubled(2048, 4096) == Doubled(4096, 4096) == 4096;
    var ok := d.sbuf.Append(data);
    assert d.sbuf.pool[3905..3905 + PACKET] == d.sbuf.Contents()[3905..3905 + PACKET];
  }

  lemma SizeBounds(p: seq<byte>)
    requires |p| >= PACKET && !Broken(p)
    ensures 0 <= PayloadSize(p) <= PACKET - 4
  {
  }

  lemma SpliceRead(s: seq<byte>, at: nat, p: seq<byte>)
    requires at + |p| <= |s|
    ensures Splice(s, at, p)[at..at + |p|] == p
  {
  }

  lemma SpliceSame(s: seq<byte>, at: nat, p: seq<byte>)
    requires at + |p| <= |s| && p == s[at..at + |p|]
    ensures Splice(s, at, p) == s
  {
  }

  lemma SpliceByte(s: seq<byte>, at: nat, p: seq<byte>, i: nat, b: byte)
    requires at + |p| <= |s| && i < |p|
    ensures Splice(s, at, p)[at + i := b] == Splice(s, at, p[i := b])
  {
    hide Splice;
  }

  lemma SpliceInner(s: seq<byte>, at: nat, p: seq<byte>, off: nat, data: seq<byte>)
    requires at + |p| <= |s| && off + |data| <= |p| && p == s[at..at + |p|]
    ensures Splice(s, at + off, data) == Splice(s, at, Splice(p, off, data))
  {
    hide Splice;
  }
}
