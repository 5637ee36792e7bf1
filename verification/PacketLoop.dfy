/**
 The packet loop: it finds packets in the pending bytes, descrambles them in place, copies them to the output and
 hands sections to the tables. The tables are a parameter; what the loop itself does is concrete.
 */
module PacketLoop {
  import opened Prelude
  import opened Bytes
  import opened Multi2Keys

  const SYNC: byte := 0x47

  const PACKET := 188

  const ERROR_DECRYPT_FAILURE := -10

  // ---- Packet headers ----

  predicate ErrorBit(p: seq<byte>)
    requires |p| >= PACKET
  {
    p[1] & 0x80 != 0
  }

  predicate StartBit(p: seq<byte>)
    requires |p| >= PACKET
  {
    p[1] & 0x40 != 0
  }

  function Pid(p: seq<byte>): (n: nat)
    requires |p| >= PACKET
    ensures n < 0x2000
  {
    ((p[1] & 0x1f) as nat) * 256 + p[2] as nat
  }

  /** The transport_scrambling_control of the fourth header byte. */
  function Scrambling(b: byte): byte { b >> 6 }

  predicate HasAdaptation(p: seq<byte>)
    requires |p| >= PACKET
  {
    p[3] & 0x20 != 0
  }

  predicate HasPayload(p: seq<byte>)
    requires |p| >= PACKET
  {
    p[3] & 0x10 != 0
  }

  /** The payload's size, negative when the adaptation field does not fit. */
  function PayloadSize(p: seq<byte>): (n: int)
    requires |p| >= PACKET
    ensures n <= PACKET - 4
  {
    if HasAdaptation(p) then PACKET - 5 - p[4] as nat else PACKET - 4
  }

  /** An adaptation field that is too long, or leaves nothing of a payload that is there. */
  predicate Broken(p: seq<byte>)
    requires |p| >= PACKET
  {
    HasAdaptation(p) && PayloadSize(p) < 1 && (PayloadSize(p) < 0 || HasPayload(p))
  }

  function PayloadOf(p: seq<byte>): seq<byte>
    requires |p| >= PACKET && !Broken(p)
  {
    p[PACKET - PayloadSize(p)..PACKET]
  }

  // ---- The tables behind the loop ----

  datatype PidUse = UnknownKind | PmtKind | EcmKind | EmmKind | OtherKind | FixedKind

  datatype Channel = EcmChannel | PmtChannel | EmmChannel | CatChannel | PatChannel

  /** What handing a payload to a table comes to. */
  datatype Verdict = Quiet | Code(r: int)

  datatype Tables<!S> = Tables(
    kind: (S, nat) -> PidUse,
    bound: (S, nat) -> Option<Eager>,
    sole: S -> Option<Eager>,
    put: (S, Channel, nat, bool, seq<byte>) -> (S, Verdict),
    strip: bool,
    emmProc: bool)
  {
    /** The cipher object of a PID: its own decryptor's, or for a PID no table names the only decryptor's. */
    function Cipher(s: S, pid: nat): Option<Eager> {
      match kind(s, pid)
      case OtherKind => bound(s, pid)
      case UnknownKind => sole(s)
      case _ => None
    }

    /** Which table takes the payloads of a PID. */
    function ChannelOf(s: S, pid: nat): Option<Channel> {
      match kind(s, pid)
      case EcmKind => Some(EcmChannel)
      case PmtKind => Some(PmtChannel)
      case EmmKind => if emmProc then Some(EmmChannel) else None
      case _ => if pid == 1 then Some(CatChannel) else if pid == 0 then Some(PatChannel) else None
    }
  }

  /** The tables' state, and which PIDs were counted as normal and as undecrypted packets. */
  datatype State<S> = State(tables: S, normal: multiset<nat>, undecrypted: multiset<nat>)

  // ---- One packet ----

  datatype Descrambled = Clear(p: seq<byte>) | Left(p: seq<byte>) | Refused

  function ClearedByte(b: byte): byte { b & 0x3f }

  /** A packet with its scrambling bits cleared. */
  function Unmarked(p: seq<byte>): (r: seq<byte>)
    requires |p| >= PACKET
    ensures |r| == |p|
  {
    p[3 := ClearedByte(p[3])]
  }

  /** A packet with another payload. */
  function WithPayload(p: seq<byte>, data: seq<byte>): (r: seq<byte>)
    requires |p| >= PACKET && |data| <= PACKET - 4
    ensures |r| == |p|
  {
    Splice(p, PACKET - |data|, data)
  }

  /** What the loop makes of a packet in place. */
  function Descramble(cipher: Option<Eager>, p: seq<byte>): (d: Descrambled)
    requires |p| >= PACKET && !Broken(p)
    ensures !d.Refused? ==> |d.p| == |p|
  {
    var crypt := Scrambling(p[3]);
    if crypt == 0 then Clear(p)
    else if !HasPayload(p) then Clear(Unmarked(p))
    else if cipher.None? then Left(p)
    else
      var reply := cipher.value.Step(Decrypt(crypt as int, PayloadOf(p))).1;
      if reply.code != OK then Refused
      else Clear(Unmarked(WithPayload(p, reply.data)))
  }

  /** What became of a packet. */
  datatype Fate = Emitted(pid: nat) | Errored | Stripped | Skipped

  /** The loop goes on, ends after a program association section, or fails; `p` is the packet as left in place. */
  datatype Handled<S> =
    | Next(state: State<S>, p: seq<byte>, out: seq<byte>, fate: Fate, r: int)
    | Ended(state: State<S>, p: seq<byte>, out: seq<byte>, fate: Fate, r: int)
    | Failed(state: State<S>, p: seq<byte>, r: int)

  function Counted<S>(st: State<S>, pid: nat, d: Descrambled): State<S> {
    if d.Left? then st.(undecrypted := st.undecrypted + multiset{pid}) else st.(normal := st.normal + multiset{pid})
  }

  /** A program association section that was taken wipes the map, and the counters with it. */
  function Wiped<S>(st: State<S>, r: int): State<S> {
    if r == 0 then State(st.tables, multiset{}, multiset{}) else st
  }

  predicate Passed<S>(t: Tables<S>, p: seq<byte>)
    requires |p| >= PACKET
  {
    ErrorBit(p) || (Pid(p) == 0x1fff && t.strip)
  }

  /** The packet `p`, by now `q` in place, is emitted and its payload goes to the table that takes its PID. */
  function Delivered<S>(t: Tables<S>, st: State<S>, p: seq<byte>, q: seq<byte>, r: int): (h: Handled<S>)
    requires |p| >= PACKET && !Broken(p) && |q| == |p|
    ensures |h.p| == |p|
    ensures h.Next? || h.Ended? ==> h.out == q
  {
    var pid := Pid(p);
    var channel := t.ChannelOf(st.tables, pid);
    if channel.None? then Next(st, q, q, Emitted(pid), r)
    else
      var (tables, v) := t.put(st.tables, channel.value, pid, StartBit(p), q[PACKET - PayloadSize(p)..PACKET]);
      var st' := st.(tables := tables);
      if v.Quiet? then Next(st', q, q, Emitted(pid), r)
      else if v.r < 0 then Failed(st', q, v.r)
      else if channel.value == PatChannel then Ended(Wiped(st', v.r), q, q, Emitted(pid), v.r)
      else Next(st', q, q, Emitted(pid), v.r)
  }

  /** One packet, with the section code `r` of the packets before it. */
  function Handle<S>(t: Tables<S>, st: State<S>, p: seq<byte>, r: int): (h: Handled<S>)
    requires |p| >= PACKET && (Passed(t, p) || !Broken(p))
    ensures |h.p| == |p|
    ensures h.Next? || h.Ended? ==> |h.out| <= |p|
  {
    if ErrorBit(p) then Next(st, p, p, Errored, r)
    else if Passed(t, p) then Next(st, p, [], Stripped, r)
    else
      var d := Descramble(t.Cipher(st.tables, Pid(p)), p);
      if d.Refused? then Failed(st, p, ERROR_DECRYPT_FAILURE)
      else Delivered(t, Counted(st, Pid(p), d), p, d.p, r)
  }

  // ---- Finding packets ----

  predicate SyncAt(rest: seq<byte>, unit: nat, q: nat)
    requires q + 8 * unit <= |rest| && unit >= PACKET
  {
    forall i :: 0 <= i < 8 ==> rest[q + unit * i] == SYNC
  }

  /** `resync`: the first offset from `q` on with eight sync bytes one unit apart. */
  function Resync(rest: seq<byte>, unit: nat, q: nat): (r: Option<nat>)
    requires unit >= PACKET
    ensures r.Some? ==> q <= r.value && r.value + 8 * unit <= |rest|
    decreases |rest| - q
  {
    if q + 8 * unit > |rest| then None
    else if SyncAt(rest, unit, q) then Some(q)
    else Resync(rest, unit, q + 1)
  }

  /** It is the first such offset, and there is none when nothing is found. */
  lemma {:induction false} ResyncIs(rest: seq<byte>, unit: nat, q: nat)
    requires unit >= PACKET
    ensures var r := Resync(rest, unit, q);
      && (r.Some? ==> SyncAt(rest, unit, r.value))
      && forall k :: q <= k && k + 8 * unit <= |rest| && (r.Some? ==> k < r.value) ==> !SyncAt(rest, unit, k)
    decreases |rest| - q
  {
    hide SyncAt;
    if q + 8 * unit <= |rest| && !SyncAt(rest, unit, q) {
      ResyncIs(rest, unit, q + 1);
    }
  }

  function Position(rest: seq<byte>, unit: nat): (r: Option<nat>)
    requires |rest| > unit >= PACKET
    ensures r.Some? ==> r.value + unit <= |rest|
  {
    if rest[0] == SYNC && rest[unit] == SYNC then Some(0) else Resync(rest, unit, 0)
  }

  /** The bytes in front of a packet found by resynchronisation that belong to its unit. */
  function Lead(rest: seq<byte>, unit: nat, q: nat): (r: seq<byte>)
    requires q <= |rest| && unit >= PACKET
    ensures |r| <= q
  {
    if q > 0 && q >= unit - PACKET then rest[q - (unit - PACKET)..q] else []
  }

  // ---- One turn of the loop ----

  /** `kept` is what is left in place of the bytes worked on: those used, or in a failure all of them. */
  datatype Turn<S> =
    | Wait
    | Moved(state: State<S>, used: nat, kept: seq<byte>, out: seq<byte>, fate: Fate, r: int)
    | Finished(state: State<S>, used: nat, kept: seq<byte>, out: seq<byte>, fate: Fate, r: int)
    | Broke(state: State<S>, used: nat, kept: seq<byte>, r: int)

  function OneTurn<S>(t: Tables<S>, unit: nat, st: State<S>, rest: seq<byte>, r: int): (m: Turn<S>)
    requires |rest| > unit >= PACKET
    ensures m.Moved? || m.Finished? ==> 0 < m.used <= |rest| && |m.kept| == m.used && |m.out| <= m.used
    ensures m.Broke? ==> m.used <= |rest| && |m.kept| == m.used
  {
    var at := Position(rest, unit);
    if at.None? then Wait
    else
      var q := at.value;
      var lead := Lead(rest, unit, q);
      var p := rest[q..q + unit];
      if !Passed(t, p) && Broken(p) then Moved(st, q + 1, rest[..q + 1], lead, Skipped, r)
      else
        match Handle(t, st, p, r)
        case Next(st', p', out, fate, r') => Moved(st', q + unit, rest[..q] + p', lead + out, fate, r')
        case Ended(st', p', out, fate, r') => Finished(st', q + unit, rest[..q] + p', lead + out, fate, r')
        case Failed(st', p', code) => Broke(st', q + unit, rest[..q] + p', code)
  }

  datatype Status = Idle | PatDone | Failure

  /** A run: the output, the bytes used as left in place, the bytes pending, and the fates of the packets. */
  datatype Outcome<S> = Outcome(
    state: State<S>, out: seq<byte>, kept: seq<byte>, rest: seq<byte>, status: Status, fates: seq<Fate>, r: int)

  function Prepend<S>(m: Turn<S>, o: Outcome<S>): Outcome<S>
    requires m.Moved?
  {
    o.(out := m.out + o.out, kept := m.kept + o.kept, fates := [m.fate] + o.fates)
  }

  function Run<S>(t: Tables<S>, unit: nat, st: State<S>, rest: seq<byte>, r: int): (o: Outcome<S>)
    requires unit >= PACKET
    ensures |o.kept| + |o.rest| == |rest| && |o.out| <= |o.kept|
    decreases |rest|
  {
    if |rest| <= unit then Outcome(st, [], [], rest, Idle, [], r)
    else
      var m := OneTurn(t, unit, st, rest, r);
      match m
      case Wait => Outcome(st, [], [], rest, Idle, [], r)
      case Moved(st', used, _, _, _, r') => Prepend(m, Run(t, unit, st', rest[used..], r'))
      case Finished(st', used, kept, out, fate, r') => Outcome(st', out, kept, rest[used..], PatDone, [fate], r')
      case Broke(st', used, kept, code) => Outcome(st', [], [], kept + rest[used..], Failure, [], code)
  }
}
