/**
 Transport packets told from their header fields (ISO/IEC 13818-1, section 2.4.3.2): what the loop reads from a packet
 that is built from given fields, which table takes its payload, and which counter it raises.
 */
module PacketHeaders {
  import opened Prelude
  import opened Bytes
  import opened Multi2Keys
  import opened PacketLoop

  // ---- Packets with given header fields ----

  /** The fields of the four header bytes; the PID's upper five bits are `high`, its lower eight `low`. */
  datatype Fields = Fields(
    error: bool, start: bool, priority: bool, high: byte, low: byte,
    scrambling: byte, adaptation: bool, payload: bool, counter: byte)
  {
    predicate Fit() { high < 0x20 && scrambling < 4 && counter < 16 }

    function Number(): nat { high as nat * 256 + low as nat }

    function Second(): byte { Flag(error, 0x80) | Flag(start, 0x40) | Flag(priority, 0x20) | high }

    function Fourth(): byte { (scrambling << 6) | Flag(adaptation, 0x20) | Flag(payload, 0x10) | counter }
  }

  function Flag(b: bool, mask: byte): byte { if b then mask else 0 }

  predicate HasHeader(p: seq<byte>, f: Fields) {
    |p| >= 188 && f.Fit() && p[0] == 0x47 && p[1] == f.Second() && p[2] == f.low && p[3] == f.Fourth()
  }

  lemma FirstFlags(error: bool, start: bool, priority: bool, high: byte)
    requires high < 0x20
    ensures var b := Flag(error, 0x80) | Flag(start, 0x40) | Flag(priority, 0x20) | high;
      (b & 0x80 != 0) == error && (b & 0x40 != 0) == start && b & 0x1f == high
  {
  }

  lemma LastFlags(scrambling: byte, adaptation: bool, payload: bool, counter: byte)
    requires scrambling < 4 && counter < 16
    ensures var b := (scrambling << 6) | Flag(adaptation, 0x20) | Flag(payload, 0x10) | counter;
      b >> 6 == scrambling && (b & 0x20 != 0) == adaptation && (b & 0x10 != 0) == payload
  {
  }

  lemma SplitFirst(b: byte)
    ensures b == Flag(b & 0x80 != 0, 0x80) | Flag(b & 0x40 != 0, 0x40) | Flag(b & 0x20 != 0, 0x20) | (b & 0x1f)
    ensures b & 0x1f < 0x20
  {
  }

  lemma SplitLast(b: byte)
    ensures b == ((b >> 6) << 6) | Flag(b & 0x20 != 0, 0x20) | Flag(b & 0x10 != 0, 0x10) | (b & 0x0f)
    ensures b >> 6 < 4 && b & 0x0f < 16
  {
  }

  /** Every packet that begins with a sync byte has header fields. */
  lemma EveryPacketHas(p: seq<byte>) returns (f: Fields)
    requires |p| >= 188 && p[0] == 0x47
    ensures HasHeader(p, f)
  {
    hide Flag;
    f := Fields(p[1] & 0x80 != 0, p[1] & 0x40 != 0, p[1] & 0x20 != 0, p[1] & 0x1f, p[2],
                p[3] >> 6, p[3] & 0x20 != 0, p[3] & 0x10 != 0, p[3] & 0x0f);
    SplitFirst(p[1]);
    SplitLast(p[3]);
  }

  /** The loop reads the fields back. */
  lemma HeaderRead(p: seq<byte>, f: Fields)
    requires HasHeader(p, f)
    ensures |p| >= 188
    ensures ErrorBit(p) == f.error && StartBit(p) == f.start && Pid(p) == f.Number()
    ensures Scrambling(p[3]) == f.scrambling && HasAdaptation(p) == f.adaptation && HasPayload(p) == f.payload
  {
    hide Flag;
    FirstFlags(f.error, f.start, f.priority, f.high);
    LastFlags(f.scrambling, f.adaptation, f.payload, f.counter);
  }

  /** The adaptation field is longer than the packet, or leaves no byte of a payload the header says there is. */
  predicate Overlong(p: seq<byte>, f: Fields)
    requires |p| >= 188
  {
    f.adaptation && (p[4] > 183 || (p[4] == 183 && f.payload))
  }

  function PayloadStart(p: seq<byte>, f: Fields): (n: nat)
    requires |p| >= 188
  {
    if f.adaptation then 5 + p[4] as nat else 4
  }

  /** What the loop takes for the payload are the bytes behind the header and the adaptation field, up to byte 188. */
  lemma PayloadRead(p: seq<byte>, f: Fields)
    requires HasHeader(p, f)
    ensures Broken(p) == Overlong(p, f)
    ensures !Broken(p) ==> PayloadStart(p, f) <= 188 && PayloadOf(p) == p[PayloadStart(p, f)..188]
    ensures PayloadSize(p) == 188 - PayloadStart(p, f)
  {
    hide HasHeader;
    HeaderRead(p, f);
    hide HasPayload, HasAdaptation;
    assert p[4] > 183 <==> p[4] as nat > 183;
    assert p[4] == 183 <==> p[4] as nat == 183;
  }

  // ---- Packets that go no further ----

  /** A packet with the error bit is emitted as it came and counted nowhere. */
  lemma ErrorPacket<S>(t: Tables<S>, st: State<S>, p: seq<byte>, f: Fields, r: int)
    requires HasHeader(p, f) && f.error
    ensures Passed(t, p) && Handle(t, st, p, r) == Next(st, p, p, Errored, r)
  {
    hide HasHeader;
    HeaderRead(p, f);
  }

  /** A null packet is taken out of the stream exactly when the decoder is told to. */
  lemma NullPacket<S>(t: Tables<S>, st: State<S>, p: seq<byte>, f: Fields, r: int)
    requires HasHeader(p, f) && !f.error && f.high == 0x1f && f.low == 0xff && (t.strip || !Overlong(p, f))
    ensures Passed(t, p) || !Broken(p)
    ensures Handle(t, st, p, r) == Next(st, p, [], Stripped, r) <==> t.strip
  {
    hide HasHeader, Descramble, Delivered, Tables.Cipher;
    HeaderRead(p, f);
    PayloadRead(p, f);
    if !t.strip {
      NotStripped(t, st, p, r);
    }
  }

  lemma NotStripped<S>(t: Tables<S>, st: State<S>, p: seq<byte>, r: int)
    requires |p| >= 188 && !Passed(t, p) && !Broken(p)
    ensures var h := Handle(t, st, p, r); (h.Next? || h.Ended?) ==> h.fate.Emitted?
  {
    hide Descramble, Tables.Cipher, Tables.ChannelOf, Broken, Pid;
  }

  // ---- Which counter a packet raises ----

  /** The cipher object there is for a PID: that of a stream's own decryptor, or the only one for a PID not in use. */
  function CipherFor<S>(t: Tables<S>, s: S, pid: nat): Option<Eager> {
    match t.kind(s, pid)
    case OtherKind => t.bound(s, pid)
    case UnknownKind => t.sole(s)
    case PmtKind => None
    case EcmKind => None
    case EmmKind => None
    case FixedKind => None
  }

  /** The counters after a packet: it stays scrambled for want of a cipher object, or it is a normal one. */
  function Risen<S>(t: Tables<S>, st: State<S>, f: Fields): State<S> {
    if f.scrambling != 0 && f.payload && CipherFor(t, st.tables, f.Number()).None? then
      State(st.tables, st.normal, st.undecrypted + multiset{f.Number()})
    else State(st.tables, st.normal + multiset{f.Number()}, st.undecrypted)
  }

  /** The cipher object there is refuses the payload. */
  predicate KeysMissing<S>(t: Tables<S>, s: S, f: Fields, n: int) {
    && f.scrambling != 0 && f.payload
    && CipherFor(t, s, f.Number()).Some? && CipherFor(t, s, f.Number()).value.Status(n) != 0
  }

  /** Then the run fails with the decryption code, nothing is counted and the packet stays as it is. */
  lemma MissingKeysFail<S>(t: Tables<S>, st: State<S>, p: seq<byte>, f: Fields, r: int)
    requires HasHeader(p, f) && !f.error && !(f.Number() == 0x1fff && t.strip) && !Overlong(p, f)
    requires KeysMissing(t, st.tables, f, 188 - PayloadStart(p, f))
    ensures !Passed(t, p) && !Broken(p) && Handle(t, st, p, r) == Failed(st, p, -10)
  {
    hide HasHeader, Delivered, Eager.Status, Crypt, CipherFor, Tables.Cipher;
    CipherIs(t, st.tables, f.Number());
    HeaderRead(p, f);
    PayloadRead(p, f);
    hide Broken, Overlong, PayloadStart, PayloadOf, Scrambling, HasPayload, Pid;
  }

  lemma CipherIs<S>(t: Tables<S>, s: S, pid: nat)
    ensures t.Cipher(s, pid) == CipherFor(t, s, pid)
  {
  }

  lemma DescrambleGoesOn<S>(t: Tables<S>, st: State<S>, p: seq<byte>, f: Fields)
    requires HasHeader(p, f) && !Overlong(p, f) && !KeysMissing(t, st.tables, f, 188 - PayloadStart(p, f))
    ensures !Broken(p)
    ensures var d := Descramble(t.Cipher(st.tables, f.Number()), p);
      !d.Refused? && Counted(st, f.Number(), d) == Risen(t, st, f)
    ensures Risen(t, st, f).tables == st.tables
  {
    hide HasHeader, Eager.Status, Crypt;
    HeaderRead(p, f);
    PayloadRead(p, f);
    CipherIs(t, st.tables, f.Number());
    hide Broken, Overlong, PayloadStart, PayloadOf, Scrambling, HasPayload, Pid, WithPayload, Unmarked, CipherFor;
  }

  // ---- Which table takes a payload ----

  /** The packet, by now `q`, is emitted, and nothing else happens. */
  ghost predicate OnlyEmitted<S>(st: State<S>, f: Fields, q: seq<byte>, r: int, h: Handled<S>) {
    h == Next(st, q, q, Emitted(f.Number()), r)
  }

  /** A table takes the payload as it is after descrambling; a negative code ends the run, any other is kept. */
  ghost predicate TakenBy<S>(t: Tables<S>, st: State<S>, c: Channel, p: seq<byte>, f: Fields, r: int, h: Handled<S>)
    requires |p| >= 188 && !Overlong(p, f) && |h.p| == |p|
  {
    var (tables, v) := t.put(st.tables, c, f.Number(), f.start, h.p[PayloadStart(p, f)..188]);
    var st' := st.(tables := tables);
    match v
    case Quiet => h == Next(st', h.p, h.p, Emitted(f.Number()), r)
    case Code(code) => h == if code < 0 then Failed(st', h.p, code) else Next(st', h.p, h.p, Emitted(f.Number()), code)
  }

  /** So does the PAT, but a section taken there ends the run, and one taken without a warning wipes the counters. */
  ghost predicate TakenLast<S>(t: Tables<S>, st: State<S>, p: seq<byte>, f: Fields, r: int, h: Handled<S>)
    requires |p| >= 188 && !Overlong(p, f) && |h.p| == |p|
  {
    var (tables, v) := t.put(st.tables, PatChannel, f.Number(), f.start, h.p[PayloadStart(p, f)..188]);
    var st' := st.(tables := tables);
    match v
    case Quiet => h == Next(st', h.p, h.p, Emitted(f.Number()), r)
    case Code(code) =>
      h == if code < 0 then Failed(st', h.p, code)
           else if code == 0 then Ended(State(tables, multiset{}, multiset{}), h.p, h.p, Emitted(f.Number()), 0)
           else Ended(st', h.p, h.p, Emitted(f.Number()), code)
  }

  /**
   Where the payload of a packet goes: by what the map says of its PID, and where the map has no such entry PID 1 to the
   CAT and PID 0 to the PAT. A packet whose payload nothing takes is only emitted.
   */
  lemma Dispatch<S>(t: Tables<S>, st: State<S>, p: seq<byte>, f: Fields, r: int)
    requires HasHeader(p, f) && !f.error && !(f.Number() == 0x1fff && t.strip) && !Overlong(p, f)
    requires !KeysMissing(t, st.tables, f, 188 - PayloadStart(p, f))
    ensures !Passed(t, p) && !Broken(p)
    ensures var h, risen := Handle(t, st, p, r), Risen(t, st, f);
      match t.kind(st.tables, f.Number())
      case EcmKind => TakenBy(t, risen, EcmChannel, p, f, r, h)
      case PmtKind => TakenBy(t, risen, PmtChannel, p, f, r, h)
      case EmmKind => if t.emmProc then TakenBy(t, risen, EmmChannel, p, f, r, h) else OnlyEmitted(risen, f, h.p, r, h)
      case UnknownKind => ByNumber(t, risen, p, f, r, h)
      case OtherKind => ByNumber(t, risen, p, f, r, h)
      case FixedKind => ByNumber(t, risen, p, f, r, h)
  {
    hide HasHeader, Descramble, KeysMissing, Risen, Tables.Cipher, Counted, CipherFor;
    HeaderRead(p, f);
    PayloadRead(p, f);
    DescrambleGoesOn(t, st, p, f);
    hide Broken, Overlong, ErrorBit, StartBit, Pid, PayloadSize;
  }

  ghost predicate ByNumber<S>(t: Tables<S>, st: State<S>, p: seq<byte>, f: Fields, r: int, h: Handled<S>)
    requires |p| >= 188 && !Overlong(p, f) && |h.p| == |p|
  {
    if f.high == 0 && f.low == 1 then TakenBy(t, st, CatChannel, p, f, r, h)
    else if f.high == 0 && f.low == 0 then TakenLast(t, st, p, f, r, h)
    else OnlyEmitted(st, f, h.p, r, h)
  }

  /** A packet that is not scrambled stays as it is, and so goes to its table. */
  lemma ClearStays<S>(t: Tables<S>, st: State<S>, p: seq<byte>, f: Fields, r: int)
    requires HasHeader(p, f) && f.scrambling == 0 && !Overlong(p, f)
    ensures !Broken(p) && Handle(t, st, p, r).p == p
  {
    hide HasHeader, Tables.Cipher, Delivered, Tables.ChannelOf;
    HeaderRead(p, f);
    PayloadRead(p, f);
    hide Broken, Overlong, PayloadStart, PayloadOf, Scrambling, HasPayload, Pid, ErrorBit, Passed;
    assert Descramble(t.Cipher(st.tables, Pid(p)), p) == Clear(p);
    DeliveredPlace(t, Counted(st, Pid(p), Clear(p)), p, p, r);
  }

  lemma DeliveredPlace<S>(t: Tables<S>, st: State<S>, p: seq<byte>, q: seq<byte>, r: int)
    requires |p| >= PACKET && !Broken(p) && |q| == |p|
    ensures Delivered(t, st, p, q, r).p == q
  {
    hide Tables.ChannelOf, Broken, Pid, StartBit, PayloadSize;
  }

  lemma ClearedFlags(f: Fields)
    requires f.Fit()
    ensures ClearedByte(f.Fourth()) == f.(scrambling := 0).Fourth() && f.(scrambling := 0).Fit()
    ensures f.(scrambling := 0).Second() == f.Second()
  {
  }

  /** Clearing the mark changes nothing else in the packet. */
  lemma MarkCleared(p: seq<byte>, f: Fields)
    requires HasHeader(p, f)
    ensures HasHeader(Unmarked(p), f.(scrambling := 0)) && Unmarked(p)[4..] == p[4..]
  {
    hide ClearedByte, Fields.Fit, Fields.Second, Fields.Fourth;
    ClearedFlags(f);
  }

  lemma SameFourBytes(p: seq<byte>, q: seq<byte>, f: Fields)
    requires HasHeader(p, f) && |q| == |p| && q[..4] == p[..4]
    ensures HasHeader(q, f)
  {
    hide Fields.Fit, Fields.Second, Fields.Fourth;
    assert q[0] == q[..4][0] && q[1] == q[..4][1] && q[2] == q[..4][2] && q[3] == q[..4][3];
  }

  /** A marked packet without a payload loses its mark. */
  lemma EmptyUnmarked<S>(t: Tables<S>, st: State<S>, p: seq<byte>, f: Fields, r: int)
    requires HasHeader(p, f) && f.scrambling != 0 && !f.payload && !Overlong(p, f)
    requires !f.error && !(f.Number() == 0x1fff && t.strip)
    ensures !Broken(p) && |Handle(t, st, p, r).p| == |p|
    ensures var q := Handle(t, st, p, r).p; HasHeader(q, f.(scrambling := 0)) && q[4..] == p[4..]
  {
    hide HasHeader, Tables.Cipher, Delivered, Tables.ChannelOf, Unmarked;
    HeaderRead(p, f);
    PayloadRead(p, f);
    MarkCleared(p, f);
    hide Broken, Overlong, Scrambling, HasPayload, Pid, ErrorBit;
    DeliveredPlace(t, Counted(st, Pid(p), Clear(Unmarked(p))), p, Unmarked(p), r);
  }

  /** A marked packet for which there is no cipher object stays as it is. */
  lemma ScrambledLeft<S>(t: Tables<S>, st: State<S>, p: seq<byte>, f: Fields, r: int)
    requires HasHeader(p, f) && f.scrambling != 0 && f.payload && !Overlong(p, f)
    requires !f.error && !(f.Number() == 0x1fff && t.strip) && CipherFor(t, st.tables, f.Number()) == None
    ensures !Broken(p) && Handle(t, st, p, r).p == p
  {
    hide HasHeader, Tables.Cipher, Delivered, Tables.ChannelOf;
    HeaderRead(p, f);
    PayloadRead(p, f);
    CipherIs(t, st.tables, f.Number());
    hide Broken, Overlong, Scrambling, HasPayload, Pid, ErrorBit;
    DeliveredPlace(t, Counted(st, Pid(p), Left(p)), p, p, r);
  }

  /**
   One whose cipher object has its keys keeps its adaptation field and what is behind byte 188, loses its mark, and has
   for its payload what the object makes of the payload.
   */
  lemma ScrambledOpened<S>(t: Tables<S>, st: State<S>, p: seq<byte>, f: Fields, r: int, m: Eager)
    requires HasHeader(p, f) && f.scrambling != 0 && f.payload && !Overlong(p, f)
    requires !f.error && !(f.Number() == 0x1fff && t.strip) && CipherFor(t, st.tables, f.Number()) == Some(m)
    requires m.Status(188 - PayloadStart(p, f)) == 0
    ensures PayloadStart(p, f) <= 188 && !Broken(p) && |Handle(t, st, p, r).p| == |p|
    ensures var q, from := Handle(t, st, p, r).p, PayloadStart(p, f);
      && HasHeader(q, f.(scrambling := 0)) && q[4..from] == p[4..from] && q[188..] == p[188..]
      && q[from..188] == m.Step(Decrypt(f.scrambling as int, p[from..188])).1.data
  {
    hide HasHeader, Tables.Cipher, Delivered, Tables.ChannelOf, Eager.Step, Eager.Status, Unmarked, WithPayload;
    HeaderRead(p, f);
    PayloadRead(p, f);
    CipherIs(t, st.tables, f.Number());
    var from := PayloadStart(p, f);
    var reply := m.Step(Decrypt(f.scrambling as int, p[from..188])).1;
    ReplyOk(m, f.scrambling as int, p[from..188]);
    PayloadReplaced(p, f, from, reply.data);
    var q := Unmarked(WithPayload(p, reply.data));
    hide Broken, Overlong, Scrambling, HasPayload, Pid, ErrorBit, PayloadStart;
    DeliveredPlace(t, Counted(st, Pid(p), Clear(q)), p, q, r);
  }

  lemma ReplyOk(m: Eager, kind: int, d: seq<byte>)
    requires m.Status(|d|) == 0
    ensures m.Step(Decrypt(kind, d)).1.code == 0 && |m.Step(Decrypt(kind, d)).1.data| == |d|
  {
  }

  lemma PayloadReplaced(p: seq<byte>, f: Fields, from: nat, data: seq<byte>)
    requires HasHeader(p, f) && 4 <= from <= 188 && |data| == 188 - from
    ensures var q := Unmarked(WithPayload(p, data));
      && HasHeader(q, f.(scrambling := 0)) && |q| == |p|
      && q[4..from] == p[4..from] && q[from..188] == data && q[188..] == p[188..]
  {
    hide HasHeader, Splice;
    assert |p| >= 188 by { HeaderRead(p, f); }
    var w := WithPayload(p, data);
    SameFourBytes(p, w, f);
    MarkCleared(w, f);
    var q := Unmarked(w);
    assert forall i :: 4 <= i < |q| ==> q[i] == w[i] by {
      forall i | 4 <= i < |q|
        ensures q[i] == w[i]
      {
        assert q[4..][i - 4] == w[4..][i - 4];
      }
    }
  }
}
