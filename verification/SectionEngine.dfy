/**
 What the section parser does with the payloads of one PID, on values: accumulation of a section over payloads,
 the checks on a finished section, and the effect of one payload. The parser object is proved against this.
 */
module SectionEngine {
  import opened Prelude
  import opened Bytes
  import opened Crc32

  const MAX_RAW_SECTION_SIZE := 4100

  const WARN_CRC_MISMATCH := 1

  const WARN_LENGTH_MISMATCH := 2

  // ---- Section headers ----

  /** The section_syntax_indicator: a section of the long form. */
  predicate LongForm(raw: seq<byte>)
    requires |raw| >= 3
  {
    raw[1] & 0x80 != 0
  }

  /** The size announced by section_length, the three bytes in front of it included. */
  function Announced(raw: seq<byte>): (n: nat)
    requires |raw| >= 3
    ensures 3 <= n <= 4098
  {
    ((raw[1] & 0x0f) as nat) * 256 + raw[2] as nat + 3
  }

  /** Enough bytes to read the header: three in the short form, eight in the long form. */
  predicate HeaderKnown(raw: seq<byte>) {
    |raw| >= 3 && (LongForm(raw) ==> |raw| >= 8)
  }

  lemma SameHeader(a: seq<byte>, b: seq<byte>)
    requires |a| >= 3 && |b| >= 3 && a[1] == b[1] && a[2] == b[2]
    ensures Announced(a) == Announced(b) && LongForm(a) == LongForm(b)
  {
  }

  predicate Incomplete(raw: seq<byte>) {
    HeaderKnown(raw) ==> |raw| < Announced(raw)
  }

  lemma IncompleteIsShort(raw: seq<byte>)
    requires Incomplete(raw)
    ensures |raw| < 4098
  {
  }

  // ---- Accumulation ----

  datatype Accumulated = More(raw: seq<byte>) | Done(section: seq<byte>)

  /** The bytes of a section buffer after as much of `data` as fits has been appended. */
  function Filled(raw: seq<byte>, data: seq<byte>): seq<byte>
    requires |raw| <= MAX_RAW_SECTION_SIZE
  {
    var room := MAX_RAW_SECTION_SIZE - |raw|;
    raw + if |data| < room then data else data[..room]
  }

  function Accumulate(raw: seq<byte>, data: seq<byte>): (r: Accumulated)
    requires Incomplete(raw)
    ensures r.More? ==> Incomplete(r.raw) && |r.raw| >= |raw| && (|data| > 0 ==> |r.raw| > 0)
    ensures r.Done? ==> 3 <= |r.section| <= 4098 && |r.section| <= |raw| + |data| && |r.section| == Announced(r.section)
  {
    var full := Filled(raw, data);
    if Incomplete(full) then More(full) else Done(full[..Announced(full)])
  }

  // ---- Finished sections ----

  datatype Event =
    | Unique(section: seq<byte>)
    | Repeat(section: seq<byte>)
    | BadCrc(section: seq<byte>)
    | Truncated(raw: seq<byte>)

  /** Short-form sections carry no checksum and pass. */
  predicate Sound(section: seq<byte>)
    requires |section| >= 3
  {
    LongForm(section) ==> Crc(section) == 0
  }

  /** The new sections among the events: what the queue has received. */
  function Uniques(log: seq<Event>): (r: seq<seq<byte>>)
    ensures |r| <= |log|
  {
    if |log| == 0 then []
    else
      var u := Uniques(log[..|log| - 1]);
      if log[|log| - 1].Unique? then u + [log[|log| - 1].section] else u
  }

  function Repeats(log: seq<Event>): nat {
    if |log| == 0 then 0 else Repeats(log[..|log| - 1]) + if log[|log| - 1].Repeat? then 1 else 0
  }

  function Errors(log: seq<Event>): nat {
    if |log| == 0 then 0
    else Errors(log[..|log| - 1]) + if log[|log| - 1].BadCrc? || log[|log| - 1].Truncated? then 1 else 0
  }

  /** Every section that ended is counted exactly once. */
  lemma {:induction false} Accounting(log: seq<Event>)
    ensures |log| == |Uniques(log)| + Errors(log) + Repeats(log)
    decreases |log|
  {
    if |log| > 0 {
      Accounting(log[..|log| - 1]);
    }
  }

  lemma LogGrows(log: seq<Event>, e: Event)
    ensures Uniques(log + [e]) == if e.Unique? then Uniques(log) + [e.section] else Uniques(log)
    ensures Errors(log + [e]) == Errors(log) + if e.BadCrc? || e.Truncated? then 1 else 0
    ensures Repeats(log + [e]) == Repeats(log) + if e.Repeat? then 1 else 0
  {
    assert (log + [e])[..|log|] == log;
  }

  // ---- The engine ----

  /** The section being assembled, the section repeats are compared with, and everything that has ended so far. */
  datatype Engine = Engine(work: Option<seq<byte>>, last: Option<seq<byte>>, log: seq<Event>)
  {
    /** The assembly buffer, when there is one, is part of a section. */
    predicate Sane() { work.Some? ==> 0 < |work.value| && Incomplete(work.value) }

    function Verdict(section: seq<byte>): (e: Event)
      requires |section| >= 3
    {
      if !Sound(section) then BadCrc(section)
      else if last == Some(section) then Repeat(section)
      else Unique(section)
    }

    /** A section has been completed. */
    function Receive(section: seq<byte>): (e: Engine)
      requires |section| >= 3
      ensures e.work == work
    {
      var v := Verdict(section);
      Engine(work, if v.Unique? then Some(section) else last, log + [v])
    }

    /** A payload without a section start, or the part of one before the start. */
    function Exclude(data: seq<byte>): (r: (Engine, int))
      requires Sane()
      ensures r.0.Sane() && r.1 >= 0
    {
      if work.None? then (this, 0)
      else
        match Accumulate(work.value, data)
        case More(raw) => (this.(work := Some(raw)), 0)
        case Done(section) =>
          (this.(work := None).Receive(section), if Sound(section) then 0 else WARN_CRC_MISMATCH)
    }

    /** Gives up the section being assembled. */
    function Abandon(): (e: Engine)
      ensures e.work.None?
    {
      if work.None? then this else Engine(None, last, log + [Truncated(work.value)])
    }

    /** Section starts, back to back until stuffing or the end of the payload. */
    function Sections(rest: seq<byte>, r: int): (q: (Engine, int))
      requires work.None? && |rest| > 0 && r >= 0
      ensures q.0.Sane() && q.1 >= 0
      decreases |rest|
    {
      match Accumulate([], rest)
      case More(raw) => (this.(work := Some(raw)), 0)
      case Done(section) =>
        var e := Receive(section);
        var r' := if Sound(section) then r else WARN_CRC_MISMATCH;
        var rest' := rest[|section|..];
        if |rest'| > 0 && rest'[0] != 0xff then e.Sections(rest', r') else (e, r')
    }

    /** A payload with a section start; its first byte is the pointer_field. */
    function Include(data: seq<byte>): (r: (Engine, int))
      requires Sane() && |data| >= 1
      ensures r.0.Sane() && r.1 >= 0
    {
      var start := 1 + data[0] as nat;
      if start >= |data| then
        (Abandon(), if work.Some? then WARN_LENGTH_MISMATCH else 0)
      else
        var (e, r) := if start > 1 then Exclude(data[1..start]) else (this, 0);
        e.Abandon().Sections(data[start..], if e.work.Some? then WARN_LENGTH_MISMATCH else r)
    }

    function Put(start: bool, data: seq<byte>): (r: (Engine, int))
      requires Sane() && |data| >= 1
      ensures r.0.Sane() && r.1 >= 0
    {
      if start then Include(data) else Exclude(data)
    }
  }

  const NEW_ENGINE := Engine(None, None, [])

  // ---- The log only grows, and only by whole sections ----

  /** As long as it announces, and past its check. */
  predicate Whole(section: seq<byte>) { |section| >= 3 && |section| == Announced(section) && Sound(section) }

  ghost predicate WholeFrom(log: seq<Event>, n: nat) {
    forall i :: n <= i < |log| && log[i].Unique? ==> Whole(log[i].section)
  }

  ghost predicate Grown(log: seq<Event>, log': seq<Event>) { log <= log' && WholeFrom(log', |log|) }

  lemma GrownTwice(a: seq<Event>, b: seq<Event>, c: seq<Event>)
    requires Grown(a, b) && Grown(b, c)
    ensures Grown(a, c)
  {
    hide Whole;
    forall i | |a| <= i < |c| && c[i].Unique?
      ensures Whole(c[i].section)
    {
      if i < |b| {
        assert c[i] == b[i];
      }
    }
  }

  lemma ExcludeGrows(e: Engine, data: seq<byte>)
    requires e.Sane()
    ensures Grown(e.log, e.Exclude(data).0.log)
  {
    hide Accumulate, Sound;
  }

  lemma {:induction false} SectionsGrow(e: Engine, rest: seq<byte>, r: int)
    requires e.work.None? && |rest| > 0 && r >= 0
    ensures Grown(e.log, e.Sections(rest, r).0.log)
    decreases |rest|
  {
    hide Accumulate, Sound, Grown;
    match Accumulate([], rest)
    case More(raw) => NothingGrown(e.log);
    case Done(section) =>
      ReceiveGrows(e, section);
      var r' := if Sound(section) then r else WARN_CRC_MISMATCH;
      var rest' := rest[|section|..];
      if |rest'| > 0 && rest'[0] != 0xff {
        SectionsGrow(e.Receive(section), rest', r');
        GrownTwice(e.log, e.Receive(section).log, e.Sections(rest, r).0.log);
      }
  }

  lemma NothingGrown(log: seq<Event>)
    ensures Grown(log, log)
  {
  }

  lemma ReceiveGrows(e: Engine, section: seq<byte>)
    requires |section| >= 3 && |section| == Announced(section)
    ensures Grown(e.log, e.Receive(section).log)
  {
    hide Sound;
  }

  /** Whatever payload comes, what is new in the log is at its end, and every new section there is whole. */
  lemma PutGrows(e: Engine, start: bool, data: seq<byte>)
    requires e.Sane() && |data| >= 1
    ensures Grown(e.log, e.Put(start, data).0.log)
  {
    hide Engine.Exclude, Engine.Sections, Incomplete;
    if !start {
      ExcludeGrows(e, data);
    } else if 1 + data[0] as nat < |data| {
      var from := 1 + data[0] as nat;
      if from > 1 {
        ExcludeGrows(e, data[1..from]);
      }
      var e' := if from > 1 then e.Exclude(data[1..from]).0 else e;
      SectionsGrow(e'.Abandon(), data[from..], if e'.work.Some? then WARN_LENGTH_MISMATCH
                                               else if from > 1 then e.Exclude(data[1..from]).1 else 0);
      assert Grown(e'.log, e'.Abandon().log);
      GrownTwice(e.log, e'.log, e'.Abandon().log);
      GrownTwice(e.log, e'.Abandon().log, e.Put(start, data).0.log);
    }
  }

  lemma {:induction false} UniquesGrow(log: seq<Event>, log': seq<Event>)
    requires log <= log'
    ensures Uniques(log) <= Uniques(log')
    decreases |log'|
  {
    if |log| < |log'| {
      UniquesGrow(log, log'[..|log'| - 1]);
    } else {
      assert log == log';
    }
  }

  lemma {:induction false} UniquesWhole(log: seq<Event>, i: nat)
    requires WholeFrom(log, 0) && i < |Uniques(log)|
    ensures Whole(Uniques(log)[i])
    decreases |log|
  {
    hide Whole;
    var before := log[..|log| - 1];
    if i < |Uniques(before)| {
      UniquesWhole(before, i);
    }
  }
}
