/**
 Sections in transport packet payloads (ISO/IEC 13818-1, section 2.4.4): which payloads legally carry a list of
 sections, a packetiser that fills payloads of a fixed size, and the proof that the section engine undoes both.
 */
module SectionPackets {
  import opened Prelude
  import opened Bytes
  import opened Crc32
  import opened SectionEngine

  /** As long as it announces, and not mistaken for stuffing. */
  predicate Framed(section: seq<byte>) {
    && |section| >= 3 && |section| == Announced(section)
    && section[0] != 0xff
    && (LongForm(section) ==> |section| >= 8)
  }

  predicate WellFormed(section: seq<byte>) { Framed(section) && Sound(section) }

  predicate AllFramed(ss: seq<seq<byte>>) { forall i :: 0 <= i < |ss| ==> Framed(ss[i]) }

  predicate AllWellFormed(ss: seq<seq<byte>>) {
    AllFramed(ss) && forall i :: 0 <= i < |ss| ==> WellFormed(ss[i])
  }

  datatype Payload = Payload(start: bool, data: seq<byte>)

  /** How far a list of sections has been sent: some entirely, and the first bytes of the next. */
  datatype Position = Position(done: nat, sent: nat)

  predicate Within(ss: seq<seq<byte>>, at: Position) {
    if at.done < |ss| then at.sent < |ss[at.done]| else at.done == |ss| && at.sent == 0
  }

  // ---- Legal payloads ----

  /** Back-to-back section starts from section `i` on, up to stuffing or the end of the payload. */
  function CarryStarts(ss: seq<seq<byte>>, i: nat, data: seq<byte>): (r: Option<Position>)
    requires AllFramed(ss)
    ensures r.Some? ==> Within(ss, r.value) && |data| > 0
    decreases |data|
  {
    if |data| == 0 || i >= |ss| then None
    else if |data| < |ss[i]| then
      if data == ss[i][..|data|] then Some(Position(i, |data|)) else None
    else if data[..|ss[i]|] != ss[i] then None
    else
      var rest := data[|ss[i]|..];
      if |rest| == 0 || rest[0] == 0xff then Some(Position(i + 1, 0)) else CarryStarts(ss, i + 1, rest)
  }

  /**
   Where a payload takes the position, if it is legal there. Without a section start it continues the section under
   way, any bytes following its end; with one, the bytes before the start must at least end the section under way.
   When no section is under way, bytes before a section start mean nothing.
   */
  function Carry(ss: seq<seq<byte>>, at: Position, p: Payload): (r: Option<Position>)
    requires AllFramed(ss) && Within(ss, at)
    ensures r.Some? ==> Within(ss, r.value)
  {
    if |p.data| == 0 then None
    else if !p.start then
      if at.sent == 0 then Some(at)
      else
        var rest := ss[at.done][at.sent..];
        if |p.data| < |rest| then
          if p.data == rest[..|p.data|] then Some(Position(at.done, at.sent + |p.data|)) else None
        else if p.data[..|rest|] == rest then Some(Position(at.done + 1, 0)) else None
    else
      var start := 1 + p.data[0] as nat;
      if start >= |p.data| then None
      else if at.sent == 0 then CarryStarts(ss, at.done, p.data[start..])
      else
        var rest := ss[at.done][at.sent..];
        if |rest| < start && p.data[1..1 + |rest|] == rest then CarryStarts(ss, at.done + 1, p.data[start..])
        else None
  }

  function CarryAll(ss: seq<seq<byte>>, at: Position, ps: seq<Payload>): (r: Option<Position>)
    requires AllFramed(ss) && Within(ss, at)
    ensures r.Some? ==> Within(ss, r.value)
    decreases |ps|
  {
    if |ps| == 0 then Some(at)
    else
      var next := Carry(ss, at, ps[0]);
      if next.None? then None else CarryAll(ss, next.value, ps[1..])
  }

  // ---- Consecutive repeats removed ----

  function Dedup(ss: seq<seq<byte>>): seq<seq<byte>> {
    if |ss| == 0 then []
    else
      var d := Dedup(ss[..|ss| - 1]);
      if |ss| >= 2 && ss[|ss| - 1] == ss[|ss| - 2] then d else d + [ss[|ss| - 1]]
  }

  /** A section that differs from the one in front of it, or has none in front. */
  predicate Fresh(ss: seq<seq<byte>>, k: nat)
    requires k < |ss|
  {
    k == 0 || ss[k] != ss[k - 1]
  }

  function FreshBelow(ss: seq<seq<byte>>, k: nat): set<nat>
    requires k <= |ss|
  {
    set j: nat | j < k && Fresh(ss, j)
  }

  predicate StandsAt(ss: seq<seq<byte>>, k: nat)
    requires k < |ss|
  {
    var n := |FreshBelow(ss, k)|;
    n < |Dedup(ss)| && Dedup(ss)[n] == ss[k]
  }

  /** These and no others are left, in their order. */
  lemma {:induction false} DedupIs(ss: seq<seq<byte>>)
    ensures |Dedup(ss)| == |FreshBelow(ss, |ss|)|
    ensures forall k :: 0 <= k < |ss| && Fresh(ss, k) ==> StandsAt(ss, k)
    decreases |ss|
  {
    hide FreshBelow, StandsAt, Fresh;
    var n := |ss| - 1;
    if n < 0 {
      NoneFresh(ss);
    } else {
      var front := ss[..n];
      DedupIs(front);
      FreshMore(ss, n);
      FreshFront(ss, n, n);
      forall k | 0 <= k < n && Fresh(ss, k)
        ensures StandsAt(ss, k)
      {
        SameFresh(ss, n, k);
        StillStands(ss, k);
      }
      if Fresh(ss, n) {
        LastStands(ss);
      }
      DedupMore(ss);
    }
  }

  lemma NoneFresh(ss: seq<seq<byte>>)
    ensures FreshBelow(ss, 0) == {}
  {
  }

  lemma FreshMore(ss: seq<seq<byte>>, k: nat)
    requires k < |ss|
    ensures FreshBelow(ss, k + 1) == if Fresh(ss, k) then FreshBelow(ss, k) + {k} else FreshBelow(ss, k)
    ensures k !in FreshBelow(ss, k)
  {
    hide Fresh;
  }

  lemma SameFresh(ss: seq<seq<byte>>, n: nat, k: nat)
    requires k < n <= |ss|
    ensures Fresh(ss[..n], k) == Fresh(ss, k)
  {
  }

  lemma FreshFront(ss: seq<seq<byte>>, n: nat, k: nat)
    requires k <= n <= |ss|
    ensures FreshBelow(ss[..n], k) == FreshBelow(ss, k)
  {
    hide Fresh;
    forall j: nat | j < k
      ensures Fresh(ss[..n], j) == Fresh(ss, j)
    {
      SameFresh(ss, n, j);
    }
  }

  lemma DedupMore(ss: seq<seq<byte>>)
    requires |ss| > 0
    ensures Dedup(ss)
      == if Fresh(ss, |ss| - 1) then Dedup(ss[..|ss| - 1]) + [ss[|ss| - 1]] else Dedup(ss[..|ss| - 1])
  {
  }

  lemma StillStands(ss: seq<seq<byte>>, k: nat)
    requires k < |ss| - 1 && StandsAt(ss[..|ss| - 1], k)
    ensures StandsAt(ss, k)
  {
    hide FreshBelow, Fresh;
    FreshFront(ss, |ss| - 1, k);
    DedupMore(ss);
  }

  lemma LastStands(ss: seq<seq<byte>>)
    requires |ss| > 0 && Fresh(ss, |ss| - 1)
    requires |Dedup(ss[..|ss| - 1])| == |FreshBelow(ss, |ss| - 1)|
    ensures StandsAt(ss, |ss| - 1)
  {
    hide FreshBelow, Fresh;
    DedupMore(ss);
  }

  // ---- Sections an engine hears, whatever came before ----

  /** The engine after complete sections, nothing under way. */
  ghost function Heard(e: Engine, ss: seq<seq<byte>>): (r: Engine)
    requires AllFramed(ss)
    ensures r.work.None?
    decreases |ss|
  {
    if |ss| == 0 then e.(work := None)
    else
      FramedFront(ss);
      Heard(e, ss[..|ss| - 1]).Receive(ss[|ss| - 1])
  }

  lemma FramedFront(ss: seq<seq<byte>>)
    requires AllFramed(ss) && |ss| > 0
    ensures AllFramed(ss[..|ss| - 1]) && |ss[|ss| - 1]| >= 3
  {
    hide Announced, LongForm;
    assert Framed(ss[|ss| - 1]);
  }

  lemma FramedUpTo(ss: seq<seq<byte>>, n: nat)
    requires AllFramed(ss) && n <= |ss|
    ensures AllFramed(ss[..n])
  {
    hide Framed;
  }

  /** The new sections among those heard: sound, and not the sound one just before; `last` is the one before all. */
  function News(last: Option<seq<byte>>, ss: seq<seq<byte>>): seq<seq<byte>>
    requires AllFramed(ss)
    decreases |ss|
  {
    if |ss| == 0 then []
    else
      FramedRest(ss);
      if !Sound(ss[0]) || last == Some(ss[0]) then News(last, ss[1..]) else [ss[0]] + News(Some(ss[0]), ss[1..])
  }

  /** The last sound section of a list, or the one before it. */
  function LastSound(last: Option<seq<byte>>, ss: seq<seq<byte>>): Option<seq<byte>>
    requires AllFramed(ss)
    decreases |ss|
  {
    if |ss| == 0 then last
    else
      FramedRest(ss);
      LastSound(if Sound(ss[0]) then Some(ss[0]) else last, ss[1..])
  }

  function Unsound(ss: seq<seq<byte>>): nat
    requires AllFramed(ss)
    decreases |ss|
  {
    if |ss| == 0 then 0
    else
      FramedRest(ss);
      (if Sound(ss[0]) then 0 else 1) + Unsound(ss[1..])
  }

  lemma FramedRest(ss: seq<seq<byte>>)
    requires AllFramed(ss) && |ss| > 0
    ensures AllFramed(ss[1..]) && |ss[0]| >= 3
  {
    hide Announced, LongForm;
    assert Framed(ss[0]);
  }

  /** What one more section at the end does to them. */
  lemma {:induction false} NewsMore(last: Option<seq<byte>>, ss: seq<seq<byte>>)
    requires AllFramed(ss) && |ss| > 0
    ensures AllFramed(ss[..|ss| - 1]) && |ss[|ss| - 1]| >= 3
    ensures var (front, s) := (ss[..|ss| - 1], ss[|ss| - 1]);
      && News(last, ss) == News(last, front) + (if Sound(s) && LastSound(last, front) != Some(s) then [s] else [])
      && LastSound(last, ss) == (if Sound(s) then Some(s) else LastSound(last, front))
      && Unsound(ss) == Unsound(front) + if Sound(s) then 0 else 1
    decreases |ss|
  {
    hide Sound, Framed, AllFramed;
    FramedFront(ss);
    FramedRest(ss);
    if |ss| > 1 {
      var last' := if Sound(ss[0]) then Some(ss[0]) else last;
      NewsMore(last', ss[1..]);
      NewsMore(last, ss[1..]);
      assert ss[1..][..|ss| - 2] == ss[..|ss| - 1][1..];
      FramedRest(ss[..|ss| - 1]);
    }
  }

  /** What an engine has queued, counted and kept for comparison when it has heard some sections. */
  lemma {:induction false} HeardIs(e: Engine, ss: seq<seq<byte>>)
    requires AllFramed(ss)
    ensures Uniques(Heard(e, ss).log) == Uniques(e.log) + News(e.last, ss)
    ensures Errors(Heard(e, ss).log) == Errors(e.log) + Unsound(ss)
    ensures Heard(e, ss).last == LastSound(e.last, ss) && |Heard(e, ss).log| == |e.log| + |ss|
    decreases |ss|
  {
    hide Sound, Uniques, Errors, Repeats, News, LastSound, Unsound, Framed, AllFramed;
    if |ss| > 0 {
      FramedFront(ss);
      var front, s := ss[..|ss| - 1], ss[|ss| - 1];
      HeardIs(e, front);
      var before := Heard(e, front);
      LogGrows(before.log, before.Verdict(s));
      NewsMore(e.last, ss);
    } else {
      NoNews(e.last);
    }
  }

  lemma NoNews(last: Option<seq<byte>>)
    ensures News(last, []) == [] && LastSound(last, []) == last && Unsound([]) == 0
  {
  }

  lemma {:induction false} HeardTwice(e: Engine, a: seq<seq<byte>>, b: seq<seq<byte>>)
    requires AllFramed(a) && AllFramed(b)
    ensures AllFramed(a + b) && Heard(e, a + b) == Heard(Heard(e, a), b)
    decreases |b|
  {
    hide Framed, Engine.Receive;
    if |b| == 0 {
      assert a + b == a;
    } else {
      FramedFront(b);
      HeardTwice(e, a, b[..|b| - 1]);
      assert (a + b)[..|a + b| - 1] == a + b[..|b| - 1];
    }
  }

  /** With sound sections only, the new ones are the list without consecutive repeats. */
  lemma {:induction false} NewsIsDedup(ss: seq<seq<byte>>)
    requires AllWellFormed(ss)
    ensures News(None, ss) == Dedup(ss) && Unsound(ss) == 0
    ensures LastSound(None, ss) == if |ss| == 0 then None else Some(ss[|ss| - 1])
    decreases |ss|
  {
    hide Framed, Sound;
    if |ss| > 0 {
      WellFormedFront(ss);
      NewsIsDedup(ss[..|ss| - 1]);
      hide News, LastSound, Unsound;
      NewsMore(None, ss);
      assert WellFormed(ss[|ss| - 1]);
    }
  }

  lemma WellFormedFront(ss: seq<seq<byte>>)
    requires AllWellFormed(ss) && |ss| > 0
    ensures AllWellFormed(ss[..|ss| - 1])
  {
    hide Framed, WellFormed;
  }

  /** The sound ones of some sections. */
  function SoundOnes(ss: seq<seq<byte>>): (r: seq<seq<byte>>)
    requires AllFramed(ss)
    ensures |r| <= |ss|
    decreases |ss|
  {
    if |ss| == 0 then []
    else
      FramedFront(ss);
      SoundOnes(ss[..|ss| - 1]) + if Sound(ss[|ss| - 1]) then [ss[|ss| - 1]] else []
  }

  /**
   In general they are the sound sections without consecutive repeats, the first also compared with the section kept
   from before.
   */
  lemma {:induction false} NewsAre(last: Option<seq<byte>>, ss: seq<seq<byte>>)
    requires AllFramed(ss)
    ensures last.None? ==> News(last, ss) == Dedup(SoundOnes(ss))
    ensures last.Some? ==> Dedup([last.value] + SoundOnes(ss)) == [last.value] + News(last, ss)
    ensures var sound := SoundOnes(ss);
      LastSound(last, ss) == if |sound| == 0 then last else Some(sound[|sound| - 1])
    ensures Unsound(ss) == |ss| - |SoundOnes(ss)|
    decreases |ss|
  {
    hide Sound, Framed, AllFramed, News, LastSound, Unsound, Dedup, SoundOnes;
    SoundOnesMore(ss);
    if |ss| == 0 {
      NoNews(last);
      NothingLeft();
      if last.Some? {
        DedupAppend([], last.value);
        assert [] + [last.value] == [last.value] + [];
      }
    } else {
      FramedFront(ss);
      var before, s := SoundOnes(ss[..|ss| - 1]), ss[|ss| - 1];
      NewsAre(last, ss[..|ss| - 1]);
      NewsMore(last, ss);
      if Sound(s) {
        DedupAppend(before, s);
        if last.Some? {
          DedupAppend([last.value] + before, s);
          assert [last.value] + (before + [s]) == ([last.value] + before) + [s];
        }
      }
    }
  }

  lemma SoundOnesMore(ss: seq<seq<byte>>)
    requires AllFramed(ss)
    ensures |ss| == 0 ==> SoundOnes(ss) == []
    ensures |ss| > 0 ==> AllFramed(ss[..|ss| - 1]) && |ss[|ss| - 1]| >= 3
    ensures |ss| > 0 ==>
      var before, s := SoundOnes(ss[..|ss| - 1]), ss[|ss| - 1];
      SoundOnes(ss) == if Sound(s) then before + [s] else before
  {
    hide Sound, Framed;
    if |ss| > 0 {
      FramedFront(ss);
    }
  }

  lemma NothingLeft()
    ensures Dedup([]) == []
  {
  }

  lemma DedupAppend(a: seq<seq<byte>>, s: seq<byte>)
    ensures Dedup(a + [s]) == if |a| > 0 && a[|a| - 1] == s then Dedup(a) else Dedup(a) + [s]
  {
    assert (a + [s])[..|a|] == a;
  }

  /** The engine has heard the sections sent in full since `e0`, and holds the part of the next that has been sent. */
  ghost predicate Expected(e0: Engine, ss: seq<seq<byte>>, at: Position, e: Engine) {
    && AllFramed(ss) && Within(ss, at)
    && AllFramed(ss[..at.done])
    && e == Heard(e0, ss[..at.done]).(work := if at.sent == 0 then None else Some(ss[at.done][..at.sent]))
  }

  // ---- Accumulating a framed section ----

  /** The header of a framed section can be read from any prefix of eight bytes, and never says too little. */
  lemma PrefixIncomplete(s: seq<byte>, k: nat)
    requires Framed(s) && k < |s|
    ensures Incomplete(s[..k])
  {
  }

  /** With all the bytes of a framed section the buffer is complete, and it is cut back to the section. */
  lemma AccumulateEnds(s: seq<byte>, k: nat, data: seq<byte>)
    requires Framed(s) && k < |s|
    requires |data| >= |s| - k && data[..|s| - k] == s[k..]
    ensures Incomplete(s[..k]) && Accumulate(s[..k], data) == Done(s)
  {
    hide Announced, LongForm;
    PrefixIncomplete(s, k);
    var full := Filled(s[..k], data);
    assert full[..|s|] == s by {
      forall i | 0 <= i < |s|
        ensures full[i] == s[i]
      {
        if i >= k {
          assert data[i - k] == data[..|s| - k][i - k];
        }
      }
    }
    assert full[1] == full[..|s|][1] && full[2] == full[..|s|][2];
    SameHeader(full, s);
  }

  lemma WithinStart(ss: seq<seq<byte>>, i: nat)
    requires AllFramed(ss) && i <= |ss|
    ensures Within(ss, Position(i, 0))
  {
  }

  /** With fewer bytes it keeps them. */
  lemma AccumulateWaits(s: seq<byte>, k: nat, data: seq<byte>)
    requires Framed(s) && k + |data| < |s|
    requires data == s[k..k + |data|]
    ensures Incomplete(s[..k]) && Accumulate(s[..k], data) == More(s[..k + |data|])
  {
    PrefixIncomplete(s, k);
    PrefixIncomplete(s, k + |data|);
    assert s[..k] + data == s[..k + |data|];
  }

  lemma FramedIs(ss: seq<seq<byte>>, i: nat)
    requires AllFramed(ss) && i < |ss|
    ensures Framed(ss[i]) && |ss[i]| >= 3
  {
    hide Announced, LongForm;
    assert Framed(ss[i]);
  }

  /** The engine receives the next section of the list. */
  lemma ReceiveNext(e0: Engine, ss: seq<seq<byte>>, done: nat, e: Engine)
    requires done < |ss| && Expected(e0, ss, Position(done, 0), e)
    ensures |ss[done]| >= 3 && Expected(e0, ss, Position(done + 1, 0), e.Receive(ss[done]))
  {
    hide Sound, Framed;
    FramedIs(ss, done);
    WithinStart(ss, done + 1);
    FramedUpTo(ss, done + 1);
    assert ss[..done + 1][..done] == ss[..done];
  }

  // ---- One payload ----

  /** Some section that has been completed on the way fails its check. */
  ghost predicate SomeUnsound(ss: seq<seq<byte>>, from: nat, to: nat)
    requires AllFramed(ss) && to <= |ss|
  {
    exists i :: from <= i < to && UnsoundAt(ss, i)
  }

  predicate UnsoundAt(ss: seq<seq<byte>>, i: nat)
    requires AllFramed(ss) && i < |ss|
  {
    FramedIs(ss, i);
    !Sound(ss[i])
  }

  /** The code a legal payload draws. */
  ghost function CodeFor(ss: seq<seq<byte>>, from: nat, to: Position, start: bool): int
    requires AllFramed(ss) && to.done <= |ss|
  {
    if start && to.sent > 0 then 0 else if SomeUnsound(ss, from, to.done) then WARN_CRC_MISMATCH else 0
  }

  /** And the code section starts draw when `r` was there before. */
  ghost function StartsCode(ss: seq<seq<byte>>, from: nat, to: Position, r: int): int
    requires AllFramed(ss) && to.done <= |ss|
  {
    if to.sent > 0 then 0 else if SomeUnsound(ss, from, to.done) then WARN_CRC_MISMATCH else r
  }

  lemma CodeMore(ss: seq<seq<byte>>, i: nat, to: Position, r: int)
    requires AllFramed(ss) && i < to.done <= |ss|
    ensures StartsCode(ss, i, to, r) == StartsCode(ss, i + 1, to, if UnsoundAt(ss, i) then WARN_CRC_MISMATCH else r)
  {
    hide UnsoundAt;
    if SomeUnsound(ss, i, to.done) && !UnsoundAt(ss, i) {
      var k :| i <= k < to.done && UnsoundAt(ss, k);
      assert i + 1 <= k;
    }
  }

  lemma {:induction false} CarryStartsStep(e0: Engine, ss: seq<seq<byte>>, i: nat, data: seq<byte>, e: Engine, r: int)
    requires AllFramed(ss) && CarryStarts(ss, i, data).Some? && r >= 0
    requires i <= |ss| && Expected(e0, ss, Position(i, 0), e)
    ensures CarryStarts(ss, i, data).value.done >= i
    ensures Expected(e0, ss, CarryStarts(ss, i, data).value, e.Sections(data, r).0)
    ensures e.Sections(data, r).1 == StartsCode(ss, i, CarryStarts(ss, i, data).value, r)
    decreases |data|
  {
    hide Framed, Accumulate, Sound, Engine.Receive, Heard, StartsCode;
    var s := ss[i];
    FramedIs(ss, i);
    assert s[..0] == [];
    if |data| < |s| {
      AccumulateWaits(s, 0, data);
      assert e.Sections(data, r) == (e.(work := Some(data)), 0);
      StartsCodeMore(ss, i, Position(i, |data|), r);
    } else {
      assert s[0..] == s;
      AccumulateEnds(s, 0, data);
      ReceiveNext(e0, ss, i, e);
      var rest := data[|s|..];
      var r' := if UnsoundAt(ss, i) then WARN_CRC_MISMATCH else r;
      if |rest| == 0 || rest[0] == 0xff {
        CodeMore(ss, i, Position(i + 1, 0), r);
        StartsCodeNone(ss, i + 1, r');
      } else {
        CarryStartsStep(e0, ss, i + 1, rest, e.Receive(s), r');
        CodeMore(ss, i, CarryStarts(ss, i, data).value, r);
      }
    }
  }

  lemma StartsCodeMore(ss: seq<seq<byte>>, i: nat, to: Position, r: int)
    requires AllFramed(ss) && to.done <= |ss| && to.sent > 0
    ensures StartsCode(ss, i, to, r) == 0
  {
  }

  lemma StartsCodeNone(ss: seq<seq<byte>>, i: nat, r: int)
    requires AllFramed(ss) && i <= |ss|
    ensures StartsCode(ss, i, Position(i, 0), r) == r
  {
  }

  /** A payload, or the bytes before a section start, that ends the section under way. */
  lemma ExcludeEnds(e0: Engine, ss: seq<seq<byte>>, at: Position, data: seq<byte>, e: Engine)
    requires Within(ss, at) && Expected(e0, ss, at, e) && at.sent > 0
    requires |data| >= |ss[at.done]| - at.sent && data[..|ss[at.done]| - at.sent] == ss[at.done][at.sent..]
    ensures e.Sane() && Within(ss, Position(at.done + 1, 0))
    ensures Expected(e0, ss, Position(at.done + 1, 0), e.Exclude(data).0)
    ensures e.Exclude(data).1 == if UnsoundAt(ss, at.done) then WARN_CRC_MISMATCH else 0
  {
    hide Framed, Accumulate, Sound, Engine.Receive, Heard;
    var s := ss[at.done];
    FramedIs(ss, at.done);
    PrefixIncomplete(s, at.sent);
    AccumulateEnds(s, at.sent, data);
    var idle := e.(work := None);
    WithinStart(ss, at.done);
    assert Expected(e0, ss, Position(at.done, 0), idle);
    ReceiveNext(e0, ss, at.done, idle);
    WithinStart(ss, at.done + 1);
  }

  /** One legal payload keeps the engine in step with the position, and draws a warning only for a section it ends. */
  lemma CarryStep(e0: Engine, ss: seq<seq<byte>>, at: Position, p: Payload, e: Engine)
    requires AllFramed(ss) && Within(ss, at) && Expected(e0, ss, at, e) && Carry(ss, at, p).Some?
    ensures e.Sane() && |p.data| > 0
    ensures Expected(e0, ss, Carry(ss, at, p).value, e.Put(p.start, p.data).0)
    ensures Carry(ss, at, p).value.done <= |ss|
    ensures e.Put(p.start, p.data).1 == CodeFor(ss, at.done, Carry(ss, at, p).value, p.start)
  {
    hide Framed, Accumulate, Sound, Engine.Receive, Expected, CarryStarts, Engine.Sections, CodeFor, SomeUnsound;
    SaneWhenExpected(e0, ss, at, e);
    if at.sent > 0 && p.start {
      UnderWayStart(e0, ss, at, p, e);
    } else if at.sent > 0 {
      UnderWayRest(e0, ss, at, p, e);
    } else if p.start {
      var start := 1 + p.data[0] as nat;
      ExpectedWork(e0, ss, at, e);
      CarryStartsStep(e0, ss, at.done, p.data[start..], e, 0);
      CodesAgree(ss, at.done, Carry(ss, at, p).value, true);
    } else {
      ExpectedWork(e0, ss, at, e);
      CodesAgree(ss, at.done, at, false);
      NoneUnsound(ss, at.done);
    }
  }

  lemma CodesAgree(ss: seq<seq<byte>>, from: nat, to: Position, start: bool)
    requires AllFramed(ss) && to.done <= |ss|
    ensures start ==> CodeFor(ss, from, to, start) == StartsCode(ss, from, to, 0)
    ensures !start ==> CodeFor(ss, from, to, start) == if SomeUnsound(ss, from, to.done) then WARN_CRC_MISMATCH else 0
  {
    hide SomeUnsound;
  }

  lemma NoneUnsound(ss: seq<seq<byte>>, i: nat)
    requires AllFramed(ss) && i <= |ss|
    ensures !SomeUnsound(ss, i, i)
  {
  }

  lemma OneUnsound(ss: seq<seq<byte>>, i: nat)
    requires AllFramed(ss) && i < |ss|
    ensures SomeUnsound(ss, i, i + 1) <==> UnsoundAt(ss, i)
  {
    hide UnsoundAt;
  }

  lemma ExpectedWork(e0: Engine, ss: seq<seq<byte>>, at: Position, e: Engine)
    requires Within(ss, at) && Expected(e0, ss, at, e)
    ensures e.work == if at.sent == 0 then None else Some(ss[at.done][..at.sent])
  {
  }

  lemma SaneWhenExpected(e0: Engine, ss: seq<seq<byte>>, at: Position, e: Engine)
    requires Within(ss, at) && Expected(e0, ss, at, e)
    ensures e.Sane()
  {
    hide Framed, Heard;
    if at.sent > 0 {
      FramedIs(ss, at.done);
      PrefixIncomplete(ss[at.done], at.sent);
    }
  }

  lemma UnderWayStart(e0: Engine, ss: seq<seq<byte>>, at: Position, p: Payload, e: Engine)
    requires AllFramed(ss) && Within(ss, at) && Expected(e0, ss, at, e) && Carry(ss, at, p).Some?
    requires at.sent > 0 && p.start
    ensures e.Sane() && |p.data| > 0
    ensures Expected(e0, ss, Carry(ss, at, p).value, e.Include(p.data).0)
    ensures Carry(ss, at, p).value.done <= |ss|
    ensures e.Include(p.data).1 == CodeFor(ss, at.done, Carry(ss, at, p).value, true)
  {
    hide Framed, Accumulate, Sound, Engine.Receive, CarryStarts, Engine.Sections, Engine.Exclude, Expected, CodeFor,
      StartsCode, SomeUnsound, UnsoundAt;
    SaneWhenExpected(e0, ss, at, e);
    ExpectedWork(e0, ss, at, e);
    var rest := ss[at.done][at.sent..];
    var start := 1 + p.data[0] as nat;
    var front := p.data[1..start];
    assert front[..|rest|] == p.data[1..1 + |rest|];
    ExcludeEnds(e0, ss, at, front, e);
    ExpectedWork(e0, ss, Position(at.done + 1, 0), e.Exclude(front).0);
    var to := Carry(ss, at, p).value;
    CarryStartsStep(e0, ss, at.done + 1, p.data[start..], e.Exclude(front).0, e.Exclude(front).1);
    CodeMore(ss, at.done, to, 0);
    CodesAgree(ss, at.done, to, true);
  }

  lemma UnderWayRest(e0: Engine, ss: seq<seq<byte>>, at: Position, p: Payload, e: Engine)
    requires AllFramed(ss) && Within(ss, at) && Expected(e0, ss, at, e) && Carry(ss, at, p).Some?
    requires at.sent > 0 && !p.start
    ensures e.Sane() && |p.data| > 0
    ensures Expected(e0, ss, Carry(ss, at, p).value, e.Exclude(p.data).0)
    ensures Carry(ss, at, p).value.done <= |ss|
    ensures e.Exclude(p.data).1 == CodeFor(ss, at.done, Carry(ss, at, p).value, false)
  {
    hide Framed, Accumulate, Sound, Engine.Receive, Heard, SomeUnsound, UnsoundAt;
    SaneWhenExpected(e0, ss, at, e);
    var s := ss[at.done];
    FramedIs(ss, at.done);
    var rest := s[at.sent..];
    if |p.data| < |rest| {
      assert rest[..|p.data|] == s[at.sent..at.sent + |p.data|];
      AccumulateWaits(s, at.sent, p.data);
      NoneUnsound(ss, at.done);
    } else {
      ExcludeEnds(e0, ss, at, p.data, e);
      OneUnsound(ss, at.done);
    }
  }

  // ---- Runs ----

  /** The engine after a run of payloads, and whether every one of them was taken without a warning. */
  function Parse(e: Engine, ps: seq<Payload>): (r: (Engine, bool))
    requires e.Sane() && forall i :: 0 <= i < |ps| ==> |ps[i].data| > 0
    ensures r.0.Sane()
    decreases |ps|
  {
    if |ps| == 0 then (e, true)
    else
      var (e', code) := e.Put(ps[0].start, ps[0].data);
      var (e'', ok) := Parse(e', ps[1..]);
      (e'', ok && code == 0)
  }

  lemma {:induction false} CarryRun(e0: Engine, ss: seq<seq<byte>>, at: Position, ps: seq<Payload>, e: Engine)
    requires AllFramed(ss) && Within(ss, at) && Expected(e0, ss, at, e) && CarryAll(ss, at, ps).Some?
    ensures e.Sane() && forall i :: 0 <= i < |ps| ==> |ps[i].data| > 0
    ensures Expected(e0, ss, CarryAll(ss, at, ps).value, Parse(e, ps).0)
    ensures AllWellFormed(ss) ==> Parse(e, ps).1
    decreases |ps|
  {
    hide AllFramed, Framed, WellFormed, Expected, Carry, Engine.Put;
    SaneWhenExpected(e0, ss, at, e);
    if |ps| > 0 {
      CarryStep(e0, ss, at, ps[0], e);
      if AllWellFormed(ss) {
        NoCode(ss, at.done, Carry(ss, at, ps[0]).value, ps[0].start);
      }
      CarryRun(e0, ss, Carry(ss, at, ps[0]).value, ps[1..], e.Put(ps[0].start, ps[0].data).0);
    }
  }

  lemma NoCode(ss: seq<seq<byte>>, from: nat, to: Position, start: bool)
    requires AllWellFormed(ss) && to.done <= |ss|
    ensures CodeFor(ss, from, to, start) == 0
  {
    hide Framed, Sound;
    forall i | from <= i < to.done
      ensures !UnsoundAt(ss, i)
    {
      assert WellFormed(ss[i]);
    }
  }

  /**
   Reassembly undoes packetisation: after any legal run of payloads the queue has received exactly the sections sent
   in full, consecutive repeats removed, and nothing was counted as an error.
   */
  lemma ReassemblyUndoesPacketisation(ss: seq<seq<byte>>, ps: seq<Payload>)
    requires AllWellFormed(ss) && CarryAll(ss, Position(0, 0), ps).Some?
    ensures forall i :: 0 <= i < |ps| ==> |ps[i].data| > 0
    ensures var sent := CarryAll(ss, Position(0, 0), ps).value.done;
      sent <= |ss| && Uniques(Parse(NEW_ENGINE, ps).0.log) == Dedup(ss[..sent])
    ensures Errors(Parse(NEW_ENGINE, ps).0.log) == 0 && Parse(NEW_ENGINE, ps).1
  {
    hide AllFramed, Framed, WellFormed, CarryAll, Parse, Heard, News, Unsound, LastSound;
    StartExpected(NEW_ENGINE, ss);
    CarryRun(NEW_ENGINE, ss, Position(0, 0), ps, NEW_ENGINE);
    var at := CarryAll(ss, Position(0, 0), ps).value;
    WellFormedUpTo(ss, at.done);
    HeardIs(NEW_ENGINE, ss[..at.done]);
    NewsIsDedup(ss[..at.done]);
    assert Uniques(NEW_ENGINE.log) == [] && Errors(NEW_ENGINE.log) == 0;
  }

  lemma WellFormedUpTo(ss: seq<seq<byte>>, n: nat)
    requires AllWellFormed(ss) && n <= |ss|
    ensures AllWellFormed(ss[..n])
  {
    hide Framed, WellFormed;
  }

  lemma StartExpected(e0: Engine, ss: seq<seq<byte>>)
    requires AllFramed(ss) && e0.work.None?
    ensures Within(ss, Position(0, 0)) && Expected(e0, ss, Position(0, 0), e0)
  {
    WithinStart(ss, 0);
    assert ss[..0] == [];
  }

  // ---- A packetiser ----

  function Stuffing(n: nat): (r: seq<byte>)
    ensures |r| == n
  {
    seq(n, _ => 0xff)
  }

  /** `room` bytes of sections from section `i` on, cut or stuffed at the end. */
  function Fill(ss: seq<seq<byte>>, i: nat, room: nat): (r: seq<byte>)
    ensures |r| == room
    decreases |ss| - i
  {
    if i >= |ss| then Stuffing(room)
    else if |ss[i]| > room then ss[i][..room]
    else ss[i] + Fill(ss, i + 1, room - |ss[i]|)
  }

  function FillEnd(ss: seq<seq<byte>>, i: nat, room: nat): Position
    decreases |ss| - i
  {
    if room == 0 || i >= |ss| then Position(i, 0)
    else if |ss[i]| > room then Position(i, room)
    else FillEnd(ss, i + 1, room - |ss[i]|)
  }

  lemma NextByte(b: byte)
    requires b != 0xff
    ensures (b + 1) as nat == b as nat + 1
  {
  }

  /** The byte with value `n`. */
  function ByteOf(n: nat): (b: byte)
    requires n < 256
    ensures b as nat == n
  {
    if n == 0 then 0
    else
      NextByte(ByteOf(n - 1));
      ByteOf(n - 1) + 1
  }

  /** The next payload of `size` bytes: the section under way, then, when there is room, section starts. */
  function NextPayload(ss: seq<seq<byte>>, at: Position, size: nat): (r: (Payload, Position))
    requires Within(ss, at) && at.done < |ss| && size >= 2
    ensures |r.0.data| == size
  {
    if at.sent == 0 then (Payload(true, [0] + Fill(ss, at.done, size - 1)), FillEnd(ss, at.done, size - 1))
    else
      var rest := ss[at.done][at.sent..];
      if |rest| > size then (Payload(false, rest[..size]), Position(at.done, at.sent + size))
      else if |rest| + 2 > size || |rest| > 255 || at.done + 1 == |ss| then
        (Payload(false, rest + Stuffing(size - |rest|)), Position(at.done + 1, 0))
      else
        var room := size - 1 - |rest|;
        (Payload(true, [ByteOf(|rest|)] + rest + Fill(ss, at.done + 1, room)), FillEnd(ss, at.done + 1, room))
  }

  lemma {:induction false} FillLegal(ss: seq<seq<byte>>, i: nat, room: nat)
    requires AllFramed(ss) && i < |ss| && room > 0
    ensures CarryStarts(ss, i, Fill(ss, i, room)) == Some(FillEnd(ss, i, room))
    ensures FillEnd(ss, i, room).done > i || (FillEnd(ss, i, room).done == i && FillEnd(ss, i, room).sent > 0)
    decreases |ss| - i
  {
    hide Framed;
    var s, data := ss[i], Fill(ss, i, room);
    FramedIs(ss, i);
    if |s| <= room {
      var rest := Fill(ss, i + 1, room - |s|);
      assert data[..|s|] == s && data[|s|..] == rest;
      if room > |s| && i + 1 < |ss| {
        FirstByte(ss, i + 1, room - |s|);
        FillLegal(ss, i + 1, room - |s|);
      }
    }
  }

  lemma FirstByte(ss: seq<seq<byte>>, i: nat, room: nat)
    requires AllFramed(ss) && i < |ss| && room > 0
    ensures Fill(ss, i, room)[0] != 0xff
  {
    hide Announced, LongForm;
    assert Framed(ss[i]);
  }

  /** Every payload the packetiser makes is legal and moves the position forward. */
  lemma PayloadLegal(ss: seq<seq<byte>>, at: Position, size: nat)
    requires AllFramed(ss) && Within(ss, at) && at.done < |ss| && size >= 2
    ensures var (p, next) := NextPayload(ss, at, size);
      && Carry(ss, at, p) == Some(next)
      && (next.done > at.done || (next.done == at.done && next.sent > at.sent))
  {
    hide Framed, Fill, FillEnd, CarryStarts, ByteOf;
    var (p, next) := NextPayload(ss, at, size);
    if at.sent == 0 {
      FillLegal(ss, at.done, size - 1);
      assert p.data[1..] == Fill(ss, at.done, size - 1);
    } else {
      var rest := ss[at.done][at.sent..];
      if |rest| <= size && !p.start {
        assert p.data[..|rest|] == rest;
      } else if p.start {
        var room := size - 1 - |rest|;
        FillLegal(ss, at.done + 1, room);
        assert p.data[1..1 + |rest|] == rest;
        assert p.data[1 + |rest|..] == Fill(ss, at.done + 1, room);
      } else {
        assert p.data == rest[..|p.data|];
      }
    }
  }

  function Packetise(ss: seq<seq<byte>>, at: Position, size: nat): (ps: seq<Payload>)
    requires AllFramed(ss) && Within(ss, at) && size >= 2
    ensures forall i :: 0 <= i < |ps| ==> |ps[i].data| == size
    decreases |ss| - at.done, if at.done < |ss| then |ss[at.done]| - at.sent else 0
  {
    if at.done >= |ss| then []
    else
      PayloadLegal(ss, at, size);
      var (p, next) := NextPayload(ss, at, size);
      [p] + Packetise(ss, next, size)
  }

  lemma {:induction false} PacketiseLegal(ss: seq<seq<byte>>, at: Position, size: nat)
    requires AllFramed(ss) && Within(ss, at) && size >= 2
    ensures CarryAll(ss, at, Packetise(ss, at, size)) == Some(Position(|ss|, 0))
    decreases |ss| - at.done, if at.done < |ss| then |ss[at.done]| - at.sent else 0
  {
    hide Framed, Carry, NextPayload;
    if at.done < |ss| {
      PayloadLegal(ss, at, size);
      var (p, next) := NextPayload(ss, at, size);
      PacketiseLegal(ss, next, size);
      assert ([p] + Packetise(ss, next, size))[1..] == Packetise(ss, next, size);
    }
  }

  /** For any list of well-formed sections and every payload size, parsing what the packetiser sends gives the list. */
  lemma RoundTrip(ss: seq<seq<byte>>, size: nat)
    requires AllWellFormed(ss) && size >= 2
    ensures Uniques(Parse(NEW_ENGINE, Packetise(ss, Position(0, 0), size)).0.log) == Dedup(ss)
    ensures Parse(NEW_ENGINE, Packetise(ss, Position(0, 0), size)).1
  {
    hide Framed, WellFormed, CarryAll, Packetise, Parse, Dedup, Uniques;
    WithinStart(ss, 0);
    PacketiseLegal(ss, Position(0, 0), size);
    ReassemblyUndoesPacketisation(ss, Packetise(ss, Position(0, 0), size));
    assert ss[..|ss|] == ss;
  }
}
