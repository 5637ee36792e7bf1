/**
 The section engine after lost packets: whatever is under way when a payload with a section start comes, the sections
 that start there are heard, and from there on the engine is in step with the sender again.
 */
module SectionRecovery {
  import opened Prelude
  import opened Bytes
  import opened Crc32
  import opened SectionEngine
  import opened SectionPackets

  // ---- What sections look like ----

  /** A section from its table_id, the flags in front of the length, the length's two parts, and what follows. */
  function Section(tableId: byte, flags: byte, high: byte, low: byte, body: seq<byte>): seq<byte> {
    [tableId, flags | high, low] + body
  }

  lemma LengthBits(flags: byte, high: byte)
    requires flags & 0x0f == 0 && high < 0x10
    ensures (flags | high) & 0x80 == flags & 0x80 && (flags | high) & 0x0f == high
  {
  }

  /** Both are read back. */
  lemma SectionRead(tableId: byte, flags: byte, high: byte, low: byte, body: seq<byte>)
    requires flags & 0x0f == 0 && high < 0x10
    ensures var s := Section(tableId, flags, high, low, body);
      Announced(s) == 3 + high as nat * 256 + low as nat && LongForm(s) == (flags & 0x80 != 0)
  {
    LengthBits(flags, high);
  }

  /** A long section is sound exactly when its last four bytes are the checksum of the rest; a short one always is. */
  lemma SoundWhen(tableId: byte, flags: byte, high: byte, low: byte, body: seq<byte>)
    requires flags & 0x0f == 0 && high < 0x10 && |body| >= 4
    ensures var s := Section(tableId, flags, high, low, body);
      Sound(s) <==> flags & 0x80 == 0 || LoadBe(s, |s| - 4) == Crc(s[..|s| - 4])
  {
    hide Crc, LoadBe, Announced;
    SectionRead(tableId, flags, high, low, body);
    hide LongForm;
    Residue(Section(tableId, flags, high, low, body));
  }

  /** A short section needs only the right length; a long one carries its checksum in its last four bytes. */
  lemma SectionsAreWellFormed(tableId: byte, flags: byte, high: byte, low: byte, body: seq<byte>)
    requires flags & 0x0f == 0 && high < 0x10 && tableId != 0xff
    ensures flags & 0x80 == 0 && |body| == high as nat * 256 + low as nat ==>
      WellFormed(Section(tableId, flags, high, low, body))
    ensures flags & 0x80 != 0 && |body| >= 1 && |body| + 4 == high as nat * 256 + low as nat ==>
      WellFormed(Section(tableId, flags, high, low, body + StoreBe(Crc(Section(tableId, flags, high, low, body)))))
  {
    hide Crc, LoadBe, StoreBe, Announced, LongForm;
    var head := Section(tableId, flags, high, low, body);
    var tail := StoreBe(Crc(head));
    SectionRead(tableId, flags, high, low, body);
    SectionRead(tableId, flags, high, low, body + tail);
    var s := Section(tableId, flags, high, low, body + tail);
    assert s == head + tail && s[..|s| - 4] == head;
    LoadStoreBe(Crc(head));
    TailLoaded(s, tail);
    Residue(s);
  }

  lemma TailLoaded(s: seq<byte>, tail: seq<byte>)
    requires |s| >= 4 && |tail| == 4 && s[|s| - 4..] == tail
    ensures LoadBe(s, |s| - 4) == LoadBe(tail, 0)
  {
    hide Join;
    var n := |s| - 4;
    assert s[n] == s[n..][0] && s[n + 1] == s[n..][1] && s[n + 2] == s[n..][2] && s[n + 3] == s[n..][3];
  }

  // ---- A payload that goes on with the section under way ----

  lemma FilledIs(w: seq<byte>, data: seq<byte>)
    requires Incomplete(w)
    ensures |w| <= MAX_RAW_SECTION_SIZE
    ensures Incomplete(w + data) ==> Filled(w, data) == w + data
    ensures !Incomplete(w + data) ==>
      && |w + data| >= 3 && Announced(w + data) <= |w + data|
      && Accumulate(w, data) == Done((w + data)[..Announced(w + data)])
  {
    IncompleteIsShort(w);
    var full, all := Filled(w, data), w + data;
    if |all| > MAX_RAW_SECTION_SIZE {
      assert full == all[..MAX_RAW_SECTION_SIZE];
      SameHeader(full, all);
      hide Announced, LongForm;
      assert full[..Announced(all)] == all[..Announced(all)];
    } else {
      assert full == all;
    }
  }

  /**
   Bytes behind the part of a section there is: they are kept as long as the section is not complete, and when it is,
   the section is cut to its length and received. The size of the buffer never shows.
   */
  lemma GoesOn(e: Engine, data: seq<byte>)
    requires e.Sane() && |data| >= 1
    ensures e.work.None? ==> e.Put(false, data) == (e, 0)
    ensures e.work.Some? && Incomplete(e.work.value + data) ==>
      e.Put(false, data) == (Engine(Some(e.work.value + data), e.last, e.log), 0)
    ensures e.work.Some? && !Incomplete(e.work.value + data) ==>
      var full := e.work.value + data;
      && |full| >= Announced(full)
      && e.Put(false, data) == (Engine(None, e.last, e.log).Receive(full[..Announced(full)]),
                                if Sound(full[..Announced(full)]) then 0 else 1)
  {
    hide Incomplete, Announced, Sound, Engine.Receive;
    if e.work.Some? {
      FilledIs(e.work.value, data);
    }
  }

  // ---- A payload with a section start ----

  /** The engine when the bytes in front of a section start have been read: what was under way has ended or is lost. */
  function Ready(e: Engine, front: seq<byte>): (r: Engine)
    requires e.Sane()
    ensures r.work.None?
  {
    if e.work.None? then e
    else
      var full := e.work.value + front;
      if Incomplete(full) then Engine(None, e.last, e.log + [Truncated(full)])
      else
        FilledIs(e.work.value, front);
        Engine(None, e.last, e.log).Receive(full[..Announced(full)])
  }

  /** The warning that goes with it: 2 for a lost section, 1 for one that has ended and is not sound. */
  function ReadyCode(e: Engine, front: seq<byte>): int
    requires e.Sane()
  {
    if e.work.None? then 0
    else if Incomplete(e.work.value + front) then 2
    else
      FilledIs(e.work.value, front);
      if Sound((e.work.value + front)[..Announced(e.work.value + front)]) then 0 else 1
  }

  lemma IncludeIs(e: Engine, data: seq<byte>)
    requires e.Sane() && |data| >= 1 && 1 + data[0] as nat < |data|
    ensures var start := 1 + data[0] as nat;
      e.Put(true, data) == Ready(e, data[1..start]).Sections(data[start..], ReadyCode(e, data[1..start]))
  {
    hide Incomplete, Announced, Sound, Engine.Receive, Engine.Sections;
    var start := 1 + data[0] as nat;
    var front := data[1..start];
    if e.work.Some? {
      FilledIs(e.work.value, front);
      assert e.work.value + [] == e.work.value;
    }
  }

  /**
   Whatever is under way when a payload comes in which the sections of a list start: the engine hears them, behind the
   bytes in front of the start, and holds the beginning of the next.
   */
  lemma Recovers(e: Engine, ss: seq<seq<byte>>, data: seq<byte>)
    requires e.Sane() && |data| >= 1 && 1 + data[0] as nat < |data|
    requires AllFramed(ss) && CarryStarts(ss, 0, data[1 + data[0] as nat..]).Some?
    ensures var start := 1 + data[0] as nat;
      var at, ready := CarryStarts(ss, 0, data[start..]).value, Ready(e, data[1..start]);
      && Expected(ready, ss, at, e.Put(true, data).0)
      && at.done <= |ss|
      && e.Put(true, data).1 == StartsCode(ss, 0, at, ReadyCode(e, data[1..start]))
  {
    hide Framed, CarryStarts, Ready, ReadyCode, Engine.Sections, Engine.Put, Expected, StartsCode;
    IncludeIs(e, data);
    var start := 1 + data[0] as nat;
    var ready := Ready(e, data[1..start]);
    CodeIsCode(e, data[1..start]);
    StartExpected(ready, ss);
    CarryStartsStep(ready, ss, 0, data[start..], ready, ReadyCode(e, data[1..start]));
  }

  lemma CodeIsCode(e: Engine, front: seq<byte>)
    requires e.Sane()
    ensures ReadyCode(e, front) >= 0
  {
    hide Incomplete, Announced, Sound;
  }

  /** What has been queued, counted and kept since, and what is under way. */
  ghost predicate Since(ready: Engine, ss: seq<seq<byte>>, at: Position, e: Engine)
    requires AllFramed(ss) && Within(ss, at)
  {
    && at.done <= |ss| && AllFramed(ss[..at.done])
    && Uniques(e.log) == Uniques(ready.log) + News(ready.last, ss[..at.done])
    && Errors(e.log) == Errors(ready.log) + Unsound(ss[..at.done])
    && |e.log| == |ready.log| + at.done
    && e.last == LastSound(ready.last, ss[..at.done])
    && e.work == if at.sent == 0 then None else Some(ss[at.done][..at.sent])
  }

  lemma ExpectedIsSince(ready: Engine, ss: seq<seq<byte>>, at: Position, e: Engine)
    requires AllFramed(ss) && Within(ss, at) && Expected(ready, ss, at, e)
    ensures Since(ready, ss, at, e)
  {
    hide Framed, News, LastSound, Unsound, Uniques, Errors, Heard;
    HeardIs(ready, ss[..at.done]);
  }

  /**
   Recovery. Whatever has happened before, let a payload come in which the sections of a list start, and then any legal
   payloads with the rest of them: the queue receives exactly the new ones among those sent in full, each of the unsound
   ones is counted as an error, and the engine holds what has been sent of the next. When all are sound there is no
   warning after the first payload.
   */
  lemma RecoversAndGoesOn(e: Engine, ss: seq<seq<byte>>, data: seq<byte>, ps: seq<Payload>)
    requires e.Sane() && |data| >= 1 && 1 + data[0] as nat < |data|
    requires AllFramed(ss) && CarryStarts(ss, 0, data[1 + data[0] as nat..]).Some?
    requires CarryAll(ss, CarryStarts(ss, 0, data[1 + data[0] as nat..]).value, ps).Some?
    ensures forall i :: 0 <= i < |ps| ==> |ps[i].data| > 0
    ensures var start := 1 + data[0] as nat;
      var to := CarryAll(ss, CarryStarts(ss, 0, data[start..]).value, ps).value;
      && Since(Ready(e, data[1..start]), ss, to, Parse(e.Put(true, data).0, ps).0)
      && (AllWellFormed(ss) ==> Parse(e.Put(true, data).0, ps).1)
  {
    hide AllFramed, Framed, WellFormed, CarryStarts, CarryAll, Parse, Ready, Engine.Put, Expected, Since;
    Recovers(e, ss, data);
    var start := 1 + data[0] as nat;
    var at, ready := CarryStarts(ss, 0, data[start..]).value, Ready(e, data[1..start]);
    CarryRun(ready, ss, at, ps, e.Put(true, data).0);
    ExpectedIsSince(ready, ss, CarryAll(ss, at, ps).value, Parse(e.Put(true, data).0, ps).0);
  }

  /**
   With the start right at the front of the payload a section under way is lost: that is one error and the length
   warning, unless a section in the payload draws its own. Everything else is as if it had not been there.
   */
  lemma RecoversAtOnce(e: Engine, ss: seq<seq<byte>>, data: seq<byte>)
    requires e.Sane() && |data| >= 2 && data[0] == 0
    requires AllFramed(ss) && CarryStarts(ss, 0, data[1..]).Some?
    ensures var (e', r) := e.Put(true, data);
      var at := CarryStarts(ss, 0, data[1..]).value;
      && at.done <= |ss| && AllFramed(ss[..at.done])
      && Uniques(e'.log) == Uniques(e.log) + News(e.last, ss[..at.done])
      && Errors(e'.log) == Errors(e.log) + Unsound(ss[..at.done]) + (if e.work.Some? then 1 else 0)
      && e'.last == LastSound(e.last, ss[..at.done])
      && e'.work == (if at.sent == 0 then None else Some(ss[at.done][..at.sent]))
      && r == if at.sent > 0 then 0
              else if exists i :: 0 <= i < at.done && UnsoundAt(ss, i) then 1
              else if e.work.Some? then 2 else 0
  {
    hide Framed, CarryStarts, Engine.Put, Expected, News, Unsound, LastSound, Uniques, Errors, UnsoundAt, Ready,
      ReadyCode;
    assert 1 + data[0] as nat == 1;
    Recovers(e, ss, data);
    var at := CarryStarts(ss, 0, data[1..]).value;
    assert data[1..1] == [];
    ExpectedIsSince(Ready(e, []), ss, at, e.Put(true, data).0);
    NothingInFront(e);
  }

  lemma NothingInFront(e: Engine)
    requires e.Sane()
    ensures Uniques(Ready(e, []).log) == Uniques(e.log) && Ready(e, []).last == e.last
    ensures Errors(Ready(e, []).log) == Errors(e.log) + if e.work.Some? then 1 else 0
    ensures ReadyCode(e, []) == if e.work.Some? then 2 else 0
  {
    hide Uniques, Errors, Repeats, Incomplete;
    if e.work.Some? {
      assert e.work.value + [] == e.work.value;
      LogGrows(e.log, Truncated(e.work.value));
    }
  }

  /** With bytes in front that end the section under way, that section counts as one more in front of the others. */
  lemma RecoversBehind(e: Engine, s: seq<byte>, k: nat, front: seq<byte>)
    requires Framed(s) && 0 < k < |s| && e.work == Some(s[..k]) && |front| >= |s| - k && front[..|s| - k] == s[k..]
    ensures e.Sane() && AllFramed([s]) && Ready(e, front) == Heard(e, [s])
    ensures ReadyCode(e, front) == if Sound(s) then 0 else 1
  {
    hide Sound, Announced, LongForm, Engine.Receive;
    AccumulateEnds(s, k, front);
    FilledIs(s[..k], front);
    var full := s[..k] + front;
    if Incomplete(full) {
      assert false;
    }
    assert full[..|s|] == s;
    assert [s][..0] == [];
    FramedFront([s]);
  }

  /** A pointer_field beyond the payload only gives up the section under way. */
  lemma PointsBeyond(e: Engine, data: seq<byte>)
    requires e.Sane() && |data| >= 1 && 1 + data[0] as nat >= |data|
    ensures e.Put(true, data) == if e.work.None? then (e, 0)
      else (Engine(None, e.last, e.log + [Truncated(e.work.value)]), 2)
  {
  }
}
