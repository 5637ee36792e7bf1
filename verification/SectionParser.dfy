/**
 The section parser object: section buffers that move between the assembly slot, the queue and a pool, with a count
 of who still needs each one. The effect on section contents is that of the engine in `SectionEngine`; the invariant
 adds which buffers may be reused.
 */
module SectionParser {
  import opened Prelude
  import opened Bytes
  import opened Crc32
  import opened SectionEngine
  import opened SectionStore

  const OK := 0

  const INVALID_PARAM := -1

  const INVALID_TS_PID := -3

  const NO_SECTION_DATA := -4

  /** A section buffer: the bytes held, where the section body starts (zero: not known yet), and the count. */
  class Elem {
    var raw: seq<byte>
    var data: nat
    var ref: int
    ghost var place: Place

    constructor ()
      ensures raw == [] && data == 0 && ref == 0 && place == Hand
    {
      raw, data, ref, place := [], 0, 0, Hand;
    }

    /** `reset_section`. */
    method Reset()
      modifies this
      ensures raw == [] && data == 0 && ref == old(ref) && place == old(place)
    {
      raw, data := [], 0;
    }

    /** A buffer being filled: unfinished, and its header has been read as soon as it could be. */
    ghost predicate Filling()
      reads this
    {
      Incomplete(raw) && (data != 0 <==> HeaderKnown(raw))
    }

    /** `append_section_data`, then `check_section_complete`. */
    method Append(more: seq<byte>) returns (complete: bool)
      requires Filling()
      modifies this
      ensures ref == old(ref) && place == old(place)
      ensures complete == Accumulate(old(raw), more).Done?
      ensures complete ==> raw == Accumulate(old(raw), more).section && data != 0
      ensures !complete ==> raw == Accumulate(old(raw), more).raw && Filling()
    {
      hide Announced, LongForm;
      IncompleteIsShort(raw);
      var n := MAX_RAW_SECTION_SIZE - |raw|;
      if |more| < n {
        n := |more|;
      }
      raw := raw + more[..n];
      assert raw == Filled(old(raw), more);
      if HeaderKnown(old(raw)) {
        SameHeader(old(raw), raw);
      }
      if data == 0 {
        ExtractHeader();
      }
      if data == 0 {
        return false;
      }
      var size := Announced(raw);
      if |raw| > size {
        raw := raw[..size];
      }
      complete := |raw| >= size;
    }

    /** `extract_ts_section_header`: the body starts behind three or eight header bytes. */
    method ExtractHeader()
      modifies this
      ensures raw == old(raw) && ref == old(ref) && place == old(place)
      ensures data == if !HeaderKnown(raw) then 0 else if LongForm(raw) then 8 else 3
    {
      data := 0;
      if |raw| < 3 {
        return;
      }
      if !LongForm(raw) {
        data := 3;
      } else if |raw| >= 8 {
        data := 8;
      }
    }
  }

  ghost function Maybe(e: Elem?): Option<Elem> {
    if e == null then None else var present: Elem := e; Some(present)
  }

  /** What `get` hands out: the buffer and where its body starts. */
  datatype Handle = Handle(elem: Elem?, data: nat)

  class TsSectionParser {
    var pid: int
    var work: Elem?
    var last: Elem?
    var pool: seq<Elem>
    var buff: seq<Elem>
    var total: int
    var unique: int
    var error: int
    /** The contents, as the engine has them. */
    ghost var engine: Engine
    /** How many sections have been got. */
    ghost var taken: nat
    /** The buffers on loan, with what they held when they were got. */
    ghost var lent: map<Elem, Loan>
    /** Every buffer allocated. */
    ghost var repr: set<Elem>
    /** The most sections ever queued and on loan at once. */
    ghost var peak: nat

    ghost function View(): Store<Elem>
      reads `pool, `buff, `last, `lent, `repr, `engine, `taken, `total, `unique, `error, `peak, repr
    {
      Store(pool, buff, Maybe(last), lent,
            map e | e in repr :: Cell(e.raw, e.data, e.ref, e.place),
            engine, taken, Tally(total, unique, error), peak)
    }

    /** The invariant between calls. The assembly buffer is the one in hand. */
    ghost predicate Valid()
      reads this, repr
    {
      && (work != null ==> work in repr && |work.raw| > 0 && work.Filling())
      && View().Inv(Maybe(work))
      && engine.work == (if work == null then None else Some(work.raw))
    }

    /** The peak is what it was, or the demand now, which has not fallen. */
    ghost predicate Raised(before: nat, queued: nat)
      reads `peak, `buff, `lent
    {
      |buff| >= queued && peak == if before < |buff| + |lent| then |buff| + |lent| else before
    }

    constructor ()
      ensures Valid() && engine == NEW_ENGINE && taken == 0 && lent == map[] && repr == {} && pid == -1 && peak == 0
    {
      pid, work, last, pool, buff, total, unique, error := -1, null, null, [], [], 0, 0, 0;
      engine, taken, lent, repr, peak := NEW_ENGINE, 0, map[], {}, 0;
    }

    // ---- Buffers in hand ----

    /** `reset_section` and back to the pool, which every cancellation starts with. */
    method Discard(w: Elem)
      requires View().Inv(Some(w)) && w in repr
      modifies this`pool, w
      ensures View() == old(View()).Discarded(w) && View().Inv(None)
    {
      hide Store.Inv, Store.Listed, Store.Counted, Store.Queued, Store.Kept, Store.Tallied, Store.Holds;
      View().DiscardKeeps(w);
      w.Reset();
      w.ref := 0;
      w.place := Pool;
      pool := pool + [w];
    }

    /** `cancel_elem_error`. */
    method CancelError(w: Elem, ghost why: Event)
      requires View().Inv(Some(w)) && w in repr && (why.BadCrc? || why.Truncated?)
      modifies this`pool, this`total, this`error, this`engine, w
      ensures View().Inv(None) && engine == old(engine).(log := old(engine).log + [why])
    {
      hide Store.Inv, Store.Listed, Store.Counted, Store.Queued, Store.Kept, Store.Tallied, Store.Holds;
      Discard(w);
      ghost var v := View();
      v.LogKeeps(why, None);
      total, error := total + 1, error + 1;
      engine := engine.(log := engine.log + [why]);
      assert View() == v.Logged(why);
    }

    /** `cancel_elem_same`. */
    method CancelSame(w: Elem)
      requires View().Inv(Some(w)) && w in repr
      modifies this`pool, this`total, this`engine, w
      ensures View().Inv(None) && engine == old(engine).(log := old(engine).log + [Repeat(old(w.raw))])
    {
      hide Store.Inv, Store.Listed, Store.Counted, Store.Queued, Store.Kept, Store.Tallied, Store.Holds;
      ghost var e := Repeat(w.raw);
      Discard(w);
      ghost var v := View();
      v.LogKeeps(e, None);
      total := total + 1;
      engine := engine.(log := engine.log + [e]);
      assert View() == v.Logged(e);
    }

    /** The repeat buffer is needed by one party less. */
    method ReleaseLast()
      requires last != null ==> last in repr
      modifies last
      ensures View() == old(View()).(cells := old(View()).Released())
    {
      if last != null && last.ref > 0 {
        last.ref := last.ref - 1;
      }
    }

    method CountUnique(ghost section: seq<byte>)
      modifies this`total, this`unique, this`engine
      ensures View() == old(View()).Logged(Unique(section))
    {
      total, unique := total + 1, unique + 1;
      engine := engine.(log := engine.log + [Unique(section)]);
    }

    method MarkQueued(w: Elem)
      requires w in repr
      modifies w
      ensures View() == old(View()).Rated(w, 2, Queue) && w.raw == old(w.raw)
    {
      w.ref := 2;
      w.place := Queue;
    }

    method Enqueue(w: Elem)
      requires w in repr
      modifies this`last, this`buff, this`engine, this`peak
      ensures View() == old(View()).Enqueued(w)
      ensures engine == old(engine).(last := Some(w.raw)) && Raised(old(peak), old(|buff|))
    {
      hide Store.Inv, Distinct, Uniques;
      ghost var v := View();
      last, buff := w, buff + [w];
      engine, peak := engine.(last := Some(w.raw)), if peak < |buff| + |lent| then |buff| + |lent| else peak;
      assert View().cells == v.cells;
    }

    /** `commit_elem_updated`: queues a new section and makes it the one repeats are compared with. */
    method Commit(w: Elem)
      requires View().Inv(Some(w)) && w in repr && w.data != 0
      requires last != null ==> last in repr && last != w
      modifies this`last, this`buff, this`total, this`unique, this`engine, this`peak, w, last
      ensures View().Inv(None) && Raised(old(peak), old(|buff|))
      ensures engine == old(engine).(log := old(engine).log + [Unique(old(w.raw))], last := Some(old(w.raw)))
    {
      hide Store.Inv, Store.Listed, Store.Counted, Store.Queued, Store.Kept, Store.Tallied, Store.Holds;
      View().CommitKeeps(w);
      ReleaseLast();
      hide Store.Enqueued, Store.Rated;
      CountUnique(w.raw);
      MarkQueued(w);
      Enqueue(w);
    }

    /** The search of `query_work_elem`: the first pool buffer nobody needs. */
    method FirstFree() returns (i: nat)
      ensures i <= |pool|
      ensures if i < |pool| then pool[i].ref < 1 else forall k :: 0 <= k < |pool| ==> pool[k].ref >= 1
    {
      i := 0;
      while i < |pool| && pool[i].ref >= 1
        invariant 0 <= i <= |pool|
        invariant forall k :: 0 <= k < i ==> pool[k].ref >= 1
      {
        i := i + 1;
      }
    }

    method Allocate() returns (w: Elem)
      requires View().Inv(None) && forall k :: 0 <= k < |pool| ==> pool[k] in repr && pool[k].ref >= 1
      modifies this`repr
      ensures View().Inv(Some(w)) && w in repr && w.raw == [] && w.data == 0
      ensures fresh(repr - old(repr))
    {
      hide Store.Inv, Store.Listed, Store.Counted, Store.Queued, Store.Kept, Store.Tallied, Store.Holds;
      View().NoneFree();
      w := new Elem();
      View().AllocateKeeps(w);
      repr := repr + {w};
      assert View() == old(View()).Rewritten(w, [], 0);
    }

    /** `query_work_elem`: a pool buffer nobody needs, else a new one. */
    method QueryWork() returns (w: Elem)
      requires View().Inv(None)
      modifies this`pool, this`repr, repr
      ensures View().Inv(Some(w)) && w in repr && w.raw == [] && w.data == 0
      ensures fresh(repr - old(repr))
    {
      hide Store.Inv, Store.Listed, Store.Counted, Store.Queued, Store.Kept, Store.Tallied, Store.Holds;
      var i := FirstFree();
      PoolAllocated(None);
      if i < |pool| {
        w := TakeFree(i);
      } else {
        w := Allocate();
      }
    }

    method TakeFree(i: nat) returns (w: Elem)
      requires View().Inv(None) && i < |pool| && pool[i] in repr && pool[i].ref < 1
      modifies this`pool, pool[i]
      ensures View().Inv(Some(w)) && w in repr && w.raw == [] && w.data == 0
    {
      hide Store.Inv, Store.Listed, Store.Counted, Store.Queued, Store.Kept, Store.Tallied, Store.Holds;
      w := pool[i];
      View().TakeKeeps(i);
      pool := pool[..i] + pool[i + 1..];
      w.Reset();
      w.ref := 0;
      w.place := Hand;
      assert View() == old(View()).Taken(i);
    }

    lemma PoolAllocated(held: Option<Elem>)
      requires View().Inv(held)
      ensures forall i :: 0 <= i < |pool| ==> pool[i] in repr
    {
      hide Distinct, Uniques, Errors;
    }

    lemma LastIs(held: Option<Elem>)
      requires View().Inv(held)
      ensures last != null ==> last in repr && held != Maybe(last)
      ensures engine.last == if last == null then None else Some(last.raw)
    {
      hide Distinct, Uniques, Errors;
    }

    lemma DemandIs(held: Option<Elem>)
      requires View().Inv(held)
      ensures Raised(peak, |buff|)
    {
      hide Distinct, Uniques, Errors;
    }

    lemma HandIs(w: Elem)
      requires View().Inv(Some(w))
      ensures w in repr && w.ref == 0 && w.place == Hand
    {
      hide Distinct, Uniques, Errors;
    }

    // ---- Payloads ----

    /** A completed section: checked, compared with the last one, queued or dropped. */
    method Finish(w: Elem) returns (code: int)
      requires View().Inv(Some(w)) && w in repr && w.data != 0 && |w.raw| >= 3
      modifies this`last, this`pool, this`buff, this`total, this`unique, this`error, this`engine, this`peak, repr
      ensures View().Inv(None) && engine == old(engine).Receive(old(w.raw)) && Raised(old(peak), old(|buff|))
      ensures code == if Sound(old(w.raw)) then 0 else WARN_CRC_MISMATCH
    {
      hide Store.Inv, Store.Listed, Store.Counted, Store.Queued, Store.Kept, Store.Tallied, Store.Holds, LongForm, Crc;
      LastIs(Some(w));
      DemandIs(Some(w));
      if LongForm(w.raw) {
        var crc := Checksum(w.raw);
        if crc != 0 {
          CancelError(w, BadCrc(w.raw));
          return WARN_CRC_MISMATCH;
        }
      }
      if last != null && |w.raw| == |last.raw| && w.raw == last.raw {
        CancelSame(w);
      } else {
        Commit(w);
      }
      code := 0;
    }

    method Fill(w: Elem, data: seq<byte>) returns (complete: bool)
      requires View().Inv(Some(w)) && w in repr && w.Filling()
      modifies w
      ensures View().Inv(Some(w)) && complete == Accumulate(old(w.raw), data).Done?
      ensures complete ==> w.raw == Accumulate(old(w.raw), data).section && w.data != 0
      ensures !complete ==> w.raw == Accumulate(old(w.raw), data).raw && w.Filling()
    {
      hide Store.Inv, Store.Listed, Store.Counted, Store.Queued, Store.Kept, Store.Tallied, Store.Holds, Accumulate,
        Incomplete, HeaderKnown;
      HandIs(w);
      complete := w.Append(data);
      old(View()).RewriteKeeps(w, w.raw, w.data);
      assert View() == old(View()).Rewritten(w, w.raw, w.data);
    }

    ghost method SetWork(under: Option<seq<byte>>, w: Elem)
      requires View().Inv(Some(w))
      modifies this`engine
      ensures engine == old(engine).(work := under) && View().Inv(Some(w))
    {
      hide Store.Inv;
      ghost var v := View();
      v.WorkKeeps(under, Some(w));
      engine := engine.(work := under);
      assert View() == v.Working(under);
    }

    /** `put_exclude_section_start`. */
    method PutExclude(data: seq<byte>) returns (code: int)
      requires Valid()
      modifies this, repr
      ensures Valid() && (engine, code) == old(engine).Exclude(data) && Raised(old(peak), old(|buff|))
      ensures pid == old(pid) && taken == old(taken) && lent == old(lent) && repr == old(repr)
    {
      hide Store.Inv, Store.Listed, Store.Counted, Store.Queued, Store.Kept, Store.Tallied, Store.Holds, Accumulate,
        Incomplete, HeaderKnown, Sound, Engine.Receive;
      DemandIs(Maybe(work));
      var w := work;
      if w == null || w.raw == [] {
        return 0;
      }
      var complete := Fill(w, data);
      if !complete {
        SetWork(Some(w.raw), w);
        return 0;
      }
      work := null;
      SetWork(None, w);
      code := Finish(w);
    }

    /** Gives up the section under way. Its buffer is never empty here, so `cancel_elem_empty` is never reached. */
    method AbandonWork() returns (lost: bool)
      requires Valid()
      modifies this`work, this`pool, this`total, this`error, this`engine, repr
      ensures work == null && Valid() && engine == old(engine).Abandon() && lost == old(engine).work.Some?
    {
      hide Store.Inv, Store.Listed, Store.Counted, Store.Queued, Store.Kept, Store.Tallied, Store.Holds;
      var w := work;
      work := null;
      if w == null {
        return false;
      }
      ghost var why := Truncated(w.raw);
      SetWork(None, w);
      CancelError(w, why);
      lost := true;
    }

    /** One section start of `put_include_section_start`; an unfinished section becomes the one under way. */
    method StartSection(data: seq<byte>) returns (complete: bool, code: int, length: nat)
      requires Valid() && work == null && |data| > 0
      modifies this, repr
      ensures Valid() && (complete ==> work == null)
      ensures complete == Accumulate([], data).Done?
      ensures complete ==> engine == old(engine).Receive(Accumulate([], data).section)
      ensures complete ==> code == if Sound(Accumulate([], data).section) then 0 else WARN_CRC_MISMATCH
      ensures complete ==> length == |Accumulate([], data).section|
      ensures !complete ==> engine == old(engine).(work := Some(Accumulate([], data).raw))
      ensures pid == old(pid) && taken == old(taken) && lent == old(lent) && fresh(repr - old(repr))
      ensures Raised(old(peak), old(|buff|))
    {
      hide Store.Inv, Store.Listed, Store.Counted, Store.Queued, Store.Kept, Store.Tallied, Store.Holds, Accumulate,
        Incomplete, HeaderKnown, Sound, Engine.Receive;
      DemandIs(Maybe(work));
      var w := QueryWork();
      complete, code, length := FillSection(w, data);
    }

    method FillSection(w: Elem, data: seq<byte>) returns (complete: bool, code: int, length: nat)
      requires View().Inv(Some(w)) && w in repr && w.raw == [] && w.data == 0 && work == null && |data| > 0
      requires engine.work.None?
      modifies this`work, this`last, this`pool, this`buff, this`total, this`unique, this`error, this`engine, this`peak,
               repr
      ensures Valid() && (complete ==> work == null)
      ensures complete == Accumulate([], data).Done?
      ensures complete ==> engine == old(engine).Receive(Accumulate([], data).section)
      ensures complete ==> code == if Sound(Accumulate([], data).section) then 0 else WARN_CRC_MISMATCH
      ensures complete ==> length == |Accumulate([], data).section|
      ensures !complete ==> engine == old(engine).(work := Some(Accumulate([], data).raw))
      ensures Raised(old(peak), old(|buff|))
    {
      hide Store.Inv, Store.Listed, Store.Counted, Store.Queued, Store.Kept, Store.Tallied, Store.Holds, Accumulate,
        Incomplete, HeaderKnown, Sound, Engine.Receive;
      DemandIs(Some(w));
      EmptyFills();
      complete := Fill(w, data);
      code, length := 0, |w.raw|;
      if complete {
        code := Finish(w);
      } else {
        SetWork(Some(w.raw), w);
        work := w;
      }
    }

    lemma EmptyFills()
      ensures Incomplete([]) && !HeaderKnown([])
    {
    }

    /** The section loop of `put_include_section_start`. */
    method PutSections(data: seq<byte>, start: nat, r0: int) returns (r: int)
      requires Valid() && work == null && engine.work.None? && start < |data| && r0 >= 0
      modifies this, repr
      ensures Valid() && (engine, r) == old(engine).Sections(data[start..], r0) && Raised(old(peak), old(|buff|))
      ensures pid == old(pid) && taken == old(taken) && lent == old(lent) && fresh(repr - old(repr))
    {
      hide Store.Inv, Store.Listed, Store.Counted, Store.Queued, Store.Kept, Store.Tallied, Store.Holds, Accumulate,
        Sound, Engine.Receive, Incomplete, HeaderKnown;
      ghost var target := engine.Sections(data[start..], r0);
      DemandIs(Maybe(work));
      r := r0;
      var p, more := start, true;
      while more
        invariant start <= p <= |data| && (more ==> p < |data|) && r >= 0
        invariant Valid() && work == null && engine.work.None? && Raised(old(peak), old(|buff|))
        invariant pid == old(pid) && taken == old(taken) && lent == old(lent) && fresh(repr - old(repr))
        invariant if more then engine.Sections(data[p..], r) == target else (engine, r) == target
        decreases |data| - p, more
      {
        var complete, code, length := StartSection(data[p..]);
        if !complete {
          return 0;
        }
        if code != 0 {
          r := code;
        }
        assert data[p..][length..] == data[p + length..];
        p := p + length;
        more := p < |data| && data[p] != 0xff;
      }
    }

    /** `put_include_section_start`. */
    method PutInclude(data: seq<byte>) returns (r: int)
      requires Valid() && |data| >= 1
      modifies this, repr
      ensures Valid() && (engine, r) == old(engine).Include(data) && Raised(old(peak), old(|buff|))
      ensures pid == old(pid) && taken == old(taken) && lent == old(lent) && fresh(repr - old(repr))
    {
      hide Store.Inv, Engine.Sections, Engine.Exclude, Incomplete, HeaderKnown;
      DemandIs(Maybe(work));
      var start := 1 + data[0] as nat;
      if start >= |data| {
        var broken := AbandonWork();
        return if broken then WARN_LENGTH_MISMATCH else 0;
      }
      r := 0;
      if start > 1 {
        r := PutExclude(data[1..start]);
      }
      var lost := AbandonWork();
      if lost {
        r := WARN_LENGTH_MISMATCH;
      }
      r := PutSections(data, start, r);
    }

    /** `put`: the PID is fixed by the first payload. */
    method Put(hdrPid: int, start: bool, data: seq<byte>) returns (code: int)
      requires Valid()
      modifies this, repr
      ensures Valid() && taken == old(taken) && lent == old(lent) && fresh(repr - old(repr))
      ensures Raised(old(peak), old(|buff|))
      ensures if |data| < 1 then code == INVALID_PARAM && engine == old(engine) && pid == old(pid)
              else if old(pid) >= 0 && old(pid) != hdrPid then
                code == INVALID_TS_PID && engine == old(engine) && pid == old(pid)
              else (engine, code) == old(engine).Put(start, data) && pid == hdrPid
    {
      hide Store.Inv, Store.Listed, Store.Counted, Store.Queued, Store.Kept, Store.Tallied, Store.Holds,
        Engine.Include, Engine.Exclude;
      DemandIs(Maybe(work));
      if |data| < 1 {
        return INVALID_PARAM;
      }
      if pid >= 0 && pid != hdrPid {
        return INVALID_TS_PID;
      }
      pid := hdrPid;
      if start {
        code := PutInclude(data);
      } else {
        code := PutExclude(data);
      }
    }

    // ---- Loans ----

    method Lend(w: Elem)
      requires |buff| > 0 && buff[0] == w && w in repr
      modifies this`pool, this`buff, this`taken, this`lent, w`place
      ensures View() == old(View()).Got()
      ensures taken == old(taken) + 1 && lent == old(lent)[w := Loan(old(taken), w.raw, w.data)]
    {
      w.place := Pool;
      buff, pool, lent, taken := buff[1..], pool + [w], lent[w := Loan(taken, w.raw, w.data)], taken + 1;
    }

    /** `get`: the oldest section not got yet goes on loan; its bytes are the ones that were queued. */
    method Get() returns (code: int, h: Handle)
      requires Valid()
      modifies this`pool, this`buff, this`taken, this`lent, repr
      ensures Valid() && repr == old(repr)
      ensures old(taken) == |Uniques(engine.log)| <==> code == NO_SECTION_DATA
      ensures code == NO_SECTION_DATA ==> h == Handle(null, 0) && taken == old(taken) && lent == old(lent)
      ensures code != NO_SECTION_DATA ==>
        && code == OK && h.elem != null && h.data == h.elem.data
        && h.elem !in old(lent) && h.elem.raw == Uniques(engine.log)[old(taken)]
        && taken == old(taken) + 1 && lent == old(lent)[h.elem := Loan(old(taken), h.elem.raw, h.data)]
    {
      hide Store.Inv, Store.Listed, Store.Counted, Store.Queued, Store.Kept, Store.Tallied, Store.Holds, Uniques,
        Store.Got, Incomplete, HeaderKnown;
      QueueIs();
      if |buff| == 0 {
        return NO_SECTION_DATA, Handle(null, 0);
      }
      var w := buff[0];
      View().GetKeeps(Maybe(work));
      h := Handle(w, w.data);
      Lend(w);
      code := OK;
    }

    lemma QueueIs()
      requires View().Inv(Maybe(work))
      ensures taken + |buff| == |Uniques(engine.log)|
      ensures |buff| > 0 ==> buff[0] in repr && buff[0].raw == Uniques(engine.log)[taken]
      ensures |buff| > 0 ==> work != buff[0]
    {
      hide Distinct, Uniques, Errors;
    }

    lemma LoanIs(e: Elem)
      requires View().Inv(Maybe(work)) && e in lent
      ensures e in repr && e in pool && e.ref >= 1 && e != work
      ensures e.raw == lent[e].raw && e.data == lent[e].data != 0
    {
      hide Distinct, Uniques, Errors;
    }

    /** One party less needs a buffer; the loan is over when it is the one with this number. */
    method TakeBack(w: Elem, ghost number: nat)
      requires w in repr
      modifies this`lent, w`ref
      ensures View() == if old(View()).Open(Some(w), number) then old(View()).Returned(w) else old(View()).Lowered(w)
      ensures lent == if old(View()).Open(Some(w), number) then old(lent) - {w} else old(lent)
    {
      hide Store.Inv;
      ghost var v := View();
      w.ref := w.ref - 1;
      if w in lent && lent[w].number == number {
        lent := lent - {w};
      }
      assert View().cells == v.cells[w := v.cells[w].(ref := w.ref)];
    }

    /** A pool buffer without a body is needed by nobody. */
    lemma BodilessUnneeded(e: Elem)
      requires View().Inv(Maybe(work)) && e in pool && e.data == 0
      ensures e.ref == 0
    {
      hide Distinct, Uniques, Errors;
    }

    /** The pool buffer the search of `ret` ends at; the pool is searched from its tail for the body's address. */
    method Search(h: Handle) returns (i: int)
      requires View().Inv(Maybe(work))
      ensures -1 <= i < |pool|
      ensures i >= 0 ==> pool[i].data == h.data && (h.data == 0 || pool[i] == h.elem)
      ensures i < 0 ==> forall k :: 0 <= k < |pool| ==> pool[k] != h.elem || pool[k].data != h.data
    {
      i := |pool| - 1;
      while i >= 0 && !(pool[i].data == h.data && (h.data == 0 || pool[i] == h.elem))
        invariant -1 <= i < |pool|
        invariant forall k :: i < k < |pool| ==> pool[k] != h.elem || pool[k].data != h.data
      {
        i := i - 1;
      }
    }

    /**
     `ret`, of any handle: the count of the buffer found falls. The parser is sound afterwards exactly when the handle's
     own loan was not over, or its buffer was not the repeat buffer or on a later loan.
     */
    method Ret(h: Handle, ghost number: nat) returns (code: int)
      requires Valid()
      modifies this`lent, if h.elem == null then {} else {h.elem}
      ensures code == OK && View() == old(View()).AfterRet(Maybe(h.elem), h.data, number)
      ensures Valid() <==> old(View()).Open(Maybe(h.elem), number) || !old(View()).Claimed(Maybe(h.elem), h.data)
      ensures old(View()).Open(Maybe(h.elem), number) && h.data == old(lent)[h.elem].data ==>
        lent == old(lent) - {h.elem}
    {
      hide Store.Inv, Store.Hits, Store.Claimed, Store.Open, Store.Returned, Store.Lowered, Incomplete, HeaderKnown;
      RetKeeps(View(), Maybe(h.elem), h.data, number);
      var i := Search(h);
      HitsIs(h, i);
      if i >= 0 && pool[i].ref > 0 {
        TakeBack(pool[i], number);
      }
      code := OK;
    }

    /** What the search finds is what `AfterRet` says. */
    lemma HitsIs(h: Handle, i: int)
      requires View().Inv(Maybe(work)) && -1 <= i < |pool|
      requires i >= 0 ==> pool[i].data == h.data && (h.data == 0 || pool[i] == h.elem)
      requires i < 0 ==> forall k :: 0 <= k < |pool| ==> pool[k] != h.elem || pool[k].data != h.data
      ensures View().Hits(Maybe(h.elem), h.data) <==> i >= 0 && pool[i].ref > 0
      ensures i >= 0 && pool[i].ref > 0 ==> pool[i] == h.elem && pool[i] in repr
    {
      PoolAllocated(Maybe(work));
      hide Store.Inv;
      if i >= 0 && h.data == 0 {
        BodilessUnneeded(pool[i]);
      }
    }

    lemma RetKeeps(v: Store<Elem>, e: Option<Elem>, data: nat, number: nat)
      requires v.Inv(Maybe(work))
      ensures v.AfterRet(e, data, number).Inv(Maybe(work)) <==> v.Open(e, number) || !v.Claimed(e, data)
      ensures v.Open(e, number) ==> e.Some? && e.value in v.lent
      ensures v.Open(e, number) && data == v.lent[e.value].data ==>
        v.AfterRet(e, data, number).lent == v.lent - {e.value}
    {
      hide Store.Listed, Store.Queued, Store.Kept, Store.Tallied, Store.Holds, Store.Counted, Store.Claimed, Store.Hits;
      if v.Open(e, number) {
        v.OpenReturn(e.value, number, Maybe(work));
      } else {
        v.LateReturn(e, data, number, Maybe(work));
      }
    }

    /** A loan holds the bytes it was got with, and the repeat buffer the last new section. */
    lemma LoansIntact(e: Elem)
      requires Valid() && e in lent
      ensures e.raw == lent[e].raw && e.data == lent[e].data
      ensures engine.last == if last == null then None else Some(last.raw)
    {
      hide Store.Inv, Store.Listed, Store.Counted, Store.Queued, Store.Kept, Store.Tallied, Store.Holds, Incomplete,
        HeaderKnown;
      LoanIs(e);
      LastIs(Maybe(work));
    }

    /** Two buffers beyond the most ever queued and on loan are enough. */
    lemma PoolBounded()
      requires Valid()
      ensures |repr| <= peak + 2 && |buff| + |lent| <= peak
    {
      hide Distinct, Uniques, Errors, Incomplete, HeaderKnown, Store.Listed, Store.Counted;
      assert View().cells.Keys == repr;
    }

    // ---- Counters ----

    method GetCount() returns (n: int)
      requires Valid()
      ensures n == |Uniques(engine.log)| - taken
    {
      hide Store.Inv, Store.Listed, Store.Counted, Store.Queued, Store.Kept, Store.Tallied, Store.Holds, Uniques,
        Incomplete, HeaderKnown;
      QueueIs();
      n := |buff|;
    }

    /** `get_stat`: every section that ended was new, a repeat or an error; new ones are queued or have been got. */
    method GetStat() returns (t: int, u: int, e: int)
      requires Valid()
      ensures t == u + e + Repeats(engine.log)
      ensures u == |buff| + taken && e == Errors(engine.log)
    {
      hide Store.Inv, Store.Listed, Store.Counted, Store.Queued, Store.Kept, Store.Tallied, Store.Holds, Uniques,
        Errors, Repeats, Incomplete, HeaderKnown;
      QueueIs();
      TallyIs();
      Accounting(engine.log);
      t, u, e := total, unique, error;
    }

    lemma TallyIs()
      requires View().Inv(Maybe(work))
      ensures total == |engine.log| && unique == |Uniques(engine.log)| && error == Errors(engine.log)
    {
      hide Distinct, Uniques, Errors;
    }

    method DropBuffers()
      modifies `work, `last, `pool, `buff, `lent, `repr
      ensures work == null && last == null && pool == [] && buff == [] && lent == map[] && repr == {}
    {
      work, last, pool, buff, lent, repr := null, null, [], [], map[], {};
    }

    method ClearHistory()
      modifies `total, `unique, `error, `engine, `taken, `peak
      ensures total == 0 && unique == 0 && error == 0 && engine == NEW_ENGINE && taken == 0 && peak == 0
    {
      total, unique, error, engine, taken, peak := 0, 0, 0, NEW_ENGINE, 0, 0;
    }

    /** `reset`: every buffer is dropped. Loans end with it. */
    method Reset()
      modifies this
      ensures Valid() && engine == NEW_ENGINE && taken == 0 && lent == map[] && repr == {} && pid == -1 && peak == 0
    {
      hide Store.Inv, Store.Listed, Store.Counted, Store.Queued, Store.Kept, Store.Tallied, Store.Holds;
      pid := -1;
      DropBuffers();
      ClearHistory();
      EmptyInv<Elem>();
      assert View() == EmptyStore<Elem>();
    }
  }
}
