/**
 Who needs which section buffer: the parser's buffers as values, its invariant, and what each bookkeeping step keeps.
 A buffer is identified by a value of type `E`; the parser object uses references.
 */
module SectionStore {
  import opened Prelude
  import opened Bytes
  import opened SectionEngine

  datatype Place = Pool | Queue | Hand

  /**
   A buffer: the bytes held, where the section body starts (zero: not known yet), how many parties need it, and where
   it is.
   */
  datatype Cell = Cell(raw: seq<byte>, data: nat, ref: int, place: Place)

  datatype Tally = Tally(total: int, unique: int, error: int)

  /** A section got and not returned: its number in the order they were got, its bytes, and where its body starts. */
  datatype Loan = Loan(number: nat, raw: seq<byte>, data: nat)

  lemma {:induction false} MembersBound<E>(s: seq<E>, m: set<E>)
    requires forall e :: e in m ==> e in s
    ensures |m| <= |s|
    decreases |s|
  {
    if |s| == 0 {
      assert m == {};
    } else {
      var x := s[|s| - 1];
      MembersBound(s[..|s| - 1], m - {x});
    }
  }

  /** The store of a parser that has seen nothing. */
  ghost function EmptyStore<E>(): Store<E> { Store([], [], None, map[], map[], NEW_ENGINE, 0, Tally(0, 0, 0), 0) }

  lemma EmptyInv<E>()
    ensures EmptyStore<E>().Inv(None)
  {
  }

  lemma SubsetBound<E>(a: set<E>, b: set<E>)
    requires a <= b
    ensures |a| <= |b|
  {
    assert b == a + (b - a);
  }

  datatype Store<E> = Store(
    pool: seq<E>,
    buff: seq<E>,
    last: Option<E>,
    lent: map<E, Loan>,
    cells: map<E, Cell>,
    engine: Engine,
    taken: nat,
    tally: Tally,
    peak: nat)
  {
    /** The lists hold each buffer at most once, and exactly the buffers that are there. */
    ghost predicate Listed() {
      && Distinct(pool) && Distinct(buff)
      && (forall i :: 0 <= i < |pool| ==> pool[i] in cells && cells[pool[i]].place == Pool)
      && (forall i :: 0 <= i < |buff| ==> buff[i] in cells && cells[buff[i]].place == Queue)
      && (forall e :: e in cells ==> (cells[e].place == Pool ==> e in pool) && (cells[e].place == Queue ==> e in buff))
    }

    /**
     A buffer's count: one for being `last`, one for being queued or on loan. Loans wait in the pool, and a buffer in
     hand is needed by nobody.
     */
    ghost predicate Counted() {
      && (forall e :: e in cells ==>
            cells[e].ref == Indicator(last == Some(e)) + Indicator(e in lent || cells[e].place == Queue))
      && (forall e :: e in lent ==> e in cells && cells[e].place == Pool)
      && (forall e :: e in cells && cells[e].place == Hand ==> cells[e].ref == 0)
      && (last.Some? ==> last.value in cells)
    }

    /** The queue holds the unique sections not got yet. */
    ghost predicate Queued() {
      && taken + |buff| == |Uniques(engine.log)|
      && forall i :: 0 <= i < |buff| ==>
           buff[i] in cells && cells[buff[i]].raw == Uniques(engine.log)[taken + i] && cells[buff[i]].data != 0
    }

    /** Loans and the repeat buffer hold what they held. */
    ghost predicate Kept() {
      && (forall e :: e in lent ==>
            && e in cells && cells[e].raw == lent[e].raw && cells[e].data == lent[e].data != 0
            && lent[e].number < taken)
      && (last.Some? ==> last.value in cells && cells[last.value].data != 0)
      && engine.last == (if last.None? then None else Some(cells[last.value].raw))
    }

    /** The statistics match the history, and the buffers have not outgrown the demand. */
    ghost predicate Tallied() {
      && tally == Tally(|engine.log|, |Uniques(engine.log)|, Errors(engine.log))
      && |buff| + |lent| <= peak
      && |cells| <= peak + 2
    }

    /** Nothing is in hand, or just `held`. */
    ghost predicate Holds(held: Option<E>) {
      && (forall e :: e in cells && cells[e].place == Hand ==> held == Some(e))
      && (held.Some? ==> held.value in cells && cells[held.value].place == Hand)
    }

    ghost predicate Inv(held: Option<E>) {
      Listed() && Counted() && Queued() && Kept() && Tallied() && Holds(held)
    }

    /** A buffer on no list, lent to nobody and not the repeat buffer. */
    ghost predicate Free(w: E) {
      w in cells && w !in pool && w !in buff && w !in lent && last != Some(w)
    }

    // ---- The bookkeeping steps ----

    /** A buffer in hand goes back to the pool, emptied. */
    ghost function Discarded(w: E): Store<E> {
      this.(pool := pool + [w], cells := cells[w := Cell([], 0, 0, Pool)])
    }

    ghost function Logged(e: Event): Store<E> {
      this.(engine := engine.(log := engine.log + [e]),
            tally := Tally(tally.total + 1, tally.unique + Indicator(e.Unique?),
              tally.error + Indicator(e.BadCrc? || e.Truncated?)))
    }

    /** The buffers once the repeat buffer is needed by one party less. */
    ghost function Released(): map<E, Cell> {
      if last.Some? && last.value in cells && cells[last.value].ref > 0
      then cells[last.value := cells[last.value].(ref := cells[last.value].ref - 1)] else cells
    }

    ghost function Rated(w: E, ref: int, place: Place): Store<E>
      requires w in cells
    {
      this.(cells := cells[w := cells[w].(ref := ref, place := place)])
    }

    /** A section joins the queue and becomes the one repeats are compared with. */
    ghost function Enqueued(w: E): Store<E>
      requires w in cells
    {
      this.(buff := buff + [w], last := Some(w), engine := engine.(last := Some(cells[w].raw)),
            peak := if peak < |buff| + 1 + |lent| then |buff| + 1 + |lent| else peak)
    }

    ghost function Committed(w: E): Store<E>
      requires w in Released()
    {
      this.(cells := Released()).Logged(Unique(Released()[w].raw)).Rated(w, 2, Queue).Enqueued(w)
    }

    /** The pool buffer at `i` is taken in hand, emptied. */
    ghost function Taken(i: nat): Store<E>
      requires i < |pool|
    {
      this.(pool := pool[..i] + pool[i + 1..], cells := cells[pool[i] := Cell([], 0, 0, Hand)])
    }

    /** The bytes of a buffer in hand change, or a new buffer is in hand. */
    ghost function Rewritten(w: E, raw: seq<byte>, data: nat): Store<E> {
      this.(cells := cells[w := Cell(raw, data, 0, Hand)])
    }

    /** The head of the queue goes on loan. */
    ghost function Got(): Store<E>
      requires |buff| > 0 && buff[0] in cells
    {
      this.(pool := pool + [buff[0]], buff := buff[1..], taken := taken + 1,
            cells := cells[buff[0] := cells[buff[0]].(place := Pool)],
            lent := lent[buff[0] := Loan(taken, cells[buff[0]].raw, cells[buff[0]].data)])
    }

    /** A loan ends. */
    ghost function Returned(e: E): Store<E>
      requires e in cells
    {
      this.(lent := lent - {e}, cells := cells[e := cells[e].(ref := cells[e].ref - 1)])
    }

    // ---- What they keep ----

    lemma HandIsFree(w: E)
      requires Inv(Some(w))
      ensures Free(w)
    {
      hide Uniques, Errors, Distinct;
    }

    lemma SameKeys(m: map<E, Cell>, e: E, c: Cell)
      requires e in m
      ensures m[e := c].Keys == m.Keys && |m[e := c]| == |m|
    {
      assert m[e := c].Keys == m.Keys;
    }

    lemma AppendDistinct(s: seq<E>, w: E)
      requires Distinct(s) && w !in s
      ensures Distinct(s + [w])
    {
    }

    lemma RewriteListed(w: E, raw: seq<byte>, data: nat)
      requires Listed() && Free(w)
      requires cells[w].place == Hand
      ensures Rewritten(w, raw, data).Listed()
    {
      hide Distinct;
    }

    lemma RewriteCounted(w: E, raw: seq<byte>, data: nat)
      requires Counted() && Free(w)
      requires cells[w].place == Hand
      ensures Rewritten(w, raw, data).Counted()
    {
    }

    lemma RewriteFiled(w: E, raw: seq<byte>, data: nat)
      requires Queued() && Kept() && Free(w)
      requires cells[w].place == Hand
      ensures Rewritten(w, raw, data).Queued() && Rewritten(w, raw, data).Kept()
    {
      hide Uniques, Errors, Distinct;
    }

    lemma RewriteTallied(w: E, raw: seq<byte>, data: nat)
      requires Tallied() && Holds(Some(w)) && Free(w)
      requires cells[w].place == Hand
      ensures Rewritten(w, raw, data).Tallied() && Rewritten(w, raw, data).Holds(Some(w))
    {
      hide Uniques, Errors, Distinct;
      SameKeys(cells, w, Cell(raw, data, 0, Hand));
    }

    /** Changing a buffer in hand disturbs neither the queue, the loans nor the repeat buffer. */
    lemma RewriteKeeps(w: E, raw: seq<byte>, data: nat)
      requires Inv(Some(w))
      ensures Rewritten(w, raw, data).Inv(Some(w))
    {
      HandIsFree(w);
      InHand(w);
      hide Store.Free, Store.Listed, Store.Counted, Store.Queued, Store.Kept, Store.Tallied, Store.Holds;
      RewriteListed(w, raw, data);
      RewriteCounted(w, raw, data);
      RewriteFiled(w, raw, data);
      RewriteTallied(w, raw, data);
    }

    lemma InHand(w: E)
      requires Inv(Some(w))
      ensures w in cells && cells[w].place == Hand
    {
    }

    lemma DiscardListed(w: E)
      requires Listed() && Free(w)
      ensures Discarded(w).Listed()
    {
      hide Distinct;
      AppendDistinct(pool, w);
    }

    lemma DiscardCounted(w: E)
      requires Counted() && Free(w)
      ensures Discarded(w).Counted()
    {
    }

    lemma DiscardFiled(w: E)
      requires Queued() && Kept() && Free(w)
      ensures Discarded(w).Queued() && Discarded(w).Kept()
    {
      hide Uniques, Errors, Distinct;
    }

    lemma DiscardTallied(w: E)
      requires Tallied() && Holds(Some(w)) && Free(w)
      ensures Discarded(w).Tallied() && Discarded(w).Holds(None)
    {
      hide Uniques, Errors, Distinct;
      SameKeys(cells, w, Cell([], 0, 0, Pool));
    }

    lemma DiscardKeeps(w: E)
      requires Inv(Some(w))
      ensures Discarded(w).Inv(None)
    {
      HandIsFree(w);
      hide Store.Free, Store.Listed, Store.Counted, Store.Queued, Store.Kept, Store.Tallied, Store.Holds;
      DiscardListed(w);
      DiscardCounted(w);
      DiscardFiled(w);
      DiscardTallied(w);
    }

    ghost function Working(work: Option<seq<byte>>): Store<E> { this.(engine := engine.(work := work)) }

    /** The section under way is not part of the bookkeeping. */
    lemma WorkKeeps(work: Option<seq<byte>>, held: Option<E>)
      requires Inv(held)
      ensures Working(work).Inv(held)
    {
      hide Uniques, Errors, Distinct;
      var after := Working(work);
      assert after.Listed() && after.Counted() && after.Holds(held);
    }

    lemma LogLists(e: Event, held: Option<E>)
      requires Listed() && Counted() && Holds(held)
      ensures Logged(e).Listed() && Logged(e).Counted() && Logged(e).Holds(held)
    {
      hide Distinct;
    }

    lemma LogFiles(e: Event)
      requires Queued() && Kept() && Tallied() && !e.Unique?
      ensures Logged(e).Queued() && Logged(e).Kept() && Logged(e).Tallied()
    {
      hide Uniques, Errors;
      LogGrows(engine.log, e);
    }

    lemma LogKeeps(e: Event, held: Option<E>)
      requires Inv(held) && !e.Unique?
      ensures Logged(e).Inv(held)
    {
      hide Store.Listed, Store.Counted, Store.Queued, Store.Kept, Store.Tallied, Store.Holds;
      LogLists(e, held);
      LogFiles(e);
    }

    lemma CommitListed(w: E)
      requires Listed() && Free(w)
      requires cells[w].place == Hand && cells[w].data != 0
      ensures Committed(w).Listed()
    {
      hide Distinct;
      AppendDistinct(buff, w);
    }

    lemma CommitCounted(w: E)
      requires Counted() && Free(w)
      requires cells[w].place == Hand && cells[w].data != 0
      ensures Committed(w).Counted()
    {
    }

    lemma CommitFiled(w: E)
      requires Queued() && Kept() && Free(w)
      requires cells[w].place == Hand && cells[w].data != 0
      ensures Committed(w).Queued() && Committed(w).Kept()
    {
      hide Uniques, Errors, Distinct;
      LogGrows(engine.log, Unique(cells[w].raw));
    }

    lemma CommitTallied(w: E)
      requires Tallied() && Holds(Some(w)) && Free(w)
      requires cells[w].place == Hand && cells[w].data != 0
      ensures Committed(w).Tallied() && Committed(w).Holds(None)
    {
      hide Uniques, Errors, Distinct;
      LogGrows(engine.log, Unique(cells[w].raw));
      if last.Some? && last.value in cells {
        SameKeys(cells, last.value, cells[last.value].(ref := cells[last.value].ref - 1));
      }
      SameKeys(Released(), w, Released()[w].(ref := 2, place := Queue));
    }

    lemma CommitKeeps(w: E)
      requires Inv(Some(w)) && w in cells && cells[w].data != 0
      ensures Committed(w).Inv(None)
    {
      HandIsFree(w);
      InHand(w);
      hide Store.Free, Store.Listed, Store.Counted, Store.Queued, Store.Kept, Store.Tallied, Store.Holds;
      CommitListed(w);
      CommitCounted(w);
      CommitFiled(w);
      CommitTallied(w);
    }

    lemma RemoveDistinct(s: seq<E>, i: nat)
      requires Distinct(s) && i < |s|
      ensures var r := s[..i] + s[i + 1..];
        Distinct(r) && s[i] !in r && (forall e :: e in r ==> e in s) && forall e :: e in s && e != s[i] ==> e in r
    {
      var r := s[..i] + s[i + 1..];
      forall e | e in s && e != s[i]
        ensures e in r
      {
        var k :| 0 <= k < |s| && s[k] == e;
        assert e == if k < i then r[k] else r[k - 1];
      }
    }

    /** A buffer in the pool that nobody needs. */
    ghost predicate Takeable(i: nat) {
      && i < |pool| && pool[i] in cells && cells[pool[i]].place == Pool && cells[pool[i]].ref < 1
      && pool[i] !in lent && pool[i] !in buff && last != Some(pool[i])
    }

    lemma TakeListed(i: nat)
      requires Listed()
      requires Takeable(i)
      ensures Taken(i).Listed()
    {
      hide Distinct;
      RemoveDistinct(pool, i);
    }

    lemma TakeCounted(i: nat)
      requires Counted()
      requires Takeable(i)
      ensures Taken(i).Counted()
    {
    }

    lemma TakeFiled(i: nat)
      requires Queued() && Kept()
      requires Takeable(i)
      ensures Taken(i).Queued() && Taken(i).Kept()
    {
      hide Uniques, Errors, Distinct;
    }

    lemma TakeTallied(i: nat)
      requires Tallied() && Holds(None)
      requires Takeable(i)
      ensures Taken(i).Tallied() && Taken(i).Holds(Some(pool[i]))
    {
      hide Uniques, Errors, Distinct;
      SameKeys(cells, pool[i], Cell([], 0, 0, Hand));
    }

    lemma TakeKeeps(i: nat)
      requires Inv(None) && i < |pool| && pool[i] in cells && cells[pool[i]].ref < 1
      ensures Taken(i).Inv(Some(pool[i]))
    {
      Unneeded(i);
      hide Store.Free, Store.Listed, Store.Counted, Store.Queued, Store.Kept, Store.Tallied, Store.Holds;
      TakeListed(i);
      TakeCounted(i);
      TakeFiled(i);
      TakeTallied(i);
    }

    lemma Unneeded(i: nat)
      requires Listed() && Counted() && i < |pool| && pool[i] in cells && cells[pool[i]].ref < 1
      ensures Takeable(i)
    {
    }

    /** When every pool buffer is needed, the demand accounts for all but one of the buffers. */
    lemma NoneFree()
      requires Inv(None) && forall i :: 0 <= i < |pool| ==> pool[i] in cells && cells[pool[i]].ref >= 1
      ensures |cells| <= peak + 1
    {
      hide Uniques, Errors, Distinct;
      var queued := set e | e in buff;
      MembersBound(buff, queued);
      var needed := queued + lent.Keys + if last.Some? then {last.value} else {};
      forall e | e in cells.Keys
        ensures e in needed
      {
        assert cells[e].place == Pool || cells[e].place == Queue;
      }
      SubsetBound(cells.Keys, needed);
    }

    lemma AllocateListed(w: E)
      requires Listed()
      requires w !in cells && |cells| <= peak + 1
      ensures Rewritten(w, [], 0).Listed()
    {
      hide Distinct;
    }

    lemma AllocateCounted(w: E)
      requires Counted()
      requires w !in cells && |cells| <= peak + 1
      ensures Rewritten(w, [], 0).Counted()
    {
      assert w !in lent && last != Some(w);
    }

    lemma AllocateFiled(w: E)
      requires Queued() && Kept()
      requires w !in cells && |cells| <= peak + 1
      ensures Rewritten(w, [], 0).Queued() && Rewritten(w, [], 0).Kept()
    {
      hide Uniques, Errors, Distinct;
    }

    lemma AllocateTallied(w: E)
      requires Tallied() && Holds(None)
      requires w !in cells && |cells| <= peak + 1
      ensures Rewritten(w, [], 0).Tallied() && Rewritten(w, [], 0).Holds(Some(w))
    {
      hide Uniques, Errors, Distinct;
      assert Rewritten(w, [], 0).cells.Keys == cells.Keys + {w};
    }

    lemma AllocateKeeps(w: E)
      requires Inv(None) && w !in cells && |cells| <= peak + 1
      ensures Rewritten(w, [], 0).Inv(Some(w))
    {
      hide Store.Free, Store.Listed, Store.Counted, Store.Queued, Store.Kept, Store.Tallied, Store.Holds;
      AllocateListed(w);
      AllocateCounted(w);
      AllocateFiled(w);
      AllocateTallied(w);
    }

    lemma TailDistinct(s: seq<E>)
      requires Distinct(s) && |s| > 0
      ensures Distinct(s[1..]) && s[0] !in s[1..]
      ensures forall e :: e in s && e != s[0] ==> e in s[1..]
    {
      forall e | e in s && e != s[0]
        ensures e in s[1..]
      {
        var k :| 0 <= k < |s| && s[k] == e;
        assert s[1..][k - 1] == e;
      }
    }

    lemma GetListed()
      requires Listed()
      requires |buff| > 0 && buff[0] in cells && cells[buff[0]].place == Queue && buff[0] !in pool && buff[0] !in lent
      ensures Got().Listed()
    {
      hide Distinct;
      AppendDistinct(pool, buff[0]);
      TailDistinct(buff);
    }

    lemma GetCounted()
      requires Counted()
      requires |buff| > 0 && buff[0] in cells && cells[buff[0]].place == Queue && buff[0] !in pool && buff[0] !in lent
      ensures Got().Counted()
    {
    }

    lemma GetFiled()
      requires Queued() && Kept()
      requires |buff| > 0 && buff[0] in cells && cells[buff[0]].place == Queue && buff[0] !in pool && buff[0] !in lent
      ensures Got().Queued() && Got().Kept()
    {
      hide Uniques, Errors, Distinct;
    }

    lemma GetTallied(held: Option<E>)
      requires Tallied() && Holds(held)
      requires |buff| > 0 && buff[0] in cells && cells[buff[0]].place == Queue && buff[0] !in pool && buff[0] !in lent
      ensures Got().Tallied() && Got().Holds(held)
    {
      hide Uniques, Errors, Distinct;
      SameKeys(cells, buff[0], cells[buff[0]].(place := Pool));
      assert Got().lent.Keys == lent.Keys + {buff[0]};
    }

    lemma GetKeeps(held: Option<E>)
      requires Inv(held) && |buff| > 0 && buff[0] in cells
      ensures Got().Inv(held)
      ensures buff[0] !in lent
    {
      HeadIsQueued();
      hide Store.Free, Store.Listed, Store.Counted, Store.Queued, Store.Kept, Store.Tallied, Store.Holds;
      GetListed();
      GetCounted();
      GetFiled();
      GetTallied(held);
    }

    lemma HeadIsQueued()
      requires Listed() && Counted() && |buff| > 0 && buff[0] in cells
      ensures cells[buff[0]].place == Queue && buff[0] !in pool && buff[0] !in lent
    {
      hide Distinct;
    }

    lemma ReturnListed(e: E)
      requires Listed()
      requires e in lent && e in cells
      ensures Returned(e).Listed()
    {
      hide Distinct;
    }

    lemma ReturnCounted(e: E)
      requires Counted()
      requires e in lent && e in cells
      ensures Returned(e).Counted()
    {
    }

    lemma ReturnFiled(e: E)
      requires Queued() && Kept()
      requires e in lent && e in cells
      ensures Returned(e).Queued() && Returned(e).Kept()
    {
      hide Uniques, Errors, Distinct;
    }

    lemma ReturnTallied(e: E, held: Option<E>)
      requires Tallied() && Holds(held)
      requires e in lent && e in cells
      ensures Returned(e).Tallied() && Returned(e).Holds(held)
    {
      hide Uniques, Errors, Distinct;
      SameKeys(cells, e, cells[e].(ref := cells[e].ref - 1));
      assert (lent - {e}).Keys == lent.Keys - {e};
    }

    lemma ReturnKeeps(e: E, held: Option<E>)
      requires Inv(held) && e in lent && e in cells
      ensures Returned(e).Inv(held)
    {
      hide Store.Free, Store.Listed, Store.Counted, Store.Queued, Store.Kept, Store.Tallied, Store.Holds;
      ReturnListed(e);
      ReturnCounted(e);
      ReturnFiled(e);
      ReturnTallied(e, held);
    }

    // ---- Returns of any handle, its loan over or not ----

    /** The loan a handle was given for is not over. */
    ghost predicate Open(e: Option<E>, number: nat) { e.Some? && e.value in lent && lent[e.value].number == number }

    /** The search of `ret` finds a buffer that somebody needs: the pool is searched for the body's address alone. */
    ghost predicate Hits(e: Option<E>, data: nat) {
      && data != 0 && e.Some? && e.value in pool && e.value in cells
      && cells[e.value].data == data && cells[e.value].ref > 0
    }

    /** One party less needs a buffer. */
    ghost function Lowered(e: E): Store<E>
      requires e in cells
    {
      this.(cells := cells[e := cells[e].(ref := cells[e].ref - 1)])
    }

    /** `ret`: a count falls, whoever it is for; the loan is over when it was the handle's own. */
    ghost function AfterRet(e: Option<E>, data: nat, number: nat): Store<E> {
      if !Hits(e, data) then this
      else if Open(e, number) then Returned(e.value)
      else Lowered(e.value)
    }

    /** The pool holds the handle's buffer, with its body at the same place, as the repeat buffer or on a loan. */
    ghost predicate Claimed(e: Option<E>, data: nat) {
      e.Some? && e.value in pool && e.value in cells && cells[e.value].data == data && (last == e || e.value in lent)
    }

    /** Every loan and the repeat buffer are as they were. */
    ghost predicate Undisturbed(after: Store<E>) {
      && after.lent == lent && after.last == last
      && (forall x :: x in lent ==> x in cells && x in after.cells && after.cells[x] == cells[x])
      && (last.Some? ==>
            last.value in cells && last.value in after.cells && after.cells[last.value] == cells[last.value])
    }

    lemma HitsWhenClaimed(e: Option<E>, data: nat, held: Option<E>)
      requires Inv(held)
      ensures Hits(e, data) <==> Claimed(e, data)
    {
      hide Distinct, Uniques, Errors;
    }

    /**
     A return whose own loan is over leaves every loan and the repeat buffer alone exactly when its buffer is not in the
     pool, with its body at the same place, as the repeat buffer or on a later loan. Then it does nothing; otherwise a
     count is too small.
     */
    lemma LateReturn(e: Option<E>, data: nat, number: nat, held: Option<E>)
      requires Inv(held) && !Open(e, number)
      ensures Undisturbed(AfterRet(e, data, number)) <==> !Claimed(e, data)
      ensures !Claimed(e, data) ==> AfterRet(e, data, number) == this
      ensures Claimed(e, data) ==> !AfterRet(e, data, number).Counted()
    {
      HitsWhenClaimed(e, data, held);
      hide Store.Listed, Store.Queued, Store.Kept, Store.Tallied, Store.Holds;
      if Claimed(e, data) {
        var after := AfterRet(e, data, number);
        assert cells[e.value].ref == Indicator(last == e) + Indicator(e.value in lent || cells[e.value].place == Queue);
        assert after.cells[e.value].ref == cells[e.value].ref - 1;
      }
    }

    /** The return of a section that is on loan ends that loan and keeps everything else. */
    lemma OpenReturn(e: E, number: nat, held: Option<E>)
      requires Inv(held) && Open(Some(e), number)
      ensures e in cells && AfterRet(Some(e), lent[e].data, number) == Returned(e) && Returned(e).Inv(held)
      ensures forall data :: data != lent[e].data ==> AfterRet(Some(e), data, number) == this
    {
      OnLoan(e);
      hide Store.Inv;
      ReturnKeeps(e, held);
    }

    lemma OnLoan(e: E)
      requires Listed() && Counted() && Kept() && e in lent
      ensures e in cells && e in pool && cells[e].data == lent[e].data != 0 && cells[e].ref > 0
    {
      hide Distinct;
    }

    /** The same with the repeat buffer: it is emptied while repeats are still compared with it. */
    lemma RepeatBufferLost(i: nat, number: nat)
      requires Inv(None) && i < |pool| && last == Some(pool[i]) && pool[i] !in lent
      ensures pool[i] in cells
      ensures var e := pool[i];
        var after := AfterRet(Some(e), cells[e].data, number);
        && after.pool == pool && e in after.cells && after.cells[e].ref < 1
        && after.Taken(i).last == Some(e) && after.Taken(i).cells[e].raw == []
    {
      hide Distinct, Uniques, Errors;
    }

    /**
     What a late return can do: the count of a buffer on a later loan falls to zero, so the next search of the pool that
     comes to it takes it and empties it while it is on loan.
     */
    lemma LaterLoanLost(i: nat, number: nat)
      requires Inv(None) && i < |pool| && pool[i] in lent && lent[pool[i]].number != number && last != Some(pool[i])
      ensures var e := pool[i];
        var after := AfterRet(Some(e), lent[e].data, number);
        && after.pool == pool && e in after.cells && after.cells[e].ref < 1
        && after.Taken(i).lent == lent && after.Taken(i).cells[e].raw == []
    {
      hide Distinct, Uniques, Errors;
      OnLoan(pool[i]);
    }
  }
}
