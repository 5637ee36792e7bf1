/** A run of the section parser's buffers in which a section returned a second time costs another client its section. */
module LateReturns {
  import opened Prelude
  import opened Bytes
  import opened SectionStore

  /** The head of the queue is got. */
  ghost function Next<E>(s: Store<E>): Store<E> { if |s.buff| > 0 && s.buff[0] in s.cells then s.Got() else s }

  /** The head of the queue is got, and returned at once. */
  ghost function Gone<E>(s: Store<E>): Store<E> {
    if |s.buff| > 0 && s.buff[0] in s.cells then s.Got().Returned(s.buff[0]) else s
  }

  /** The first buffer of the pool is taken in hand. */
  ghost function FirstTaken<E>(s: Store<E>): Store<E> { if |s.pool| > 0 then s.Taken(0) else s }


  /** A section goes into a buffer that is new, or has been taken from the pool, and is queued. */
  ghost function Filed<E>(s: Store<E>, e: E, raw: seq<byte>): Store<E> {
    s.Rewritten(e, [], 0).Rewritten(e, raw, 8).Committed(e)
  }

  lemma FiledNew<E>(s: Store<E>, e: E, raw: seq<byte>)
    requires s.Inv(None) && e !in s.cells && |s.cells| <= s.peak + 1
    ensures Filed(s, e, raw).Inv(None)
  {
    hide Store.Inv;
    s.AllocateKeeps(e);
    var one := s.Rewritten(e, [], 0);
    one.RewriteKeeps(e, raw, 8);
    one.Rewritten(e, raw, 8).CommitKeeps(e);
  }

  lemma FiledAgain<E>(s: Store<E>, i: nat, raw: seq<byte>)
    requires s.Inv(None) && i < |s.pool| && s.pool[i] in s.cells && s.cells[s.pool[i]].ref < 1
    ensures Filed(s.Taken(i), s.pool[i], raw).Inv(None)
  {
    hide Store.Inv;
    s.TakeKeeps(i);
    var e := s.pool[i];
    s.Taken(i).RewriteKeeps(e, [], 0);
    var one := s.Taken(i).Rewritten(e, [], 0);
    one.RewriteKeeps(e, raw, 8);
    one.Rewritten(e, raw, 8).CommitKeeps(e);
  }

  /** A first section in buffer 0 is got and returned. */
  ghost function FirstReturned(a: seq<byte>): Store<nat> { Gone(Filed(EmptyStore<nat>(), 0, a)) }

  /** A second one goes into buffer 1. */
  ghost function SecondFiled(a: seq<byte>, b: seq<byte>): Store<nat> { Filed(FirstReturned(a), 1, b) }

  /** A third one into buffer 0 again. */
  ghost function ThirdFiled(a: seq<byte>, b: seq<byte>, c: seq<byte>): Store<nat> {
    Filed(FirstTaken(SecondFiled(a, b)), 0, c)
  }

  /** The second is got and returned, the third is got, and a fourth goes into buffer 1. */
  ghost function FourthFiled(a: seq<byte>, b: seq<byte>, c: seq<byte>, d: seq<byte>): Store<nat> {
    Filed(FirstTaken(Next(Gone(ThirdFiled(a, b, c)))), 1, d)
  }

  ghost predicate Looks(s: Store<nat>, pool: seq<nat>, buff: seq<nat>, last: Option<nat>, lent: map<nat, Loan>,
                        cells: map<nat, Cell>, taken: nat, peak: nat)
  {
    s.pool == pool && s.buff == buff && s.last == last && s.lent == lent && s.cells == cells && s.taken == taken
    && s.peak == peak
  }

  /** What filing a section changes, when its buffer is not the repeat buffer. */
  lemma FiledIs(s: Store<nat>, e: nat, raw: seq<byte>)
    requires s.last != Some(e) && (s.last.Some? ==> s.last.value in s.cells && s.cells[s.last.value].ref > 0)
    ensures var r := Filed(s, e, raw);
      && r.pool == s.pool && r.buff == s.buff + [e] && r.last == Some(e) && r.lent == s.lent && r.taken == s.taken
      && r.peak == (if s.peak < |s.buff| + 1 + |s.lent| then |s.buff| + 1 + |s.lent| else s.peak)
      && r.cells == (if s.last.None? then s.cells
                     else s.cells[s.last.value := s.cells[s.last.value].(ref := s.cells[s.last.value].ref - 1)])
                      [e := Cell(raw, 8, 2, Queue)]
  {
  }

  lemma FirstLooks(a: seq<byte>)
    ensures Looks(FirstReturned(a), [0], [], Some(0), map[], map[0 := Cell(a, 8, 1, Pool)], 1, 1)
  {
    hide Filed;
    FiledIs(EmptyStore<nat>(), 0, a);
    var one := Filed(EmptyStore<nat>(), 0, a);
    assert one.buff == [0];
    var e := one.buff[0];
    assert one.cells == map[0 := Cell(a, 8, 2, Queue)];
    var got := one.Got();
    assert got.cells == map[0 := Cell(a, 8, 2, Pool)] && got.lent == map[0 := Loan(0, a, 8)];
    assert got.Returned(0).lent == map[];
  }

  lemma FirstSound(a: seq<byte>)
    ensures FirstReturned(a).Inv(None)
  {
    hide Store.Inv, Filed;
    EmptyInv<nat>();
    assert |EmptyStore<nat>().cells| == 0;
    FiledNew(EmptyStore<nat>(), 0, a);
    FiledIs(EmptyStore<nat>(), 0, a);
    GoneSound(Filed(EmptyStore<nat>(), 0, a));
  }

  lemma GoneSound(s: Store<nat>)
    requires s.Inv(None)
    ensures Gone(s).Inv(None)
  {
    hide Store.Inv;
    if |s.buff| > 0 && s.buff[0] in s.cells {
      s.GetKeeps(None);
      s.Got().ReturnKeeps(s.buff[0], None);
    }
  }

  lemma SecondIs(a: seq<byte>, b: seq<byte>)
    ensures SecondFiled(a, b).Inv(None)
    ensures Looks(SecondFiled(a, b), [0], [1], Some(1), map[],
                  map[0 := Cell(a, 8, 0, Pool), 1 := Cell(b, 8, 2, Queue)], 1, 1)
  {
    hide FirstReturned, Filed, Store.Inv;
    FirstLooks(a);
    FirstSound(a);
    FiledNew(FirstReturned(a), 1, b);
    FiledIs(FirstReturned(a), 1, b);
    assert SecondFiled(a, b).cells == map[0 := Cell(a, 8, 0, Pool), 1 := Cell(b, 8, 2, Queue)];
  }

  lemma ThirdIs(a: seq<byte>, b: seq<byte>, c: seq<byte>)
    ensures ThirdFiled(a, b, c).Inv(None)
    ensures Looks(ThirdFiled(a, b, c), [], [1, 0], Some(0), map[],
                  map[0 := Cell(c, 8, 2, Queue), 1 := Cell(b, 8, 1, Queue)], 1, 2)
  {
    hide SecondFiled, Filed, Store.Inv;
    SecondIs(a, b);
    var s := SecondFiled(a, b);
    FiledAgain(s, 0, c);
    var taken := FirstTaken(s);
    assert taken.cells == map[0 := Cell([], 0, 0, Hand), 1 := Cell(b, 8, 2, Queue)] && taken.pool == [];
    FiledIs(taken, 0, c);
    assert ThirdFiled(a, b, c).cells == map[0 := Cell(c, 8, 2, Queue), 1 := Cell(b, 8, 1, Queue)];
  }

  lemma ThirdGot(a: seq<byte>, b: seq<byte>, c: seq<byte>)
    ensures var s := Next(Gone(ThirdFiled(a, b, c)));
      && s.Inv(None)
      && Looks(s, [1, 0], [], Some(0), map[0 := Loan(2, c, 8)],
               map[0 := Cell(c, 8, 2, Pool), 1 := Cell(b, 8, 0, Pool)], 3, 2)
  {
    hide ThirdFiled, Store.Inv;
    ThirdIs(a, b, c);
    var s := ThirdFiled(a, b, c);
    GoneSound(s);
    var gone := Gone(s);
    assert gone.cells == map[0 := Cell(c, 8, 2, Queue), 1 := Cell(b, 8, 0, Pool)] && gone.lent == map[];
    assert gone.pool == [1] && gone.buff == [0];
    gone.GetKeeps(None);
    assert Next(gone).pool == [1, 0];
  }

  lemma FourthIs(a: seq<byte>, b: seq<byte>, c: seq<byte>, d: seq<byte>)
    ensures FourthFiled(a, b, c, d).Inv(None)
    ensures Looks(FourthFiled(a, b, c, d), [0], [1], Some(1), map[0 := Loan(2, c, 8)],
                  map[0 := Cell(c, 8, 1, Pool), 1 := Cell(d, 8, 2, Queue)], 3, 2)
  {
    hide ThirdFiled, Filed, Store.Inv, Gone, Next;
    ThirdGot(a, b, c);
    var s := Next(Gone(ThirdFiled(a, b, c)));
    FiledAgain(s, 0, d);
    var taken := FirstTaken(s);
    assert taken.cells == map[0 := Cell(c, 8, 2, Pool), 1 := Cell([], 0, 0, Hand)] && taken.pool == [0];
    FiledIs(taken, 1, d);
    assert |taken.lent| == 1;
    assert FourthFiled(a, b, c, d).cells == map[0 := Cell(c, 8, 1, Pool), 1 := Cell(d, 8, 2, Queue)];
  }

  /**
   The first section is returned a second time while its buffer is on loan with the third, and is not the repeat buffer:
   the next buffer taken from the pool is that one, and the loan's bytes are gone.
   */
  lemma SecondReturnLosesLoan(a: seq<byte>, b: seq<byte>, c: seq<byte>, d: seq<byte>)
    ensures var s := FourthFiled(a, b, c, d);
      var after := s.AfterRet(Some(0), 8, 0);
      && s.Inv(None) && !s.Open(Some(0), 0) && s.Claimed(Some(0), 8) && s.last != Some(0)
      && after.pool == [0] && 0 in after.cells && after.cells[0].ref < 1
      && after.Taken(0).lent == map[0 := Loan(2, c, 8)] && after.Taken(0).cells[0].raw == []
  {
    hide FourthFiled;
    FourthIs(a, b, c, d);
    hide Store.Inv;
    FourthFiled(a, b, c, d).LaterLoanLost(0, 0);
  }
}
