/** Detection of the packet size from the distances between sync bytes. */
module UnitSize {
  import opened Bytes
  import PacketLoop

  const MIN_UNIT := 188

  const UNIT_LIMIT := 320

  // ---- Counting sync pairs ----

  predicate Pair(w: seq<byte>, b: nat, i: nat) { b + i < |w| && w[b] == PacketLoop.SYNC && w[b + i] == PacketLoop.SYNC }

  /** How many of the first `n` positions hold a sync byte with another one `i` bytes on. */
  function Pairs(w: seq<byte>, i: nat, n: nat): nat {
    if n == 0 then 0 else Pairs(w, i, n - 1) + if Pair(w, n - 1, i) then 1 else 0
  }

  function Total(w: seq<byte>, i: nat): nat { Pairs(w, i, |w|) }

  /** The last positions cannot start a pair. */
  lemma {:induction false} PairsEnd(w: seq<byte>, i: nat, n: nat, m: nat)
    requires n <= m && n + i >= |w|
    ensures Pairs(w, i, m) == Pairs(w, i, n)
    decreases m
  {
    if n < m {
      PairsEnd(w, i, n, m - 1);
    }
  }

  /** `n` is the smallest interval with the most pairs, `m` of them. */
  predicate MostPairs(w: seq<byte>, n: nat, m: nat) {
    && MIN_UNIT <= n < UNIT_LIMIT && m == Total(w, n) > 0
    && forall i :: MIN_UNIT <= i < UNIT_LIMIT ==> Total(w, i) <= m && (i < n ==> Total(w, i) < m)
  }

  /** Enough pairs, and enough of the window covered by them. */
  predicate Plausible(w: seq<byte>, n: nat, m: nat) { m >= 8 && (m + 3) * n >= |w| }

  /** The bytes looked at: at most 32 packets' worth. */
  function Window(s: seq<byte>): seq<byte> { if |s| > 188 * 32 then s[..188 * 32] else s }

  /** The outcome: nothing yet, a unit, or a rejection. */
  datatype Selection = NeedMore | Unit(size: nat) | Rejected

  /** The counters after the first `n` positions, one for each interval. */
  ghost predicate Counts(w: seq<byte>, count: seq<nat>, n: nat) {
    |count| == UNIT_LIMIT - MIN_UNIT && forall j :: 0 <= j < |count| ==> count[j] == Pairs(w, MIN_UNIT + j, n)
  }

  /** The intervals below `m` have been counted for position `n` as well. */
  ghost predicate PartCounts(w: seq<byte>, count: seq<nat>, n: nat, m: nat) {
    && |count| == UNIT_LIMIT - MIN_UNIT
    && forall j :: 0 <= j < |count| ==> count[j] == Pairs(w, MIN_UNIT + j, if MIN_UNIT + j < m then n + 1 else n)
  }

  /** Intervals that do not fit behind the position gain nothing. */
  lemma AllCounted(w: seq<byte>, count: seq<nat>, n: nat)
    requires n < |w| && PartCounts(w, count, n, if n + UNIT_LIMIT > |w| then |w| - n else UNIT_LIMIT)
    ensures Counts(w, count, n + 1)
  {
  }

  lemma NoneCounted(w: seq<byte>, count: seq<nat>, n: nat)
    requires n < |w| && Counts(w, count, n) && w[n] != PacketLoop.SYNC
    ensures Counts(w, count, n + 1)
  {
  }

  /** First step: the pairs of every interval, counted position by position. */
  method CountPairs(w: seq<byte>) returns (count: array<nat>)
    ensures fresh(count) && Counts(w, count[..], |w|)
  {
    hide Pairs;
    count := new nat[UNIT_LIMIT - MIN_UNIT](_ => 0);
    var buf := 0;
    NoPairs(w, count[..]);
    while buf + MIN_UNIT < |w|
      invariant 0 <= buf <= |w|
      invariant Counts(w, count[..], buf)
    {
      if w[buf] == PacketLoop.SYNC {
        var m := if buf + UNIT_LIMIT > |w| then |w| - buf else UNIT_LIMIT;
        for i := MIN_UNIT to m
          invariant PartCounts(w, count[..], buf, i)
        {
          var j := i - MIN_UNIT;
          OnePair(w, i, buf);
          if w[buf + i] == PacketLoop.SYNC {
            count[j] := count[j] + 1;
          }
        }
        AllCounted(w, count[..], buf);
      } else {
        NoneCounted(w, count[..], buf);
      }
      buf := buf + 1;
    }
    CountsEnd(w, count[..], buf);
  }

  /** Positions too near the end start no pair of any interval. */
  lemma CountsEnd(w: seq<byte>, count: seq<nat>, n: nat)
    requires n <= |w| <= n + MIN_UNIT && Counts(w, count, n)
    ensures Counts(w, count, |w|)
  {
    hide Pairs;
    forall j | 0 <= j < |count|
      ensures count[j] == Pairs(w, MIN_UNIT + j, |w|)
    {
      PairsEnd(w, MIN_UNIT + j, n, |w|);
    }
  }

  lemma NoPairs(w: seq<byte>, count: seq<nat>)
    requires |count| == UNIT_LIMIT - MIN_UNIT && forall j :: 0 <= j < |count| ==> count[j] == 0
    ensures Counts(w, count, 0)
  {
  }

  lemma OnePair(w: seq<byte>, i: nat, n: nat)
    requires n + i < |w| && w[n] == PacketLoop.SYNC
    ensures Pairs(w, i, n + 1) == Pairs(w, i, n) + if w[n + i] == PacketLoop.SYNC then 1 else 0
  {
  }

  /** The best interval among those below `limit`; none while `m` is zero. */
  ghost predicate BestBelow(w: seq<byte>, limit: nat, n: nat, m: nat) {
    && (m > 0 ==> MIN_UNIT <= n < limit && m == Total(w, n))
    && forall k :: MIN_UNIT <= k < limit ==> Total(w, k) <= m && (k < n ==> Total(w, k) < m || m == 0)
  }

  lemma BestIs(w: seq<byte>, n: nat, m: nat)
    requires BestBelow(w, UNIT_LIMIT, n, m)
    ensures m > 0 ==> MostPairs(w, n, m)
    ensures forall k :: MIN_UNIT <= k < UNIT_LIMIT && MostPairs(w, k, Total(w, k)) ==> m > 0 && k == n
    ensures m * n + 3 * n == (m + 3) * n
  {
    hide Total;
  }

  /** The result for input `s`: the winning interval when it is plausible, and only then. */
  ghost predicate Selects(s: seq<byte>, r: Selection) {
    var w := Window(s);
    match r
    case NeedMore => |s| < 188 * 16
    case Unit(n) => |s| >= 188 * 16 && MostPairs(w, n, Total(w, n)) && Plausible(w, n, Total(w, n))
    case Rejected =>
      && |s| >= 188 * 16
      && forall n :: MIN_UNIT <= n < UNIT_LIMIT && MostPairs(w, n, Total(w, n)) ==> !Plausible(w, n, Total(w, n))
  }

  /** There is only one such result. */
  lemma SelectionUnique(s: seq<byte>, r: Selection, r': Selection)
    requires Selects(s, r) && Selects(s, r')
    ensures r == r'
  {
    hide Total, Plausible;
  }

  /** `select_unit_size`. */
  method Select(s: seq<byte>) returns (r: Selection)
    ensures Selects(s, r)
  {
    if |s| < 188 * 16 {
      return NeedMore;
    }
    var w := Window(s);
    var count := CountPairs(w);
    var m: nat, n: nat := 0, 0;
    for i := MIN_UNIT to UNIT_LIMIT
      invariant BestBelow(w, i, n, m)
    {
      var j := i - MIN_UNIT;
      assert count[..][j] == Total(w, i);
      if m < count[j] {
        m, n := count[j], i;
      }
    }
    BestIs(w, n, m);
    if m < 8 || m * n + 3 * n < |w| {
      return Rejected;
    }
    r := Unit(n);
  }

  // ---- The selection in numbers ----

  predicate SyncPair(w: seq<byte>, b: nat, n: nat) { b + n < |w| && w[b] == 0x47 && w[b + n] == 0x47 }

  /** The positions below `k` with a sync byte that has another one `n` bytes on. */
  function StartsBelow(w: seq<byte>, n: nat, k: nat): set<nat> { set b: nat | b < k && SyncPair(w, b, n) }

  function Starts(w: seq<byte>, n: nat): set<nat> { StartsBelow(w, n, |w|) }

  lemma {:induction false} PairsAre(w: seq<byte>, n: nat, k: nat)
    ensures Pairs(w, n, k) == |StartsBelow(w, n, k)|
    decreases k
  {
    if k == 0 {
      assert StartsBelow(w, n, 0) == {};
    } else {
      PairsAre(w, n, k - 1);
      var fewer := StartsBelow(w, n, k - 1);
      assert StartsBelow(w, n, k) == if Pair(w, k - 1, n) then fewer + {k - 1} else fewer;
    }
  }

  lemma TotalIs(w: seq<byte>, n: nat)
    ensures Total(w, n) == |Starts(w, n)|
  {
    PairsAre(w, n, |w|);
  }

  /** The first 6016 bytes, or fewer when there are fewer. */
  function Looked(s: seq<byte>): seq<byte> { if |s| >= 6016 then s[..6016] else s }

  /**
   A unit is selected exactly when there are 3008 bytes, its distance between sync bytes is the most frequent of those
   from 188 to 319 and the smallest such, occurs eight times, and with three more would fill the bytes looked at.
   */
  lemma SelectedWhen(s: seq<byte>, n: nat)
    ensures Selects(s, Unit(n)) <==>
      && |s| >= 3008 && 188 <= n <= 319
      && |Starts(Looked(s), n)| >= 8 && (|Starts(Looked(s), n)| + 3) * n >= |Looked(s)|
      && forall i :: 188 <= i <= 319 ==>
           && |Starts(Looked(s), i)| <= |Starts(Looked(s), n)|
           && (i < n ==> |Starts(Looked(s), i)| < |Starts(Looked(s), n)|)
    ensures Selects(s, NeedMore) <==> |s| < 3008
  {
    hide Starts, Total;
    var w := Window(s);
    assert w == Looked(s);
    forall i: nat
      ensures Total(w, i) == |Starts(w, i)|
    {
      TotalIs(w, i);
    }
  }

  // ---- Exact streams ----

  /** The positions `o`, `o + u`, `o + 2u` and so on. */
  predicate OnGrid(b: int, o: nat, u: nat)
    requires u > 0
    decreases b
  {
    b == o || (b >= o + u && OnGrid(b - u, o, u))
  }

  /** Sync bytes stand on the grid and nowhere else. */
  ghost predicate Exact(w: seq<byte>, o: nat, u: nat)
    requires u > 0
  {
    forall b :: 0 <= b < |w| ==> (w[b] == PacketLoop.SYNC <==> OnGrid(b, o, u))
  }

  /** Two grid positions less than two units apart are one unit apart. */
  lemma {:induction false} GridGap(b: int, i: int, o: nat, u: nat)
    requires u > 0 && 0 < i < 2 * u && OnGrid(b, o, u) && OnGrid(b + i, o, u)
    ensures i == u
    decreases b
  {
    if b > o {
      GridGap(b - u, i, o, u);
    }
  }

  lemma {:induction false} OtherIntervals(w: seq<byte>, o: nat, u: nat, i: nat, n: nat)
    requires MIN_UNIT <= u && Exact(w, o, u) && MIN_UNIT <= i < UNIT_LIMIT && i != u && n <= |w|
    ensures Pairs(w, i, n) == 0
    decreases n
  {
    if n > 0 {
      OtherIntervals(w, o, u, i, n - 1);
      if Pair(w, n - 1, i) {
        GridGap(n - 1, i, o, u);
        assert false;
      }
    }
  }

  lemma GridNext(b: int, o: nat, u: nat)
    requires u > 0 && OnGrid(b, o, u)
    ensures OnGrid(b + u, o, u) && b >= o
  {
  }

  /** With the pairs counted up to `n`, the next grid position is not behind `n`. */
  lemma {:induction false} PairsFollow(w: seq<byte>, o: nat, u: nat, n: nat)
    requires u > 0 && Exact(w, o, u) && n + u <= |w|
    ensures OnGrid(o + Pairs(w, u, n) * u, o, u) && n <= o + Pairs(w, u, n) * u
    ensures Pairs(w, u, n) == 0 || o + (Pairs(w, u, n) - 1) * u < n
    decreases n
  {
    if n > 0 {
      PairsFollow(w, o, u, n - 1);
      var k := Pairs(w, u, n - 1);
      var next := o + k * u;
      assert (k + 1) * u == k * u + u && (k - 1) * u == k * u - u;
      GridNext(next, o, u);
      if Pair(w, n - 1, u) {
        if next > n - 1 {
          GridGap(n - 1, next - (n - 1), o, u);
        }
      } else if next == n - 1 {
        GridNext(n - 1, o, u);
        assert false;
      }
    }
  }

  lemma AtLeastEight(p: nat, u: nat, span: int)
    requires u < UNIT_LIMIT && p * u >= span >= 188 * 16 - 2 * UNIT_LIMIT
    ensures p >= 8
  {
    assert p <= 7 ==> p * u <= 7 * u;
  }

  /** A stream with its sync bytes exactly one unit apart is recognised, whatever its first packet's offset. */
  lemma ExactWins(w: seq<byte>, o: nat, u: nat)
    requires MIN_UNIT <= u < UNIT_LIMIT && o < u && 188 * 16 <= |w| <= 188 * 32 && Exact(w, o, u)
    ensures MostPairs(w, u, Total(w, u)) && Plausible(w, u, Total(w, u))
    ensures forall n :: MIN_UNIT <= n < UNIT_LIMIT && MostPairs(w, n, Total(w, n)) ==> n == u
  {
    var n := |w| - u;
    PairsFollow(w, o, u, n);
    PairsEnd(w, u, n, |w|);
    AtLeastEight(Total(w, u), u, |w| - u - o);
    forall i | MIN_UNIT <= i < UNIT_LIMIT && i != u
      ensures Total(w, i) == 0
    {
      OtherIntervals(w, o, u, i, |w|);
    }
  }

  /** For every input of sixteen packets' worth or more. */
  lemma ExactSelected(s: seq<byte>, o: nat, u: nat, r: Selection)
    requires MIN_UNIT <= u < UNIT_LIMIT && o < u && |s| >= 188 * 16 && Exact(Window(s), o, u)
    requires Selects(s, r)
    ensures r == Unit(u)
  {
    hide Total, Plausible, Exact;
    ExactWins(Window(s), o, u);
  }
}
