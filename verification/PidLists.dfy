/** What a program association table and a program map table come to, told from the entries they have. */
module PidLists {
  import opened PidStore
  import opened PidRegistry

  // ---- The programs a program association table announces ----

  /** The entries in front of the `k`th that announce a program; entry number 0 gives the network PID instead. */
  function Numbered(pat: seq<PatEntry>, k: nat): set<nat>
    requires k <= |pat|
  {
    set j: nat | j < k && pat[j].number != 0
  }

  lemma NumberedMore(pat: seq<PatEntry>, k: nat)
    requires k < |pat|
    ensures Numbered(pat, k + 1) == if pat[k].number != 0 then Numbered(pat, k) + {k} else Numbered(pat, k)
    ensures k !in Numbered(pat, k)
  {
  }

  lemma NumberedFront(pat: seq<PatEntry>, n: nat, k: nat)
    requires k <= n <= |pat|
    ensures Numbered(pat[..n], k) == Numbered(pat, k)
  {
  }

  /**
   There is a program for each entry with a number, and none besides: an entry's program stands behind those of the
   entries in front of it, with the entry's PID and no streams.
   */
  lemma {:induction false} AnnouncedAre(pat: seq<PatEntry>)
    ensures |Announced(pat)| == |Numbered(pat, |pat|)|
    ensures forall k :: 0 <= k < |pat| && pat[k].number != 0 ==> StandsAt(pat, k)
    decreases |pat|
  {
    hide Numbered, StandsAt;
    var n := |pat| - 1;
    if n >= 0 {
      var front := pat[..n];
      AnnouncedAre(front);
      NumberedMore(pat, n);
      NumberedFront(pat, n, n);
      forall k | 0 <= k < n && pat[k].number != 0
        ensures StandsAt(pat, k)
      {
        assert front[k] == pat[k];
        StillStands(pat, k);
      }
      if pat[n].number != 0 {
        LastStands(pat);
      }
    } else {
      NoneNumbered(pat);
    }
  }

  predicate StandsAt(pat: seq<PatEntry>, k: nat)
    requires k < |pat|
  {
    var n := |Numbered(pat, k)|;
    n < |Announced(pat)| && Announced(pat)[n] == TsProgram(pat[k].pid, [], [])
  }

  lemma NoneNumbered(pat: seq<PatEntry>)
    ensures Numbered(pat, 0) == {}
  {
  }

  lemma StillStands(pat: seq<PatEntry>, k: nat)
    requires k < |pat| - 1 && StandsAt(pat[..|pat| - 1], k)
    ensures StandsAt(pat, k)
  {
    hide Numbered;
    NumberedFront(pat, |pat| - 1, k);
  }

  lemma LastStands(pat: seq<PatEntry>)
    requires |pat| > 0 && pat[|pat| - 1].number != 0
    requires |Announced(pat[..|pat| - 1])| == |Numbered(pat, |pat| - 1)|
    ensures StandsAt(pat, |pat| - 1)
  {
    hide Numbered;
  }

  // ---- The stream list of a program map table ----

  /** The streams of a table, up to the `k`th, that have this PID. */
  function StreamsWith(info: PmtInfo, k: nat, pid: nat): set<nat>
    requires k <= |info.es|
  {
    set j: nat | j < k && info.es[j].pid == pid
  }

  /** The table's own ECM, or that of one of its first `k` streams, has this PID. */
  predicate Scrambles(info: PmtInfo, k: nat, pid: nat)
    requires k <= |info.es|
  {
    && pid != 0 && pid != 0x1fff
    && (info.ecmPid == pid || exists j :: 0 <= j < k && info.es[j].ecmPid == pid)
  }

  lemma StreamsWithMore(info: PmtInfo, k: nat, pid: nat)
    requires k < |info.es|
    ensures |StreamsWith(info, k + 1, pid)| == |StreamsWith(info, k, pid)| + if info.es[k].pid == pid then 1 else 0
  {
    assert StreamsWith(info, k + 1, pid)
      == if info.es[k].pid == pid then StreamsWith(info, k, pid) + {k} else StreamsWith(info, k, pid);
  }

  lemma ScramblesMore(info: PmtInfo, k: nat, pid: nat)
    requires k < |info.es|
    ensures Scrambles(info, k + 1, pid)
      == (Scrambles(info, k, pid) || (pid != 0 && pid != 0x1fff && info.es[k].ecmPid == pid))
  {
  }

  lemma CountJoined(streams: seq<nat>, e: EsInfo, pid: nat)
    ensures multiset(Joined(streams, e))[pid] == multiset(streams)[pid] + (if e.pid == pid then 1 else 0)
      + if e.ecmPid == pid && pid != 0 && pid != 0x1fff && pid !in streams then 1 else 0
  {
    var s := if Names(e.ecmPid) then WithEcm(streams, e.ecmPid) else streams;
    assert multiset(s + [e.pid]) == multiset(s) + multiset{e.pid};
    assert multiset(streams + [e.ecmPid]) == multiset(streams) + multiset{e.ecmPid};
  }

  /**
   How often the list names a PID: once for each elementary stream with it, and once for all the ECMs with it. A table
   that keeps to the uses of the PIDs has no PID that is both.
   */
  lemma {:induction false} StreamCounts(roles: Roles, info: PmtInfo, k: nat, pid: nat)
    requires k <= |info.es| && PmtOk(roles, info)
    ensures multiset(StreamsOf(info, k))[pid]
      == |StreamsWith(info, k, pid)| + if Scrambles(info, k, pid) then 1 else 0
    decreases k
  {
    hide PmtOk, StreamsWith, Scrambles, Joined;
    if k == 0 {
      NoStreams(info, pid);
    } else {
      StreamCounts(roles, info, k - 1, pid);
      CountJoined(StreamsOf(info, k - 1), info.es[k - 1], pid);
      StreamsWithMore(info, k - 1, pid);
      ScramblesMore(info, k - 1, pid);
      if info.es[k - 1].ecmPid == pid && pid != 0 && pid != 0x1fff {
        NoStreamWith(roles, info, k - 1, pid);
        CountIsMembership(StreamsOf(info, k - 1), pid);
      }
    }
  }

  lemma NoStreams(info: PmtInfo, pid: nat)
    ensures StreamsWith(info, 0, pid) == {}
    ensures multiset(StreamsOf(info, 0))[pid] == if Scrambles(info, 0, pid) then 1 else 0
  {
  }

  lemma CountIsMembership(streams: seq<nat>, pid: nat)
    ensures pid in streams <==> multiset(streams)[pid] > 0
  {
  }

  /** An ECM PID is not an elementary stream's. */
  lemma NoStreamWith(roles: Roles, info: PmtInfo, k: nat, pid: nat)
    requires k < |info.es| && PmtOk(roles, info) && info.es[k].ecmPid == pid && pid != 0 && pid != 0x1fff
    ensures |StreamsWith(info, k, pid)| == 0 && info.es[k].pid != pid
  {
    assert EsOk(roles, info.es[k]);
    forall j | 0 <= j < k
      ensures info.es[j].pid != pid
    {
      assert EsOk(roles, info.es[j]);
    }
    assert StreamsWith(info, k, pid) == {};
  }

  /** The streams stand in the list in the table's order: what a table adds is behind what it had before. */
  lemma {:induction false} StreamsInOrder(info: PmtInfo, j: nat, k: nat)
    requires j <= k <= |info.es|
    ensures StreamsOf(info, j) <= StreamsOf(info, k)
    ensures j < k ==> info.es[j].pid in StreamsOf(info, k)[|StreamsOf(info, j)|..]
    decreases k - j
  {
    if j < k {
      hide StreamsOf;
      StreamsInOrder(info, j + 1, k);
      OneStream(info, j);
      var a, b, c := StreamsOf(info, j), StreamsOf(info, j + 1), StreamsOf(info, k);
      assert c[|b| - 1] == b[|b| - 1] == info.es[j].pid;
      assert c[|a|..][|b| - 1 - |a|] == c[|b| - 1];
    }
  }

  lemma OneStream(info: PmtInfo, j: nat)
    requires j < |info.es|
    ensures var (a, b) := (StreamsOf(info, j), StreamsOf(info, j + 1));
      a <= b && |a| < |b| <= |a| + 2 && b[|b| - 1] == info.es[j].pid
  {
  }
}
