/**
 The decoder's PID map, programs and decryptors, updated in place by program association, program map and conditional
 access tables. A table arrives here parsed.
 */
module PidRegistry {
  import opened Prelude
  import opened PidStore

  const NO_PID := 0x1fff

  /** A decryptor. Its key state is in module `EcmKeys`. */
  class DecryptorElem {
    var ref: int
    const ecmPid: nat

    constructor (pid: nat)
      ensures ref == 0 && ecmPid == pid
    {
      ref, ecmPid := 0, pid;
    }
  }

  /** A program: its PMT's PID, and the PIDs its two latest PMTs named. */
  datatype TsProgram = TsProgram(pmtPid: nat, streams: seq<nat>, oldStrm: seq<nat>)

  /** An elementary stream of a PMT and the ECM PID its descriptors give. */
  datatype EsInfo = EsInfo(pid: nat, ecmPid: nat)

  /** The ECM PID of the program's own descriptors, and its elementary streams. */
  datatype PmtInfo = PmtInfo(ecmPid: nat, es: seq<EsInfo>)

  /** An ECM PID that names a stream: 0 is no descriptor, 0x1fff is an unscrambled stream. */
  predicate Names(ecmPid: nat) { ecmPid != 0 && ecmPid != NO_PID }

  function TargetOf(dec: DecryptorElem?): Target<DecryptorElem> {
    if dec == null then Null else var d: DecryptorElem := dec; Dec(d)
  }

  // ---- Stream lists ----

  ghost function ListedBy(p: TsProgram): multiset<nat> { multiset(p.streams) + multiset(p.oldStrm) }

  /** How often the stream lists of all programs name each PID. */
  ghost function Listed(ps: seq<TsProgram>): multiset<nat> {
    if |ps| == 0 then multiset{} else Listed(ps[..|ps| - 1]) + ListedBy(ps[|ps| - 1])
  }

  ghost function Pmts(ps: seq<TsProgram>): (r: seq<nat>)
    ensures |r| == |ps| && forall i :: 0 <= i < |ps| ==> r[i] == ps[i].pmtPid
  {
    seq(|ps|, i requires 0 <= i < |ps| => ps[i].pmtPid)
  }

  lemma {:induction false} ListedUpdate(ps: seq<TsProgram>, i: nat, p: TsProgram)
    requires i < |ps|
    ensures Listed(ps[i := p]) + ListedBy(ps[i]) == Listed(ps) + ListedBy(p)
    decreases |ps|
  {
    hide ListedBy;
    var last := |ps| - 1;
    if i == last {
      assert ps[i := p][..last] == ps[..last];
    } else {
      ListedUpdate(ps[..last], i, p);
      assert ps[i := p][..last] == ps[..last][i := p];
      assert Listed(ps) == Listed(ps[..last]) + ListedBy(ps[last]);
      assert Listed(ps[i := p]) == Listed(ps[..last][i := p]) + ListedBy(ps[last]);
      assert ps[..last][i] == ps[i];
      var x := ListedBy(ps[last]);
      assert Listed(ps[i := p]) + ListedBy(ps[i]) == (Listed(ps[..last][i := p]) + ListedBy(ps[i])) + x;
    }
  }

  lemma ListedHas(ps: seq<TsProgram>, i: nat, p: nat)
    requires i < |ps| && p in ps[i].streams
    ensures p in Listed(ps)
  {
    var without := TsProgram(ps[i].pmtPid, [], []);
    ListedUpdate(ps, i, without);
    hide Listed;
    assert (Listed(ps[i := without]) + ListedBy(ps[i]))[p] == (Listed(ps) + ListedBy(without))[p];
    assert p in multiset(ps[i].streams);
  }

  /** What is listed when the first `k` elements of a list have been counted off. */
  ghost function LeftOf(list: seq<nat>, k: nat, rest: multiset<nat>): multiset<nat>
    requires k <= |list|
  {
    multiset(list[k..]) + rest
  }

  lemma AllLeft(list: seq<nat>, rest: multiset<nat>)
    ensures LeftOf(list, 0, rest) == multiset(list) + rest && LeftOf(list, |list|, rest) == rest
  {
    assert list[0..] == list && list[|list|..] == [];
    assert multiset{} + rest == rest;
  }

  lemma LeftOne(list: seq<nat>, k: nat, rest: multiset<nat>)
    requires k < |list|
    ensures LeftOf(list, k, rest) == multiset{list[k]} + LeftOf(list, k + 1, rest)
    ensures forall q :: q in rest ==> q in LeftOf(list, k + 1, rest)
    ensures list[k] in list
  {
    assert list[k..] == [list[k]] + list[k + 1..];
  }

  lemma NothingExtra(listed: multiset<nat>)
    ensures listed + multiset{} == listed
  {
  }

  /** A program's current stream list is replaced. */
  function WithStreams(ps: seq<TsProgram>, i: nat, streams: seq<nat>): (r: seq<TsProgram>)
    requires i < |ps|
    ensures |r| == |ps| && r[i].streams == streams
  {
    ps[i := ps[i].(streams := streams)]
  }

  lemma WithStreamsSame(ps: seq<TsProgram>, i: nat)
    requires i < |ps|
    ensures WithStreams(ps, i, ps[i].streams) == ps
  {
  }

  lemma WithStreamsTwice(ps: seq<TsProgram>, i: nat, a: seq<nat>, b: seq<nat>)
    requires i < |ps|
    ensures WithStreams(WithStreams(ps, i, a), i, b) == WithStreams(ps, i, b)
  {
  }

  class Registry {
    const pidMap: array<Entry<DecryptorElem>>
    var program: seq<TsProgram>
    var decrypt: seq<DecryptorElem>
    ghost var repr: set<DecryptorElem>
    /** What each PID is used for, until the next program association table. */
    ghost var roles: Roles

    ghost function View(): Store<DecryptorElem>
      reads `decrypt, `repr, pidMap, repr
    {
      Store(pidMap[..], map d | d in repr :: Cell(d.ref, d.ecmPid), decrypt)
    }

    ghost predicate Ok(listed: multiset<nat>, pinned: Option<DecryptorElem>, loose: set<DecryptorElem>)
      reads this, pidMap, repr
    {
      pidMap.Length == PIDS && View().Inv(roles, listed, Pmts(program), pinned, loose)
    }

    ghost predicate Valid()
      reads this, pidMap, repr
    {
      Ok(Listed(program), None, {}) && ProgramsOk(roles, program)
    }

    constructor ()
      ensures Valid() && program == [] && fresh(pidMap) && repr == {}
    {
      pidMap := new Entry<DecryptorElem>[PIDS](_ => Entry(0, UnknownKind, Null));
      program, decrypt, repr, roles := [], [], {}, seq(PIDS, _ => FixedRole);
    }

    /** `remove_decryptor`. */
    method RemoveDecryptor(dec: DecryptorElem)
      requires dec in repr && dec.ecmPid < pidMap.Length
      modifies `decrypt, `repr, pidMap
      ensures View() == old(View()).Removed(dec)
      ensures repr == old(repr) - {dec}
    {
      var pid := dec.ecmPid;
      var e := pidMap[pid];
      if e.kind == EcmKind && e.target == Dec(dec) {
        pidMap[pid] := e.(kind := UnknownKind, target := Null);
      }
      decrypt := Without(decrypt, dec);
      repr := repr - {dec};
    }

    /** A stream's decryptor is needed by one stream less, and freed when it was the last; the entry lets go of it. */
    method LetGo(pid: nat, ghost listed: multiset<nat>, ghost pinned: Option<DecryptorElem>,
                 ghost loose: set<DecryptorElem>)
      requires pid < PIDS && Ok(listed, pinned, loose) && roles[pid] == EsRole && pidMap[pid].target.Dec?
      modifies `decrypt, `repr, pidMap, repr
      ensures Ok(listed, pinned, loose) && pidMap[pid] == old(pidMap[pid]).(target := Null)
      ensures Untouched(roles, pid, old(pidMap[..]), pidMap[..], repr)
      ensures repr == old(repr) || repr == old(repr) - {old(pidMap[pid].target.d)}
    {
      hide Store.Inv;
      var dec := pidMap[pid].target.d;
      TargetAlive(pid, listed, pinned, loose);
      ghost var v := View();
      v.DetachKeeps(roles, listed, Pmts(program), pinned, loose, pid, dec);
      dec.ref := dec.ref - 1;
      pidMap[pid] := pidMap[pid].(target := Null);
      assert View() == v.Detached(pid, dec);
      Collect(dec, listed, pinned, loose);
    }

    /** Frees a decryptor nobody needs. */
    method Collect(dec: DecryptorElem, ghost listed: multiset<nat>, ghost pinned: Option<DecryptorElem>,
                   ghost loose: set<DecryptorElem>)
      requires Ok(listed, pinned, loose + {dec}) && dec in repr
      modifies `decrypt, `repr, pidMap
      ensures Ok(listed, pinned, loose) && repr == if dec.ref < 1 then old(repr) - {dec} else old(repr)
      ensures Untouched(roles, PIDS, old(pidMap[..]), pidMap[..], repr)
    {
      hide Store.Inv, Store.Removed;
      ghost var v := View();
      v.DecryptorIs(roles, listed, Pmts(program), pinned, loose + {dec}, dec);
      if dec.ref < 1 {
        v.RemoveKeeps(roles, listed, Pmts(program), pinned, loose + {dec}, dec);
        RemoveDecryptor(dec);
        View().Loosen(roles, listed, Pmts(program), pinned, loose + {dec} - {dec}, loose);
        v.RemovedElsewhere(dec);
      } else {
        v.Settle(roles, listed, Pmts(program), pinned, loose + {dec}, dec);
        v.Loosen(roles, listed, Pmts(program), pinned, loose + {dec} - {dec}, loose);
      }
    }

    lemma TargetAlive(pid: nat, listed: multiset<nat>, pinned: Option<DecryptorElem>, loose: set<DecryptorElem>)
      requires pid < PIDS && Ok(listed, pinned, loose) && roles[pid] != FixedRole && pidMap[pid].target.Dec?
      ensures pidMap[pid].target.d in repr && pidMap[pid].target.d.ecmPid < PIDS
    {
      hide Users, Uses;
      assert View().EntryOk(roles[pid], listed[pid], Pmts(program), pid, View().entries[pid]);
    }

    /** The entry's count drops; at zero the entry is cleared. The count is unsigned. */
    method DropEntry(pid: nat, ghost listed: multiset<nat>, ghost pinned: Option<DecryptorElem>,
                     ghost loose: set<DecryptorElem>)
      requires Ok(listed, pinned, loose) && pid in listed && pid < PIDS
      requires pidMap[pid].ref == listed[pid]
      requires roles[pid] == EsRole && pidMap[pid].ref == 1 ==> pidMap[pid].target == Null
      modifies pidMap
      ensures Ok(listed - multiset{pid}, pinned, loose) && pidMap.Length == PIDS
      ensures forall q :: 0 <= q < PIDS && q != pid ==> pidMap[q] == old(pidMap[q])
      ensures old(pidMap[pid]).ref > 1 ==>
        pidMap[pid].kind == old(pidMap[pid]).kind && pidMap[pid].target == old(pidMap[pid]).target
    {
      hide Store.Inv;
      ghost var v := View();
      v.UnlistKeeps(roles, listed, Pmts(program), pinned, loose, pid);
      var e := pidMap[pid];
      var ref := if e.ref == 0 then 0xffff_ffff else e.ref - 1;
      pidMap[pid] := if ref < 1 then Entry(0, UnknownKind, Null) else e.(ref := ref);
      assert View() == v.Unlisted(pid);
    }

    /** `unref_stream`: one stream list element less names the PID; the last one clears the entry. */
    method UnrefStream(pid: nat, ghost listed: multiset<nat>, ghost pinned: Option<DecryptorElem>,
                       ghost loose: set<DecryptorElem>)
      requires Ok(listed, pinned, loose) && pid in listed && pid < PIDS
      modifies `decrypt, `repr, pidMap, repr
      ensures Ok(listed - multiset{pid}, pinned, loose)
      ensures repr <= old(repr) && EntriesKept(roles, listed - multiset{pid}, old(pidMap[..]), pidMap[..], repr)
    {
      hide Registry.Ok, Store.Inv, StillBehind;
      ListedEntry(pid, listed, pinned, loose);
      var e := pidMap[pid];
      ghost var before, alive := pidMap[..], repr;
      if e.ref == 1 && e.target.Dec? && e.kind == OtherKind {
        LetGo(pid, listed, pinned, loose);
      } else {
        NothingTouched(roles, before, repr);
      }
      ghost var between := pidMap[..];
      DropEntry(pid, listed, pinned, loose);
      OneDropped(roles, pid, listed, before, between, pidMap[..], repr);
    }

    /** An entry that the lists name is an elementary stream's or an ECM's, and counts them. */
    lemma ListedEntry(pid: nat, listed: multiset<nat>, pinned: Option<DecryptorElem>, loose: set<DecryptorElem>)
      requires Ok(listed, pinned, loose) && pid in listed && pid < PIDS
      ensures pidMap.Length == PIDS
      ensures roles[pid] == EsRole || roles[pid] == EcmRole
      ensures pidMap[pid].ref == listed[pid]
      ensures roles[pid] == EsRole ==> pidMap[pid].kind == OtherKind && !pidMap[pid].target.Prog?
      ensures roles[pid] == EcmRole ==> pidMap[pid].kind != OtherKind
    {
      hide Users, Uses;
      assert View().EntryOk(roles[pid], listed[pid], Pmts(program), pid, View().entries[pid]);
    }

    /** `set_decryptor`: the decryptor behind an ECM PID, a new unused one when there is none. */
    method SetDecryptor(pid: nat, ghost listed: multiset<nat>, ghost pinned: Option<DecryptorElem>)
      returns (dec: DecryptorElem)
      requires Ok(listed, pinned, {}) && pid < PIDS && roles[pid] == EcmRole
      modifies `decrypt, `repr, pidMap
      ensures Ok(listed, pinned, {dec}) && dec in repr && dec.ecmPid == pid
      ensures pidMap[pid].kind == EcmKind && pidMap[pid].target == Dec(dec)
      ensures Untouched(roles, PIDS, old(pidMap[..]), pidMap[..], repr) && repr == old(repr) + {dec}
        && (dec in old(repr) || fresh(dec))
    {
      hide Registry.Ok;
      EcmEntry(pid, listed, pinned, {});
      if pidMap[pid].kind == EcmKind {
        dec := pidMap[pid].target.d;
        Loosened(listed, pinned, {}, {dec});
      } else {
        dec := Create(pid, listed, pinned);
      }
    }

    method Create(pid: nat, ghost listed: multiset<nat>, ghost pinned: Option<DecryptorElem>)
      returns (dec: DecryptorElem)
      requires Ok(listed, pinned, {}) && pid < PIDS && roles[pid] == EcmRole && pidMap[pid].kind == UnknownKind
      modifies `decrypt, `repr, pidMap
      ensures Ok(listed, pinned, {dec}) && fresh(dec) && dec.ecmPid == pid
      ensures pidMap[pid].kind == EcmKind && pidMap[pid].target == Dec(dec)
      ensures Untouched(roles, PIDS, old(pidMap[..]), pidMap[..], repr) && repr == old(repr) + {dec}
    {
      hide Store.Inv;
      ghost var v := View();
      dec := new DecryptorElem(pid);
      v.CreateKeeps(roles, listed, Pmts(program), pinned, {}, pid, dec);
      decrypt := decrypt + [dec];
      repr := repr + {dec};
      pidMap[pid] := pidMap[pid].(kind := EcmKind, target := Dec(dec));
      assert View() == v.Created(pid, dec);
      assert {} + {dec} == {dec};
    }

    lemma Loosened(listed: multiset<nat>, pinned: Option<DecryptorElem>, loose: set<DecryptorElem>,
                   more: set<DecryptorElem>)
      requires Ok(listed, pinned, loose) && loose <= more
      ensures Ok(listed, pinned, more)
    {
      hide Store.Inv;
      View().Loosen(roles, listed, Pmts(program), pinned, loose, more);
    }

    lemma EcmEntry(pid: nat, listed: multiset<nat>, pinned: Option<DecryptorElem>, loose: set<DecryptorElem>)
      requires Ok(listed, pinned, loose) && pid < PIDS && roles[pid] == EcmRole
      ensures pidMap.Length == PIDS
      ensures pidMap[pid].kind == UnknownKind || pidMap[pid].kind == EcmKind
      ensures pidMap[pid].kind == EcmKind ==>
        pidMap[pid].target.Dec? && pidMap[pid].target.d in repr && pidMap[pid].target.d.ecmPid == pid
    {
      hide Users, Uses;
      assert View().EntryOk(roles[pid], listed[pid], Pmts(program), pid, View().entries[pid]);
    }

    /** A PID joins the stream list of a program. */
    method AddStream(i: nat, pid: nat)
      requires i < |program|
      modifies `program
      ensures program == WithStreams(old(program), i, old(program[i]).streams + [pid])
      ensures Listed(program) == old(Listed(program)) + multiset{pid} && Pmts(program) == old(Pmts(program))
    {
      ghost var ps := program;
      var p := program[i].(streams := program[i].streams + [pid]);
      program := program[i := p];
      ListedUpdate(ps, i, p);
      assert ListedBy(p) == ListedBy(ps[i]) + multiset{pid};
      MultisetCancel(Listed(program), Listed(ps), ListedBy(ps[i]), multiset{pid});
    }

    /** `add_ecm_stream`: an ECM PID joins a stream list once. */
    method AddEcmStream(i: nat, pid: nat, ghost extra: multiset<nat>, ghost pinned: Option<DecryptorElem>,
                        ghost loose: set<DecryptorElem>)
      requires Ok(Listed(program) + extra, pinned, loose) && pid < PIDS && roles[pid] == EcmRole && i < |program|
      modifies `program, pidMap
      ensures Ok(Listed(program) + extra, pinned, loose)
      ensures program == WithStreams(old(program), i, WithEcm(old(program[i]).streams, pid))
      ensures Untouched(roles, PIDS, old(pidMap[..]), pidMap[..], repr)
    {
      hide Store.Inv;
      if pid in program[i].streams {
        return;
      }
      ghost var v, ps := View(), program;
      v.ListEcmKeeps(roles, Listed(ps) + extra, Pmts(ps), pinned, loose, pid);
      AddStream(i, pid);
      pidMap[pid] := pidMap[pid].(ref := pidMap[pid].ref + 1);
      assert View() == v.WithEntry(pid, v.entries[pid].(ref := v.entries[pid].ref + 1));
      assert Listed(program) + extra == Listed(ps) + extra + multiset{pid};
    }

    /** `bind_stream_decryptor`: the stream's decryptor becomes `dec`, which may be none. */
    method BindStreamDecryptor(pid: nat, dec: DecryptorElem?, ghost listed: multiset<nat>,
                               ghost pinned: Option<DecryptorElem>, ghost loose: set<DecryptorElem>)
      requires Ok(listed, pinned, loose) && pid < PIDS && roles[pid] == EsRole && pid in listed
      requires loose <= (if dec == null then {} else {dec}) && (dec != null ==> dec in repr)
      modifies `decrypt, `repr, pidMap, repr
      ensures Ok(listed, pinned, {})
      ensures pidMap[pid].target == TargetOf(dec)
      ensures Untouched(roles, pid, old(pidMap[..]), pidMap[..], repr)
      ensures repr <= old(repr) && (dec != null ==> dec in repr)
    {
      hide Registry.Ok;
      ListedEntry(pid, listed, pinned, loose);
      ghost var before := pidMap[..];
      var bound := pidMap[pid].target;
      if bound == TargetOf(dec) {
        if dec != null {
          InUse(pid, dec, listed, pinned, loose);
        } else {
          Loosened(listed, pinned, loose, {});
        }
        NothingTouched(roles, before, repr);
        return;
      }
      hide Untouched;
      Unbind(pid, dec, listed, pinned, loose);
      ghost var between, kept := pidMap[..], repr;
      if dec != null {
        Attach(pid, dec, listed, pinned, loose);
        UntouchedTwice(roles, pid, pid, before, between, pidMap[..], kept, repr);
      } else {
        Loosened(listed, pinned, loose, {});
      }
    }

    method Unbind(pid: nat, ghost keep: DecryptorElem?, ghost listed: multiset<nat>,
                  ghost pinned: Option<DecryptorElem>, ghost loose: set<DecryptorElem>)
      requires Ok(listed, pinned, loose) && pid < PIDS && roles[pid] == EsRole && pid in listed
      requires pidMap[pid].target != TargetOf(keep)
      modifies `decrypt, `repr, pidMap, repr
      ensures Ok(listed, pinned, loose) && pidMap[pid] == old(pidMap[pid]).(target := Null)
      ensures Untouched(roles, pid, old(pidMap[..]), pidMap[..], repr) && repr <= old(repr)
        && (keep != null && keep in old(repr) ==> keep in repr)
    {
      hide Registry.Ok;
      ListedEntry(pid, listed, pinned, loose);
      if pidMap[pid].target != Null {
        LetGo(pid, listed, pinned, loose);
      }
    }

    lemma InUse(pid: nat, dec: DecryptorElem, listed: multiset<nat>, pinned: Option<DecryptorElem>,
                loose: set<DecryptorElem>)
      requires Ok(listed, pinned, loose) && pid < PIDS && dec in repr && loose <= {dec}
      requires pidMap[pid].kind == OtherKind && pidMap[pid].target == Dec(dec)
      ensures Ok(listed, pinned, {})
    {
      hide Store.Inv;
      View().UsedIs(roles, listed, Pmts(program), pinned, loose, pid, dec);
      View().Settle(roles, listed, Pmts(program), pinned, loose, dec);
      View().Loosen(roles, listed, Pmts(program), pinned, loose - {dec}, {});
    }

    method Attach(pid: nat, dec: DecryptorElem, ghost listed: multiset<nat>, ghost pinned: Option<DecryptorElem>,
                  ghost loose: set<DecryptorElem>)
      requires Ok(listed, pinned, loose) && pid < PIDS && roles[pid] == EsRole && dec in repr && loose <= {dec}
      requires pidMap[pid].kind == OtherKind && pidMap[pid].target == Null
      modifies pidMap, dec
      ensures Ok(listed, pinned, {})
      ensures pidMap[pid].target == Dec(dec) && Untouched(roles, pid, old(pidMap[..]), pidMap[..], repr)
    {
      hide Store.Inv;
      ghost var v := View();
      v.AttachKeeps(roles, listed, Pmts(program), pinned, loose, pid, dec);
      pidMap[pid] := pidMap[pid].(target := Dec(dec));
      dec.ref := dec.ref + 1;
      assert View() == v.Attached(pid, dec);
      View().Loosen(roles, listed, Pmts(program), pinned, loose - {dec}, {});
    }

    // ---- Program map tables ----

    /** One elementary stream of a PMT: its own ECM's decryptor, the program's, or none. */
    method AddElementary(i: nat, e: EsInfo, main: DecryptorElem?) returns (ghost made: set<DecryptorElem>)
      requires Ok(Listed(program), Present(main), {}) && i < |program| && EsOk(roles, e)
      modifies `program, `decrypt, `repr, pidMap, repr
      ensures Ok(Listed(program), Present(main), {})
      ensures program == WithStreams(old(program), i, Joined(old(program[i]).streams, e))
      ensures BoundTo(pidMap[..], e, main)
      ensures Untouched(roles, e.pid, old(pidMap[..]), pidMap[..], repr)
      ensures repr <= old(repr) + made && fresh(made)
    {
      made := {};
      hide Registry.Ok, Untouched, WithEcm, WithStreams;
      ghost var pinned, before, ps := Present(main), pidMap[..], program;
      PinnedAlive(Listed(program), pinned, {});
      if Names(e.ecmPid) {
        var own := OwnDecryptor(i, e.ecmPid, pinned);
        made := if own in old(repr) then {} else {own};
        ghost var between, owned := pidMap[..], repr;
        BindElementary(i, e.pid, own, pinned, {own});
        UntouchedTwice(roles, PIDS, e.pid, before, between, pidMap[..], owned, repr);
        Bound(Listed(program), pinned, {}, e.pid, own);
        StillLeads(roles, e.pid, between, pidMap[..], repr, e.ecmPid, own);
        ghost var listed := WithEcm(ps[i].streams, e.ecmPid);
        WithStreamsTwice(ps, i, listed, listed + [e.pid]);
      } else {
        BindElementary(i, e.pid, if e.ecmPid == NO_PID then null else main, pinned, {});
      }
    }

    /** What a stream is bound to is alive. */
    lemma Bound(listed: multiset<nat>, pinned: Option<DecryptorElem>, loose: set<DecryptorElem>, pid: nat,
                d: DecryptorElem)
      requires Ok(listed, pinned, loose) && pid < PIDS && roles[pid] == EsRole && pid < pidMap.Length
      requires pidMap[pid].target == Dec(d)
      ensures d in repr
    {
      hide Users, Uses;
      assert View().EntryOk(roles[pid], listed[pid], Pmts(program), pid, View().entries[pid]);
    }

    /** A stream is listed and bound. */
    method BindElementary(i: nat, pid: nat, dec: DecryptorElem?, ghost pinned: Option<DecryptorElem>,
                          ghost loose: set<DecryptorElem>)
      requires Ok(Listed(program), pinned, loose) && i < |program| && pid < PIDS && roles[pid] == EsRole
      requires loose <= (if dec == null then {} else {dec}) && (dec != null ==> dec in repr)
      modifies `program, `decrypt, `repr, pidMap, repr
      ensures Ok(Listed(program), pinned, {})
      ensures program == WithStreams(old(program), i, old(program[i]).streams + [pid])
      ensures pidMap[pid].target == TargetOf(dec)
      ensures Untouched(roles, pid, old(pidMap[..]), pidMap[..], repr) && repr <= old(repr)
    {
      hide Registry.Ok, Untouched;
      ghost var before := pidMap[..];
      ListElementary(i, pid, pinned, loose);
      ghost var between, kept := pidMap[..], repr;
      BindStreamDecryptor(pid, dec, Listed(program), pinned, loose);
      UntouchedTwice(roles, pid, pid, before, between, pidMap[..], kept, repr);
    }

    lemma PinnedAlive(listed: multiset<nat>, pinned: Option<DecryptorElem>, loose: set<DecryptorElem>)
      requires Ok(listed, pinned, loose)
      ensures pidMap.Length == PIDS && (pinned.Some? ==> pinned.value in repr)
    {
      hide Users, Store.EntriesOk, Store.DecsOk, Store.OrderOk;
    }

    /** The decryptor of an ECM PID; the program's stream list names the PID. */
    method OwnDecryptor(i: nat, ecmPid: nat, ghost pinned: Option<DecryptorElem>) returns (own: DecryptorElem)
      requires Ok(Listed(program), pinned, {}) && i < |program| && ecmPid < PIDS && roles[ecmPid] == EcmRole
      modifies `program, `decrypt, `repr, pidMap
      ensures Ok(Listed(program), pinned, {own}) && own.ecmPid == ecmPid
      ensures program == WithStreams(old(program), i, WithEcm(old(program[i]).streams, ecmPid))
      ensures Untouched(roles, PIDS, old(pidMap[..]), pidMap[..], repr)
      ensures repr == old(repr) + {own} && (own in old(repr) || fresh(own)) && LeadsTo(pidMap[..], ecmPid, own)
    {
      hide *;
      ghost var before, listed, ps := pidMap[..], Listed(program), program;
      own := SetDecryptor(ecmPid, listed, pinned);
      ghost var between, owned := pidMap[..], repr;
      NothingExtra(listed);
      AddEcmStream(i, ecmPid, multiset{}, pinned, {own});
      assert repr == owned;
      ghost var after, listed' := pidMap[..], Listed(program);
      NothingExtra(listed');
      UntouchedTwice(roles, PIDS, PIDS, before, between, after, owned, repr);
      StillLeads(roles, PIDS, between, after, repr, ecmPid, own);
    }

    /** The entry of an elementary stream is marked and counted. */
    method MarkListed(pid: nat, ghost listed: multiset<nat>, ghost pinned: Option<DecryptorElem>,
                      ghost loose: set<DecryptorElem>)
      requires Ok(listed, pinned, loose) && pid < PIDS && roles[pid] == EsRole
      modifies pidMap
      ensures Ok(listed + multiset{pid}, pinned, loose)
      ensures Untouched(roles, pid, old(pidMap[..]), pidMap[..], repr) && pidMap[pid].target == old(pidMap[pid].target)
    {
      hide Store.Inv;
      ghost var v := View();
      v.ListEsKeeps(roles, listed, Pmts(program), pinned, loose, pid);
      pidMap[pid] := pidMap[pid].(kind := OtherKind, ref := pidMap[pid].ref + 1);
      assert View() == v.WithEntry(pid, v.entries[pid].(kind := OtherKind, ref := v.entries[pid].ref + 1));
    }

    /** And the stream joins the program's list. */
    method ListElementary(i: nat, pid: nat, ghost pinned: Option<DecryptorElem>, ghost loose: set<DecryptorElem>)
      requires Ok(Listed(program), pinned, loose) && i < |program| && pid < PIDS && roles[pid] == EsRole
      modifies `program, pidMap
      ensures Ok(Listed(program), pinned, loose) && pid in Listed(program)
      ensures program == WithStreams(old(program), i, old(program[i]).streams + [pid])
      ensures Untouched(roles, pid, old(pidMap[..]), pidMap[..], repr) && pidMap[pid].target == old(pidMap[pid].target)
    {
      hide Store.Inv, WithStreams, Untouched;
      MarkListed(pid, Listed(program), pinned, loose);
      AddStream(i, pid);
    }

    /** The decryptor streams without an ECM of their own use: the program's, or the only one there is. Pinned. */
    method PickMain(ecmPid: nat, ghost listed: multiset<nat>)
      returns (main: DecryptorElem?, ghost made: set<DecryptorElem>)
      requires Ok(listed, None, {}) && (Names(ecmPid) ==> ecmPid < PIDS && roles[ecmPid] == EcmRole)
      modifies `decrypt, `repr, pidMap, repr
      ensures Ok(listed, Present(main), {})
      ensures MainIs(ecmPid, old(decrypt), main) && (main != null ==> main in repr)
      ensures Names(ecmPid) ==> main != null && LeadsTo(pidMap[..], ecmPid, main)
      ensures repr <= old(repr) + made && fresh(made)
      ensures OnlyNamed(roles, [], old(pidMap[..]), pidMap[..])
    {
      made := {};
      hide Registry.Ok, Untouched, OnlyNamed;
      ghost var before := pidMap[..];
      PinnedAlive(listed, None, {});
      NothingTouched(roles, before, repr);
      NoneNamed(roles, before, before, repr);
      if Names(ecmPid) {
        main := SetDecryptor(ecmPid, listed, None);
        NoneNamed(roles, before, pidMap[..], repr);
        made := if main in old(repr) then {} else {main};
        Pin(main, listed);
        PinnedAlive(listed, Some(main), {});
      } else if |decrypt| == 1 {
        main := decrypt[0];
        OnlyDecryptor(listed);
        Loosened(listed, None, {}, {main});
        Pin(main, listed);
      } else {
        main := null;
      }
    }

    lemma OnlyDecryptor(listed: multiset<nat>)
      requires Ok(listed, None, {}) && |decrypt| == 1
      ensures decrypt[0] in repr
    {
      hide Store.EntriesOk, Store.DecsOk;
      assert decrypt[0] in View().order;
    }

    method Pin(dec: DecryptorElem, ghost listed: multiset<nat>)
      requires Ok(listed, None, {dec}) && dec in repr
      modifies dec
      ensures Ok(listed, Some(dec), {})
    {
      hide Store.Inv;
      ghost var v := View();
      v.PinKeeps(roles, listed, Pmts(program), {dec}, dec);
      dec.ref := dec.ref + 1;
      assert View() == v.WithRef(dec, v.decs[dec].ref + 1);
      View().Loosen(roles, listed, Pmts(program), Some(dec), {dec} - {dec}, {});
    }

    method Unpin(dec: DecryptorElem, ghost listed: multiset<nat>)
      requires Ok(listed, Some(dec), {}) && dec in repr
      modifies `decrypt, `repr, pidMap, dec
      ensures Ok(listed, None, {}) && Untouched(roles, PIDS, old(pidMap[..]), pidMap[..], repr)
      ensures repr <= old(repr)
    {
      hide Store.Inv;
      ghost var v := View();
      v.UnpinKeeps(roles, listed, Pmts(program), {}, dec);
      dec.ref := dec.ref - 1;
      assert View() == v.WithRef(dec, v.decs[dec].ref - 1);
      Collect(dec, listed, None, {});
    }

    /** The elements of a list that is given up are counted off one by one. */
    method UnrefAll(list: seq<nat>, ghost rest: multiset<nat>, ghost pinned: Option<DecryptorElem>)
      requires Ok(multiset(list) + rest, pinned, {}) && forall p :: p in list ==> p < PIDS
      modifies `decrypt, `repr, pidMap, repr
      ensures Ok(rest, pinned, {}) && repr <= old(repr)
      ensures EntriesKept(roles, rest, old(pidMap[..]), pidMap[..], repr)
    {
      hide *;
      PinnedAlive(multiset(list) + rest, pinned, {});
      AllLeft(list, rest);
      ghost var before := pidMap[..];
      NoneDropped(roles, rest, before, repr);
      for k := 0 to |list|
        invariant Ok(LeftOf(list, k, rest), pinned, {}) && repr <= old(repr)
        invariant EntriesKept(roles, rest, before, pidMap[..], repr)
      {
        LeftOne(list, k, rest);
        ghost var between, alive := pidMap[..], repr;
        UnrefOne(list[k], LeftOf(list, k + 1, rest), rest, pinned);
        EntriesKeptTwice(roles, rest, rest, before, between, pidMap[..], alive, repr);
      }
    }

    method UnrefOne(pid: nat, ghost left: multiset<nat>, ghost rest: multiset<nat>, ghost pinned: Option<DecryptorElem>)
      requires Ok(multiset{pid} + left, pinned, {}) && pid < PIDS && forall q :: q in rest ==> q in left
      modifies `decrypt, `repr, pidMap, repr
      ensures Ok(left, pinned, {}) && repr <= old(repr)
      ensures EntriesKept(roles, rest, old(pidMap[..]), pidMap[..], repr)
    {
      hide Registry.Ok, EntriesKept;
      ghost var before := pidMap[..];
      UnrefStream(pid, multiset{pid} + left, pinned, {});
      assert multiset{pid} + left - multiset{pid} == left;
      FewerKept(roles, left, rest, before, pidMap[..], repr);
    }

    /** The current list becomes the old one; the list it replaces is handed out. */
    method TurnLists(i: nat) returns (dropped: seq<nat>)
      requires i < |program|
      modifies `program
      ensures program == old(program)[i := TsProgram(old(program[i]).pmtPid, [], old(program[i]).streams)]
      ensures dropped == old(program[i]).oldStrm
      ensures multiset(dropped) + Listed(program) == old(Listed(program)) && Pmts(program) == old(Pmts(program))
    {
      ghost var ps := program;
      dropped := program[i].oldStrm;
      program := program[i := TsProgram(program[i].pmtPid, [], program[i].streams)];
      hide Listed;
      TurnListed(ps, i);
    }

    /**
     `proc_pmt`: the streams of a program are listed and bound anew, and what only the list before last named is
     released. Afterwards every stream the table names has the decryptor the table gives it.
     */
    method ProcPmt(i: nat, info: PmtInfo) returns (main: DecryptorElem?)
      requires Valid() && i < |program| && PmtOk(roles, info)
      modifies `program, `decrypt, `repr, pidMap, repr
      ensures Valid()
      ensures program == old(program)[i := TsProgram(old(program[i]).pmtPid, StreamsOf(info, |info.es|),
        old(program[i]).streams)]
      ensures MainIs(info.ecmPid, old(decrypt), main)
      ensures AllBound(info.es, pidMap[..], main)
      ensures forall d :: d in repr ==> d in old(repr) || fresh(d)
      ensures Names(info.ecmPid) && main in repr ==> LeadsTo(pidMap[..], info.ecmPid, main)
      ensures OthersKept(roles, info.es, old(pidMap[..]), pidMap[..])
    {
      hide Registry.Ok, Store.Inv, Untouched, AllBound, MainIs, ProgramsOk, Listed, StreamsOf, LeadsTo, OthersKept,
        OnlyNamed;
      ghost var ps, made, e0 := program, {}, pidMap[..];
      main, made := PickMain(info.ecmPid, Listed(program));
      ghost var e1 := pidMap[..];
      var dropped := Turn(i, Present(main));
      DroppedPids(ps, i);
      RenewLists(i, dropped, info, main);
      ghost var e2 := pidMap[..];
      ListStreams(i, info, main);
      ghost var e3 := pidMap[..];
      if main != null {
        PinnedAlive(Listed(program), Present(main), {});
        ghost var entries := pidMap[..];
        Unpin(main, Listed(program));
        NoneNamed(roles, entries, pidMap[..], repr);
        StillBound(info, entries, main);
        if Names(info.ecmPid) && main in repr {
          MainLeads(info, PIDS, entries, main);
        }
      } else {
        PinnedAlive(Listed(program), None, {});
        NothingTouched(roles, e3, repr);
        NoneNamed(roles, e3, e3, repr);
      }
      KeptThroughout(roles, info.es, e0, e1, e2, e3, pidMap[..]);
      ghost var streams := StreamsOf(info, |info.es|);
      assert program == ps[i := TsProgram(ps[i].pmtPid, streams, ps[i].streams)];
      TurnedOk(ps, i, info);
    }

    lemma DroppedPids(ps: seq<TsProgram>, i: nat)
      requires ProgramsOk(roles, ps) && i < |ps|
      ensures forall p :: p in ps[i].oldStrm ==> p < PIDS
    {
    }

    lemma TurnedOk(ps: seq<TsProgram>, i: nat, info: PmtInfo)
      requires ProgramsOk(roles, ps) && i < |ps| && PmtOk(roles, info)
      ensures ProgramsOk(roles, ps[i := TsProgram(ps[i].pmtPid, StreamsOf(info, |info.es|), ps[i].streams)])
    {
      StreamPids(info, |info.es|);
    }

    lemma {:induction false} StreamPids(info: PmtInfo, k: nat)
      requires PmtOk(roles, info) && k <= |info.es|
      ensures forall p :: p in StreamsOf(info, k) ==> p < PIDS
      decreases k
    {
      if k > 0 {
        StreamPids(info, k - 1);
      }
    }

    /** Freeing the pinned decryptor touches neither a stream's entry nor the ECM entry behind it. */
    lemma StillBound(info: PmtInfo, before: seq<Entry<DecryptorElem>>, main: DecryptorElem?)
      requires PmtOk(roles, info) && AllBound(info.es, before, main) && Ok(Listed(program), None, {})
      requires Untouched(roles, PIDS, before, pidMap[..], repr)
      ensures AllBound(info.es, pidMap[..], main)
    {
      hide BoundTo, Registry.Ok, Untouched, Listed, Latest;
      var es, now := info.es, pidMap[..];
      forall j | 0 <= j < |es| && Latest(es, j)
        ensures es[j].pid < |now| && BoundTo(now, es[j], main)
      {
        assert EsOk(roles, es[j]);
        BoundStays(PIDS, es[j], before, main);
      }
    }

    /** A binding outlives a change elsewhere. */
    lemma BoundStays(pid: nat, e: EsInfo, before: seq<Entry<DecryptorElem>>, main: DecryptorElem?)
      requires exists listed, pinned, loose :: Ok(listed, pinned, loose)
      requires EsOk(roles, e) && e.pid != pid && e.pid < |before| && BoundTo(before, e, main)
      requires Untouched(roles, pid, before, pidMap[..], repr)
      ensures e.pid < pidMap.Length && BoundTo(pidMap[..], e, main)
    {
      hide Registry.Ok;
      var listed, pinned, loose :| Ok(listed, pinned, loose);
      if Names(e.ecmPid) {
        Bound(listed, pinned, loose, e.pid, before[e.pid].target.d);
        StillLeads(roles, pid, before, pidMap[..], repr, e.ecmPid, before[e.pid].target.d);
      }
    }

    method Turn(i: nat, ghost pinned: Option<DecryptorElem>) returns (dropped: seq<nat>)
      requires Ok(Listed(program), pinned, {}) && i < |program|
      modifies `program
      ensures Ok(multiset(dropped) + Listed(program), pinned, {}) && dropped == old(program[i]).oldStrm
      ensures program == old(program)[i := TsProgram(old(program[i]).pmtPid, [], old(program[i]).streams)]
    {
      hide Store.Inv, Listed;
      dropped := TurnLists(i);
    }

    /** The program's own ECM joins the new list, then the dropped list is released. */
    method RenewLists(i: nat, dropped: seq<nat>, info: PmtInfo, ghost main: DecryptorElem?)
      requires Ok(multiset(dropped) + Listed(program), Present(main), {}) && i < |program| && program[i].streams == []
      requires PmtOk(roles, info) && forall p :: p in dropped ==> p < PIDS
      requires Names(info.ecmPid) ==> main != null && LeadsTo(pidMap[..], info.ecmPid, main)
      modifies `program, `decrypt, `repr, pidMap, repr
      ensures Ok(Listed(program), Present(main), {}) && program == WithStreams(old(program), i, StreamsOf(info, 0))
      ensures repr <= old(repr)
      ensures Names(info.ecmPid) ==> LeadsTo(pidMap[..], info.ecmPid, main)
      ensures OthersKept(roles, [], old(pidMap[..]), pidMap[..])
    {
      hide Registry.Ok, Listed, WithStreams, Untouched, EntriesKept, LeadsTo, OnlyNamed, OthersKept;
      ghost var pinned, before := Present(main), pidMap[..];
      PinnedAlive(multiset(dropped) + Listed(program), pinned, {});
      WithStreamsSame(program, i);
      NothingTouched(roles, before, repr);
      NoneNamed(roles, before, before, repr);
      if Names(info.ecmPid) {
        ListOwnEcm(i, dropped, info, main);
      }
      assert program == WithStreams(old(program), i, StreamsOf(info, 0));
      ghost var between := pidMap[..];
      UnrefAll(dropped, Listed(program), pinned);
      PinnedAlive(Listed(program), pinned, {});
      if Names(info.ecmPid) {
        ListedHas(program, i, info.ecmPid);
        KeptLeads(roles, Listed(program), between, pidMap[..], repr, info.ecmPid, main);
      }
      StillInUse(before, between, Present(main));
    }

    /** A stream in use is listed, so releasing lists has not touched its binding. */
    lemma StillInUse(before: seq<Entry<DecryptorElem>>, between: seq<Entry<DecryptorElem>>,
                     pinned: Option<DecryptorElem>)
      requires OnlyNamed(roles, [], before, between) && Ok(Listed(program), pinned, {})
      requires EntriesKept(roles, Listed(program), between, pidMap[..], repr)
      ensures OthersKept(roles, [], before, pidMap[..])
    {
      hide Users, Uses, Listed, StillBehind;
      forall q | 0 <= q < PIDS && roles[q] == EsRole && pidMap[q].kind == OtherKind
        ensures q in Listed(program)
      {
        assert View().EntryOk(roles[q], Listed(program)[q], Pmts(program), q, View().entries[q]);
      }
    }

    method ListOwnEcm(i: nat, dropped: seq<nat>, info: PmtInfo, ghost main: DecryptorElem?)
      requires Ok(multiset(dropped) + Listed(program), Present(main), {}) && i < |program| && program[i].streams == []
      requires PmtOk(roles, info) && Names(info.ecmPid) && main != null && LeadsTo(pidMap[..], info.ecmPid, main)
      modifies `program, pidMap
      ensures Ok(multiset(dropped) + Listed(program), Present(main), {})
      ensures program == WithStreams(old(program), i, [info.ecmPid])
      ensures LeadsTo(pidMap[..], info.ecmPid, main) && OnlyNamed(roles, [], old(pidMap[..]), pidMap[..])
    {
      hide Registry.Ok, Listed, WithStreams, Untouched, OnlyNamed;
      PinnedAlive(multiset(dropped) + Listed(program), Present(main), {});
      ghost var before := pidMap[..];
      assert WithEcm([], info.ecmPid) == [info.ecmPid];
      assert multiset(dropped) + Listed(program) == Listed(program) + multiset(dropped);
      AddEcmStream(i, info.ecmPid, multiset(dropped), Present(main), {});
      assert Listed(program) + multiset(dropped) == multiset(dropped) + Listed(program);
      StillLeads(roles, PIDS, before, pidMap[..], repr, info.ecmPid, main);
      NoneNamed(roles, before, pidMap[..], repr);
    }

    lemma BoundOneMore(info: PmtInfo, k: nat, before: seq<Entry<DecryptorElem>>, main: DecryptorElem?)
      requires k < |info.es| && PmtOk(roles, info) && AllBound(info.es[..k], before, main)
      requires Ok(Listed(program), Present(main), {}) && Untouched(roles, info.es[k].pid, before, pidMap[..], repr)
      requires info.es[k].pid < pidMap.Length && BoundTo(pidMap[..], info.es[k], main)
      ensures AllBound(info.es[..k + 1], pidMap[..], main)
    {
      hide BoundTo, Latest, Registry.Ok, Untouched, Listed;
      var es, now := info.es[..k + 1], pidMap[..];
      forall j | 0 <= j < |es| && Latest(es, j)
        ensures es[j].pid < |now| && BoundTo(now, es[j], main)
      {
        assert EsOk(roles, info.es[j]);
        if j < k {
          LatestBefore(info.es, k, j);
          assert info.es[..k][j] == es[j];
          BoundStays(info.es[k].pid, es[j], before, main);
        }
      }
    }

    /** The loop of `proc_pmt` over the elementary streams. */
    method ListStreams(i: nat, info: PmtInfo, main: DecryptorElem?)
      requires Ok(Listed(program), Present(main), {}) && i < |program| && PmtOk(roles, info)
      requires program[i].streams == StreamsOf(info, 0)
      requires Names(info.ecmPid) ==> main != null && LeadsTo(pidMap[..], info.ecmPid, main)
      modifies `program, `decrypt, `repr, pidMap, repr
      ensures Ok(Listed(program), Present(main), {})
      ensures program == WithStreams(old(program), i, StreamsOf(info, |info.es|))
      ensures AllBound(info.es, pidMap[..], main)
      ensures Names(info.ecmPid) ==> LeadsTo(pidMap[..], info.ecmPid, main)
      ensures forall d :: d in repr ==> d in old(repr) || fresh(d)
      ensures OnlyNamed(roles, info.es, old(pidMap[..]), pidMap[..])
    {
      hide Registry.Ok, Listed, WithStreams, Untouched, AllBound, LeadsTo, OnlyNamed;
      ghost var ps, made: set<DecryptorElem> := program, {};
      ghost var before := pidMap[..];
      WithStreamsSame(ps, i);
      NoneBound(main);
      assert info.es[..0] == [];
      PinnedAlive(Listed(program), Present(main), {});
      NothingTouched(roles, before, repr);
      NoneNamed(roles, before, before, repr);
      for k := 0 to |info.es|
        invariant Ok(Listed(program), Present(main), {}) && roles == old(roles)
        invariant program == WithStreams(ps, i, StreamsOf(info, k))
        invariant AllBound(info.es[..k], pidMap[..], main)
        invariant Names(info.ecmPid) ==> LeadsTo(pidMap[..], info.ecmPid, main)
        invariant repr <= old(repr) + made && fresh(made)
        invariant OnlyNamed(roles, info.es[..k], before, pidMap[..])
      {
        ghost var entries, s := pidMap[..], StreamsOf(info, k);
        ghost var more := AddElementary(i, info.es[k], main);
        made := made + more;
        NamedMore(roles, info.es, k, before, entries, pidMap[..], repr);
        WithStreamsTwice(ps, i, s, Joined(s, info.es[k]));
        BoundOneMore(info, k, entries, main);
        if Names(info.ecmPid) {
          PinnedAlive(Listed(program), Present(main), {});
          MainLeads(info, info.es[k].pid, entries, main);
        }
      }
      assert info.es[..|info.es|] == info.es;
    }

    lemma MainLeads(info: PmtInfo, pid: nat, before: seq<Entry<DecryptorElem>>, main: DecryptorElem)
      requires PmtOk(roles, info) && Names(info.ecmPid) && main in repr && LeadsTo(before, info.ecmPid, main)
      requires Untouched(roles, pid, before, pidMap[..], repr)
      ensures LeadsTo(pidMap[..], info.ecmPid, main)
    {
    }

    lemma NoneBound(main: DecryptorElem?)
      ensures AllBound([], pidMap[..], main)
    {
    }

    // ---- Program association and conditional access tables ----

    /** `release_program`: both stream lists are counted off and the PMT's entry is cleared. */
    method ReleaseProgram(i: nat)
      requires Valid() && i < |program|
      modifies `program, `decrypt, `repr, pidMap, repr
      ensures Valid() && program == old(program)[i := TsProgram(old(program[i]).pmtPid, [], [])]
      ensures repr <= old(repr)
    {
      hide Registry.Ok, Listed;
      ListPids(program, i);
      var p := program[i];
      TakeLists(i);
      assert multiset(p.oldStrm) + multiset(p.streams) + Listed(program)
          == multiset(p.oldStrm) + (multiset(p.streams) + Listed(program));
      UnrefAll(p.oldStrm, multiset(p.streams) + Listed(program), None);
      UnrefAll(p.streams, Listed(program), None);
      ClearPmt(p.pmtPid);
    }

    lemma ListPids(ps: seq<TsProgram>, i: nat)
      requires ProgramsOk(roles, ps) && i < |ps|
      ensures forall p :: p in ps[i].streams ==> p < PIDS
      ensures forall p :: p in ps[i].oldStrm ==> p < PIDS
    {
    }

    method TakeLists(i: nat)
      requires Ok(Listed(program), None, {}) && i < |program|
      modifies `program
      ensures program == old(program)[i := TsProgram(old(program[i]).pmtPid, [], [])]
      ensures Ok(multiset(old(program[i]).oldStrm) + multiset(old(program[i]).streams) + Listed(program), None, {})
    {
      hide Store.Inv;
      hide Listed;
      TakeListed(program, i);
      program := program[i := TsProgram(program[i].pmtPid, [], [])];
      assert Pmts(program) == old(Pmts(program));
    }

    method ClearPmt(pid: nat)
      requires Ok(Listed(program), None, {}) && pid < PIDS && roles[pid] == PmtRole
      modifies pidMap
      ensures Ok(Listed(program), None, {})
    {
      hide Store.Inv;
      ghost var v := View();
      v.ClearPmtKeeps(roles, Listed(program), Pmts(program), None, {}, pid);
      pidMap[pid] := Entry(0, UnknownKind, Null);
      assert View() == v.WithEntry(pid, Entry(0, UnknownKind, Null));
    }

    /** Every program is released, which frees every decryptor. */
    method ReleaseAll()
      requires Valid()
      modifies `program, `decrypt, `repr, pidMap, repr
      ensures Valid() && repr == {} && decrypt == []
    {
      hide Registry.Ok, Listed;
      for i := 0 to |program|
        invariant |program| == old(|program|) && Valid() && repr <= old(repr)
        invariant forall k :: 0 <= k < i ==> program[k].streams == [] && program[k].oldStrm == []
      {
        ReleaseProgram(i);
      }
      EmptyLists(program);
      AllFreed();
    }

    lemma {:induction false} EmptyLists(ps: seq<TsProgram>)
      requires forall k :: 0 <= k < |ps| ==> ps[k].streams == [] && ps[k].oldStrm == []
      ensures Listed(ps) == multiset{}
      decreases |ps|
    {
      if |ps| > 0 {
        EmptyLists(ps[..|ps| - 1]);
      }
    }

    lemma AllFreed()
      requires Ok(multiset{}, None, {})
      ensures repr == {} && decrypt == []
    {
      hide Store.Inv;
      View().NothingListed(roles, Pmts(program));
      assert View().decs.Keys == repr;
    }

    /** `memset` on the map and an empty program list. */
    method Wipe(ghost newRoles: Roles)
      requires pidMap.Length == PIDS && repr == {} && decrypt == []
      modifies `program, `roles, pidMap
      ensures Valid() && program == [] && roles == newRoles
      ensures forall p :: 0 <= p < PIDS ==> pidMap[p] == Entry(0, UnknownKind, Null)
    {
      forall p | 0 <= p < PIDS {
        pidMap[p] := Entry(0, UnknownKind, Null);
      }
      program, roles := [], newRoles;
    }

    /**
     `proc_pat`: the old programs and their decryptors go, and each program the table announces has its PMT's entry.
     The uses of the PIDs are settled anew.
     */
    method ProcPat(pat: seq<PatEntry>, ghost newRoles: Roles)
      requires Valid() && PatOk(newRoles, pat)
      modifies this, pidMap, repr
      ensures Valid() && roles == newRoles && repr == {} && decrypt == []
      ensures program == Announced(pat)
      ensures forall i :: 0 <= i < |program| ==>
        program[i].pmtPid < pidMap.Length && Points(pidMap[program[i].pmtPid], program, program[i].pmtPid)
      ensures pidMap.Length == PIDS && pidMap[0] == Entry(1, PatKind, Null)
      ensures OnlyPrograms(pidMap[..], program, 1) && LastPrograms(pidMap[..], program)
    {
      hide Registry.Ok, Listed, OnlyPrograms, LastPrograms;
      ReleaseAll();
      MapLength();
      Wipe(newRoles);
      AllUnknown(pidMap[..]);
      assert pat[..0] == [];
      for k := 0 to |pat|
        invariant Valid() && roles == newRoles && repr == {} && decrypt == [] && pidMap.Length == PIDS
        invariant program == Announced(pat[..k])
        invariant forall i :: 0 <= i < |program| ==>
          program[i].pmtPid < PIDS && Points(pidMap[program[i].pmtPid], program, program[i].pmtPid)
        invariant OnlyPrograms(pidMap[..], program, 0) && LastPrograms(pidMap[..], program)
      {
        assert pat[..k + 1][..k] == pat[..k];
        if pat[k].number != 0 {
          ghost var entries, ps := pidMap[..], program;
          Announce(pat[k].pid);
          OnlyOneMore(entries, pidMap[..], ps, pat[k].pid);
          LastOneMore(entries, pidMap[..], ps, pat[k].pid);
        }
      }
      assert pat[..|pat|] == pat;
      ghost var entries := pidMap[..];
      Fix(0, PatKind);
      OnlyAbove(entries, pidMap[..], program);
      LastAbove(entries, pidMap[..], program);
    }

    lemma MapLength()
      requires Valid()
      ensures pidMap.Length == PIDS
    {
    }

    method Announce(pid: nat)
      requires Valid() && pid < PIDS && roles[pid] == PmtRole && pidMap.Length == PIDS
      modifies `program, pidMap
      ensures Valid() && program == old(program) + [TsProgram(pid, [], [])]
      ensures pidMap[pid].kind == PmtKind && pidMap[pid].target == Prog(|old(program)|)
      ensures forall q :: 0 <= q < PIDS && q != pid ==> pidMap[q] == old(pidMap[q])
    {
      hide Store.Inv, Listed;
      ghost var v, ps := View(), program;
      v.AnnounceKeeps(roles, Listed(ps), Pmts(ps), pid);
      pidMap[pid] := pidMap[pid].(kind := PmtKind, target := Prog(|program|));
      program := program + [TsProgram(pid, [], [])];
      assert Pmts(program) == Pmts(ps) + [pid];
      ListedMore(ps, pid);
      assert View() == v.WithEntry(pid, v.entries[pid].(kind := PmtKind, target := Prog(|ps|)));
    }

    lemma ListedMore(ps: seq<TsProgram>, pid: nat)
      ensures Listed(ps + [TsProgram(pid, [], [])]) == Listed(ps)
    {
      assert (ps + [TsProgram(pid, [], [])])[..|ps|] == ps;
    }

    method Fix(pid: nat, kind: Kind)
      requires Valid() && pid < PIDS && roles[pid] == FixedRole
      requires kind == PatKind || kind == EmmKind || kind == CatKind
      modifies pidMap
      ensures Valid() && pidMap.Length == PIDS && pidMap[pid] == Entry(1, kind, Null)
      ensures forall q :: 0 <= q < PIDS && q != pid ==> pidMap[q] == old(pidMap[q])
    {
      hide Store.Inv, Listed;
      ghost var v := View();
      v.FixKeeps(roles, Listed(program), Pmts(program), pid, kind);
      pidMap[pid] := Entry(1, kind, Null);
      assert View() == v.WithEntry(pid, Entry(1, kind, Null));
    }

    /** `proc_cat` with the EMM PID its descriptors give. That PID is not an elementary stream's. */
    method ProcCat(emmPid: nat)
      requires Valid() && roles[1] == FixedRole && (Names(emmPid) ==> emmPid < PIDS && roles[emmPid] == FixedRole)
      modifies pidMap
      ensures Valid() && pidMap.Length == PIDS && pidMap[1] == Entry(1, CatKind, Null)
      ensures Names(emmPid) && emmPid != 1 ==> emmPid < PIDS && pidMap[emmPid] == Entry(1, EmmKind, Null)
      ensures forall q :: 0 <= q < PIDS && q != 1 && !(Names(emmPid) && q == emmPid) ==> pidMap[q] == old(pidMap[q])
    {
      if Names(emmPid) {
        Fix(emmPid, EmmKind);
      }
      Fix(1, CatKind);
    }

    // ---- Runs of updates ----

    method Apply(u: Update)
      requires Valid() && LawfulNext(u, roles, |program|)
      modifies this, pidMap, repr
      ensures Valid() && roles == RolesAfter(u, old(roles)) && |program| == ProgramsAfter(u, |old(program)|)
      ensures u.PatUpdate? ==> repr == {}
      ensures forall d :: d in repr ==> d in old(repr) || fresh(d)
    {
      hide Valid;
      match u
      case PatUpdate(pat, newRoles) => ProcPat(pat, newRoles);
      case PmtUpdate(i, info) => var _ := ProcPmt(i, info);
      case CatUpdate(emmPid) => ProcCat(emmPid);
    }

    /**
     Any run of program association, program map and conditional access tables: no entry is left pointing at a freed
     decryptor, every decryptor counts its users and has one, and a program association table leaves none.
     */
    method Follow(us: seq<Update>)
      requires Valid() && Lawful(us, roles, |program|)
      modifies this, pidMap, repr
      ensures Valid() && pidMap.Length == PIDS
      ensures forall p :: 0 <= p < PIDS && pidMap[p].target.Dec? ==> pidMap[p].target.d in repr
      ensures forall d :: d in repr ==> d.ref == |Users(pidMap[..], d)| >= 1
      ensures |us| > 0 && us[|us| - 1].PatUpdate? ==> repr == {}
    {
      hide Valid, Users;
      assert us[0..] == us;
      for k := 0 to |us|
        invariant Valid() && Lawful(us[k..], roles, |program|)
        invariant k > 0 && us[k - 1].PatUpdate? ==> repr == {}
        invariant forall d :: d in repr ==> d in old(repr) || fresh(d)
      {
        assert us[k..][1..] == us[k + 1..];
        Apply(us[k]);
      }
      MapLength();
      forall p | 0 <= p < PIDS
        ensures pidMap[p].target.Dec? ==> pidMap[p].target.d in repr
      {
        NothingDangles(p);
      }
      forall d | d in repr
        ensures d.ref == |Users(pidMap[..], d)| >= 1
      {
        CountsExact(d);
      }
    }

    // ---- The invariant in words ----

    /** Between calls no map entry dangles and no count is off. */
    lemma NothingDangles(p: nat)
      requires Valid() && p < PIDS
      ensures pidMap.Length == PIDS
      ensures roles[p] == EsRole || roles[p] == EcmRole ==> pidMap[p].ref == Listed(program)[p]
      ensures pidMap[p].target.Dec? ==> pidMap[p].target.d in repr
      ensures pidMap[p].kind == EcmKind ==> pidMap[p].target.Dec? && pidMap[p].target.d.ecmPid == p
      ensures pidMap[p].kind == PmtKind ==>
        pidMap[p].target.Prog? && pidMap[p].target.i < |program| && program[pidMap[p].target.i].pmtPid == p
    {
      hide Users, Listed;
      assert View().EntryOk(roles[p], Listed(program)[p], Pmts(program), p, View().entries[p]);
    }

    /** Every decryptor is used, and counts its users. */
    lemma CountsExact(d: DecryptorElem)
      requires Valid() && d in repr
      ensures d.ref == |Users(pidMap[..], d)| >= 1
      ensures d in decrypt
    {
      hide Users, Listed, Store.EntriesOk;
      assert d in View().decs;
    }
  }

  /** A table that arrives; a program association table settles the uses of the PIDs anew. */
  datatype Update =
    | PatUpdate(pat: seq<PatEntry>, ghost roles: Roles)
    | PmtUpdate(i: nat, info: PmtInfo)
    | CatUpdate(emmPid: nat)

  ghost function RolesAfter(u: Update, roles: Roles): Roles { if u.PatUpdate? then u.roles else roles }

  ghost function ProgramsAfter(u: Update, n: nat): nat { if u.PatUpdate? then |Announced(u.pat)| else n }

  /** The table keeps to the uses of the PIDs, and a program map table is one of a program there is. */
  ghost predicate LawfulNext(u: Update, roles: Roles, n: nat) {
    match u
    case PatUpdate(pat, newRoles) => PatOk(newRoles, pat)
    case PmtUpdate(i, info) => i < n && PmtOk(roles, info)
    case CatUpdate(emmPid) => roles[1] == FixedRole && (Names(emmPid) ==> emmPid < PIDS && roles[emmPid] == FixedRole)
  }

  ghost predicate Lawful(us: seq<Update>, roles: Roles, n: nat)
    decreases |us|
  {
    |us| > 0 ==> LawfulNext(us[0], roles, n) && Lawful(us[1..], RolesAfter(us[0], roles), ProgramsAfter(us[0], n))
  }

  /** One entry of a program association table; number 0 is the network PID. */
  datatype PatEntry = PatEntry(number: nat, pid: nat)

  predicate PatOk(roles: Roles, pat: seq<PatEntry>) {
    && roles[0] == FixedRole
    && forall k :: 0 <= k < |pat| && pat[k].number != 0 ==> pat[k].pid < PIDS && roles[pat[k].pid] == PmtRole
  }

  /** The programs a table announces, none of them with streams yet. */
  function Announced(pat: seq<PatEntry>): seq<TsProgram> {
    if |pat| == 0 then []
    else
      var ps := Announced(pat[..|pat| - 1]);
      var e := pat[|pat| - 1];
      if e.number != 0 then ps + [TsProgram(e.pid, [], [])] else ps
  }

  /** An entry that leads to a program with this PMT PID. */
  predicate Points(e: Entry<DecryptorElem>, ps: seq<TsProgram>, pid: nat) {
    e.kind == PmtKind && e.target.Prog? && e.target.i < |ps| && ps[e.target.i].pmtPid == pid
  }

  /** From a PID on, every entry that is not the PMT's of a program is empty. */
  ghost predicate OnlyPrograms(entries: seq<Entry<DecryptorElem>>, ps: seq<TsProgram>, from: nat) {
    && |entries| == PIDS
    && forall q :: from <= q < PIDS && entries[q] != Entry(0, UnknownKind, Null) ==>
         exists i :: 0 <= i < |ps| && ps[i].pmtPid == q
  }

  /** Among programs with one PMT PID the entry leads to the last. */
  ghost predicate LastPrograms(entries: seq<Entry<DecryptorElem>>, ps: seq<TsProgram>) {
    forall i :: 0 <= i < |ps| && LastWith(ps, i) ==>
      ps[i].pmtPid < |entries| && entries[ps[i].pmtPid].kind == PmtKind && entries[ps[i].pmtPid].target == Prog(i)
  }

  ghost predicate LastWith(ps: seq<TsProgram>, i: nat)
    requires i < |ps|
  {
    forall j :: i < j < |ps| ==> ps[j].pmtPid != ps[i].pmtPid
  }

  lemma LastOneMore(before: seq<Entry<DecryptorElem>>, after: seq<Entry<DecryptorElem>>, ps: seq<TsProgram>, pid: nat)
    requires LastPrograms(before, ps) && |after| == |before| && pid < |after|
    requires after[pid].kind == PmtKind && after[pid].target == Prog(|ps|)
    requires forall q :: 0 <= q < |after| && q != pid ==> after[q] == before[q]
    ensures LastPrograms(after, ps + [TsProgram(pid, [], [])])
  {
    var more := ps + [TsProgram(pid, [], [])];
    forall i | 0 <= i < |more| && LastWith(more, i)
      ensures more[i].pmtPid < |after| && after[more[i].pmtPid].kind == PmtKind
        && after[more[i].pmtPid].target == Prog(i)
    {
      if i < |ps| {
        assert more[|ps|].pmtPid == pid;
        assert LastWith(ps, i) by {
          forall j | i < j < |ps|
            ensures ps[j].pmtPid != ps[i].pmtPid
          {
            assert more[j] == ps[j];
          }
        }
      }
    }
  }

  lemma LastAbove(before: seq<Entry<DecryptorElem>>, after: seq<Entry<DecryptorElem>>, ps: seq<TsProgram>)
    requires LastPrograms(before, ps) && |after| == |before|
    requires forall q :: 0 < q < |after| ==> after[q] == before[q]
    requires forall i :: 0 <= i < |ps| ==> ps[i].pmtPid != 0
    ensures LastPrograms(after, ps)
  {
  }

  lemma AllUnknown(entries: seq<Entry<DecryptorElem>>)
    requires |entries| == PIDS && forall q :: 0 <= q < PIDS ==> entries[q] == Entry(0, UnknownKind, Null)
    ensures OnlyPrograms(entries, [], 0) && LastPrograms(entries, [])
  {
  }

  lemma OnlyOneMore(before: seq<Entry<DecryptorElem>>, after: seq<Entry<DecryptorElem>>, ps: seq<TsProgram>, pid: nat)
    requires OnlyPrograms(before, ps, 0) && |after| == PIDS
    requires forall q :: 0 <= q < PIDS && q != pid ==> after[q] == before[q]
    ensures OnlyPrograms(after, ps + [TsProgram(pid, [], [])], 0)
  {
    var more := ps + [TsProgram(pid, [], [])];
    forall q | 0 <= q < PIDS && after[q] != Entry(0, UnknownKind, Null)
      ensures exists i :: 0 <= i < |more| && more[i].pmtPid == q
    {
      if q == pid {
        assert more[|ps|].pmtPid == q;
      } else {
        var i :| 0 <= i < |ps| && ps[i].pmtPid == q;
        assert more[i].pmtPid == q;
      }
    }
  }

  lemma OnlyAbove(before: seq<Entry<DecryptorElem>>, after: seq<Entry<DecryptorElem>>, ps: seq<TsProgram>)
    requires OnlyPrograms(before, ps, 0) && |after| == PIDS
    requires forall q :: 0 < q < PIDS ==> after[q] == before[q]
    ensures OnlyPrograms(after, ps, 1)
  {
  }

  predicate PmtOk(roles: Roles, info: PmtInfo) {
    && (Names(info.ecmPid) ==> info.ecmPid < PIDS && roles[info.ecmPid] == EcmRole)
    && forall k :: 0 <= k < |info.es| ==> EsOk(roles, info.es[k])
  }

  /** The stream list after the first `k` elementary streams of a table. */
  function StreamsOf(info: PmtInfo, k: nat): seq<nat>
    requires k <= |info.es|
  {
    if k == 0 then if Names(info.ecmPid) then [info.ecmPid] else []
    else Joined(StreamsOf(info, k - 1), info.es[k - 1])
  }

  /** A PID the table names more than once is bound as its last mention says. */
  ghost predicate AllBound(es: seq<EsInfo>, entries: seq<Entry<DecryptorElem>>, main: DecryptorElem?) {
    forall k :: 0 <= k < |es| && Latest(es, k) ==>
      es[k].pid < |entries| && BoundTo(entries, es[k], main)
  }

  /** No later stream of the table has the same PID. */
  ghost predicate Latest(es: seq<EsInfo>, k: nat)
    requires k < |es|
  {
    forall m :: k < m < |es| ==> es[m].pid != es[k].pid
  }

  lemma LatestBefore(es: seq<EsInfo>, k: nat, j: nat)
    requires j < k < |es| && Latest(es[..k + 1], j)
    ensures Latest(es[..k], j) && es[j].pid != es[k].pid
  {
    assert es[..k + 1][k] == es[k];
    forall m | j < m < k
      ensures es[..k][m].pid != es[..k][j].pid
    {
      assert es[..k + 1][m] == es[..k][m];
    }
  }

  lemma TurnListed(ps: seq<TsProgram>, i: nat)
    requires i < |ps|
    ensures multiset(ps[i].oldStrm) + Listed(ps[i := TsProgram(ps[i].pmtPid, [], ps[i].streams)]) == Listed(ps)
  {
    var p := TsProgram(ps[i].pmtPid, [], ps[i].streams);
    ListedUpdate(ps, i, p);
    hide Listed;
    assert multiset(p.streams) == multiset{};
    forall x: nat
      ensures (multiset(ps[i].oldStrm) + Listed(ps[i := p]))[x] == Listed(ps)[x]
    {
      assert (Listed(ps[i := p]) + ListedBy(ps[i]))[x] == (Listed(ps) + ListedBy(p))[x];
    }
  }

  lemma TakeListed(ps: seq<TsProgram>, i: nat)
    requires i < |ps|
    ensures multiset(ps[i].oldStrm) + multiset(ps[i].streams) + Listed(ps[i := TsProgram(ps[i].pmtPid, [], [])])
         == Listed(ps)
  {
    var p := TsProgram(ps[i].pmtPid, [], []);
    ListedUpdate(ps, i, p);
    hide Listed;
    assert ListedBy(p) == multiset{};
    forall x: nat
      ensures (multiset(ps[i].oldStrm) + multiset(ps[i].streams) + Listed(ps[i := p]))[x] == Listed(ps)[x]
    {
      assert (Listed(ps[i := p]) + ListedBy(ps[i]))[x] == (Listed(ps) + ListedBy(p))[x];
    }
  }

  ghost predicate ProgramsOk(roles: Roles, ps: seq<TsProgram>) {
    forall i :: 0 <= i < |ps| ==>
      && ps[i].pmtPid < PIDS && roles[ps[i].pmtPid] == PmtRole
      && (forall p :: p in ps[i].streams || p in ps[i].oldStrm ==> p < PIDS)
  }

  predicate MainIs(ecmPid: nat, decrypt: seq<DecryptorElem>, main: DecryptorElem?) {
    if Names(ecmPid) then main != null && main.ecmPid == ecmPid
    else if |decrypt| == 1 then main == decrypt[0]
    else main == null
  }

  /** An entry that led to a decryptor which is still alive leads to it still. */
  ghost predicate StillBehind(before: Entry<DecryptorElem>, after: Entry<DecryptorElem>, alive: set<DecryptorElem>) {
    before.kind == EcmKind && before.target.Dec? && before.target.d in alive ==>
      after.kind == EcmKind && after.target == before.target
  }

  /** No entry but that of `pid`, and those of ECM PIDs, has changed; these lead to what they led to while it lives. */
  ghost predicate Untouched(roles: Roles, pid: nat, before: seq<Entry<DecryptorElem>>,
                            after: seq<Entry<DecryptorElem>>, alive: set<DecryptorElem>) {
    && |before| == |after| == PIDS
    && (forall q :: 0 <= q < PIDS && q != pid && roles[q] != EcmRole ==> after[q] == before[q])
    && (forall q :: 0 <= q < PIDS && roles[q] == EcmRole ==> StillBehind(before[q], after[q], alive))
  }

  lemma StillLeads(roles: Roles, pid: nat, before: seq<Entry<DecryptorElem>>, after: seq<Entry<DecryptorElem>>,
                   alive: set<DecryptorElem>, ecmPid: nat, d: DecryptorElem)
    requires Untouched(roles, pid, before, after, alive) && ecmPid < PIDS && roles[ecmPid] == EcmRole
    requires |before| == PIDS && before[ecmPid].kind == EcmKind && before[ecmPid].target == Dec(d) && d in alive
    ensures LeadsTo(after, ecmPid, d)
  {
  }

  lemma UntouchedTwice(roles: Roles, p: nat, q: nat, a: seq<Entry<DecryptorElem>>, b: seq<Entry<DecryptorElem>>,
                       c: seq<Entry<DecryptorElem>>, alive: set<DecryptorElem>, later: set<DecryptorElem>)
    requires Untouched(roles, p, a, b, alive) && Untouched(roles, q, b, c, later) && (p == PIDS || p == q)
    requires later <= alive
    ensures Untouched(roles, q, a, c, later)
  {
  }

  /**
   The entries that are listed keep what they lead to, an ECM's as long as its decryptor lives; those no list can name
   stay as they are.
   */
  ghost predicate EntriesKept(roles: Roles, listed: multiset<nat>, before: seq<Entry<DecryptorElem>>,
                              after: seq<Entry<DecryptorElem>>, alive: set<DecryptorElem>) {
    && |before| == |after| == PIDS
    && (forall q :: 0 <= q < PIDS && roles[q] == EcmRole && q in listed ==> StillBehind(before[q], after[q], alive))
    && (forall q :: 0 <= q < PIDS && roles[q] == EsRole && q in listed ==> SameUse(before[q], after[q]))
    && (forall q :: 0 <= q < PIDS && (roles[q] == PmtRole || roles[q] == FixedRole) ==> after[q] == before[q])
  }

  predicate SameUse(before: Entry<DecryptorElem>, after: Entry<DecryptorElem>) {
    before.kind == after.kind && before.target == after.target
  }

  ghost predicate Named(es: seq<EsInfo>, pid: nat) { exists k :: 0 <= k < |es| && es[k].pid == pid }

  /** Of the entries that are no ECM's, only those of the streams named have changed. */
  ghost predicate OnlyNamed(roles: Roles, es: seq<EsInfo>, before: seq<Entry<DecryptorElem>>,
                            after: seq<Entry<DecryptorElem>>) {
    && |before| == |after| == PIDS
    && forall q :: 0 <= q < PIDS && roles[q] != EcmRole && after[q] != before[q] ==> Named(es, q)
  }

  lemma NamedMore(roles: Roles, es: seq<EsInfo>, k: nat, a: seq<Entry<DecryptorElem>>, b: seq<Entry<DecryptorElem>>,
                  c: seq<Entry<DecryptorElem>>, alive: set<DecryptorElem>)
    requires k < |es| && OnlyNamed(roles, es[..k], a, b) && Untouched(roles, es[k].pid, b, c, alive)
    ensures OnlyNamed(roles, es[..k + 1], a, c)
  {
    hide StillBehind;
    assert es[..k + 1][k].pid == es[k].pid;
    forall q | 0 <= q < PIDS && Named(es[..k], q)
      ensures Named(es[..k + 1], q)
    {
      var j :| 0 <= j < k && es[..k][j].pid == q;
      assert es[..k + 1][j].pid == q;
    }
  }

  lemma NoneNamed(roles: Roles, a: seq<Entry<DecryptorElem>>, b: seq<Entry<DecryptorElem>>, alive: set<DecryptorElem>)
    requires Untouched(roles, PIDS, a, b, alive)
    ensures OnlyNamed(roles, [], a, b)
  {
  }

  /**
   What a program map table leaves alone: the entries that are no stream's and no ECM's, and the binding of every stream
   in use that it does not name.
   */
  ghost predicate OthersKept(roles: Roles, es: seq<EsInfo>, before: seq<Entry<DecryptorElem>>,
                             after: seq<Entry<DecryptorElem>>) {
    && |before| == |after| == PIDS
    && (forall q :: 0 <= q < PIDS && (roles[q] == PmtRole || roles[q] == FixedRole) ==> after[q] == before[q])
    && (forall q :: 0 <= q < PIDS && roles[q] == EsRole && !Named(es, q) && after[q].kind == OtherKind ==>
          SameUse(before[q], after[q]))
  }

  /** The steps of a table: a decryptor is picked, lists are released, streams are bound, the decryptor is let go. */
  lemma KeptThroughout(roles: Roles, es: seq<EsInfo>, e0: seq<Entry<DecryptorElem>>, e1: seq<Entry<DecryptorElem>>,
                       e2: seq<Entry<DecryptorElem>>, e3: seq<Entry<DecryptorElem>>, e4: seq<Entry<DecryptorElem>>)
    requires OnlyNamed(roles, [], e0, e1) && OthersKept(roles, [], e1, e2) && OnlyNamed(roles, es, e2, e3)
    requires OnlyNamed(roles, [], e3, e4)
    requires forall k :: 0 <= k < |es| ==> EsOk(roles, es[k])
    ensures OthersKept(roles, es, e0, e4)
  {
    forall q | 0 <= q < PIDS && Named(es, q)
      ensures roles[q] == EsRole
    {
      var k :| 0 <= k < |es| && es[k].pid == q;
      assert EsOk(roles, es[k]);
    }
  }

  lemma NoneDropped(roles: Roles, listed: multiset<nat>, entries: seq<Entry<DecryptorElem>>, alive: set<DecryptorElem>)
    requires |entries| == PIDS
    ensures EntriesKept(roles, listed, entries, entries, alive)
  {
  }

  lemma FewerKept(roles: Roles, more: multiset<nat>, listed: multiset<nat>, a: seq<Entry<DecryptorElem>>,
                  b: seq<Entry<DecryptorElem>>, alive: set<DecryptorElem>)
    requires EntriesKept(roles, more, a, b, alive) && forall q :: q in listed ==> q in more
    ensures EntriesKept(roles, listed, a, b, alive)
  {
  }

  lemma KeptLeads(roles: Roles, listed: multiset<nat>, before: seq<Entry<DecryptorElem>>,
                  after: seq<Entry<DecryptorElem>>, alive: set<DecryptorElem>, ecmPid: nat, d: DecryptorElem)
    requires EntriesKept(roles, listed, before, after, alive) && ecmPid < PIDS && roles[ecmPid] == EcmRole
    requires ecmPid in listed && LeadsTo(before, ecmPid, d) && d in alive
    ensures LeadsTo(after, ecmPid, d)
  {
  }

  lemma EntriesKeptTwice(roles: Roles, more: multiset<nat>, listed: multiset<nat>, a: seq<Entry<DecryptorElem>>,
                      b: seq<Entry<DecryptorElem>>, c: seq<Entry<DecryptorElem>>, alive: set<DecryptorElem>,
                      later: set<DecryptorElem>)
    requires EntriesKept(roles, more, a, b, alive) && EntriesKept(roles, listed, b, c, later)
    requires later <= alive && forall q :: q in listed ==> q in more
    ensures EntriesKept(roles, listed, a, c, later)
  {
  }

  lemma NothingTouched(roles: Roles, entries: seq<Entry<DecryptorElem>>, alive: set<DecryptorElem>)
    requires |entries| == PIDS
    ensures Untouched(roles, PIDS, entries, entries, alive)
  {
  }

  /** One list element less: the entry of an ECM PID stays as long as it is listed. */
  lemma OneDropped(roles: Roles, pid: nat, listed: multiset<nat>, a: seq<Entry<DecryptorElem>>,
                   b: seq<Entry<DecryptorElem>>, c: seq<Entry<DecryptorElem>>, alive: set<DecryptorElem>)
    requires Untouched(roles, pid, a, b, alive) || Untouched(roles, PIDS, a, b, alive)
    requires |c| == PIDS && forall q :: 0 <= q < PIDS && q != pid ==> c[q] == b[q]
    requires pid < PIDS && b[pid].ref == listed[pid] && (roles[pid] == EsRole || roles[pid] == EcmRole)
    requires b[pid].ref > 1 ==> SameUse(b[pid], c[pid]) && (roles[pid] == EsRole ==> SameUse(a[pid], b[pid]))
    ensures EntriesKept(roles, listed - multiset{pid}, a, c, alive)
  {
  }

  /** The entry of an ECM PID leads to a decryptor. */
  ghost predicate LeadsTo(entries: seq<Entry<DecryptorElem>>, ecmPid: nat, d: DecryptorElem) {
    ecmPid < |entries| && entries[ecmPid].kind == EcmKind && entries[ecmPid].target == Dec(d)
  }

  ghost function Present(e: DecryptorElem?): Option<DecryptorElem> {
    if e == null then None else var present: DecryptorElem := e; Some(present)
  }

  predicate EsOk(roles: Roles, e: EsInfo) {
    && e.pid < PIDS && roles[e.pid] == EsRole
    && (Names(e.ecmPid) ==> e.ecmPid < PIDS && roles[e.ecmPid] == EcmRole)
  }

  /** A stream list after one more elementary stream and its ECM. */
  function Joined(streams: seq<nat>, e: EsInfo): seq<nat> {
    (if Names(e.ecmPid) then WithEcm(streams, e.ecmPid) else streams) + [e.pid]
  }

  /**
   What a stream is bound to: the decryptor its own ECM's entry leads to, nothing when marked unscrambled, else the
   program's.
   */
  ghost predicate BoundTo(entries: seq<Entry<DecryptorElem>>, e: EsInfo, main: DecryptorElem?)
    requires e.pid < |entries|
  {
    var t := entries[e.pid].target;
    if Names(e.ecmPid) then t.Dec? && t.d.ecmPid == e.ecmPid && LeadsTo(entries, e.ecmPid, t.d)
    else t == if e.ecmPid == NO_PID then Null else TargetOf(main)
  }

  /** A stream list with an ECM PID in it, added at the end when it was not there. */
  function WithEcm(streams: seq<nat>, pid: nat): seq<nat> {
    if pid in streams then streams else streams + [pid]
  }

  lemma MultisetCancel(a: multiset<nat>, b: multiset<nat>, c: multiset<nat>, d: multiset<nat>)
    requires a + c == b + (c + d)
    ensures a == b + d
  {
    forall x: nat
      ensures a[x] == (b + d)[x]
    {
      assert (a + c)[x] == (b + (c + d))[x];
    }
  }
}
