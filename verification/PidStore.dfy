/**
 The PID map and its two layers of reference counts, as values: stream lists count map entries, and map entries of
 elementary streams count decryptors. Each elementary change the decoder makes is a function here, with the lemma
 that it keeps the invariant. A decryptor is identified by a value of type `D`; the decoder object uses references.
 */
module PidStore {
  import opened Prelude

  const PIDS := 0x2000

  datatype Kind = UnknownKind | PatKind | PmtKind | EcmKind | EmmKind | CatKind | OtherKind

  datatype Target<D> = Null | Dec(d: D) | Prog(i: nat)

  datatype Entry<D> = Entry(ref: int, kind: Kind, target: Target<D>)

  datatype Cell = Cell(ref: int, ecmPid: nat)

  /** What a PID is used for between two program association tables. */
  datatype Role = EsRole | EcmRole | PmtRole | FixedRole

  type Roles = r: seq<Role> | |r| == PIDS witness seq(PIDS, _ => FixedRole)

  // ---- Users of a decryptor ----

  ghost predicate Uses<D>(e: Entry<D>, d: D) { e.kind == OtherKind && e.target == Dec(d) }

  /** The elementary-stream entries that point at a decryptor. */
  ghost function Users<D>(entries: seq<Entry<D>>, d: D): set<int> {
    set p | 0 <= p < |entries| && Uses(entries[p], d)
  }

  lemma UsersUpdate<D>(entries: seq<Entry<D>>, p: nat, e: Entry<D>, d: D)
    requires p < |entries|
    ensures Users(entries[p := e], d) == Users(entries, d) - {p} + (if Uses(e, d) then {p} else {})
    ensures p in Users(entries, d) <==> Uses(entries[p], d)
  {
  }

  /** How the number of users changes when one entry changes. */
  lemma UsersCount<D>(entries: seq<Entry<D>>, p: nat, e: Entry<D>, d: D)
    requires p < |entries|
    ensures |Users(entries[p := e], d)| == |Users(entries, d)| - Indicator(Uses(entries[p], d)) + Indicator(Uses(e, d))
  {
    hide Users, Uses;
    UsersUpdate(entries, p, e, d);
    var s := Users(entries, d);
    assert p in s ==> |s - {p}| == |s| - 1;
    assert p !in s ==> s - {p} == s;
  }

  // ---- The store ----

  datatype Store<D> = Store(entries: seq<Entry<D>>, decs: map<D, Cell>, order: seq<D>)
  {
    /** One map entry, given what its PID is used for and how often the stream lists name it. */
    ghost predicate EntryOk(role: Role, count: nat, pmts: seq<nat>, p: nat, e: Entry<D>) {
      match role
      case EsRole =>
        && e.ref == count
        && (e.kind == UnknownKind || e.kind == OtherKind)
        && (e.kind == OtherKind <==> count > 0)
        && (e.target == Null || (e.kind == OtherKind && e.target.Dec? && e.target.d in decs))
      case EcmRole =>
        && e.ref == count
        && (e.kind == UnknownKind || e.kind == EcmKind)
        && (e.kind == UnknownKind ==> e.target == Null)
        && (e.kind == EcmKind ==> e.target.Dec? && e.target.d in decs && decs[e.target.d].ecmPid == p)
      case PmtRole =>
        && count == 0
        && (e.kind == UnknownKind || e.kind == PmtKind)
        && (e.kind == UnknownKind ==> e.target == Null)
        && (e.kind == PmtKind ==> e.target.Prog? && e.target.i < |pmts| && pmts[e.target.i] == p)
      case FixedRole =>
        count == 0 && e.target == Null && e.kind != OtherKind && e.kind != EcmKind && e.kind != PmtKind
    }

    ghost predicate EntriesOk(roles: Roles, listed: multiset<nat>, pmts: seq<nat>) {
      && |entries| == PIDS
      && forall p :: 0 <= p < PIDS ==> EntryOk(roles[p], listed[p], pmts, p, entries[p])
    }

    /**
     A decryptor's count is the number of elementary streams that use it, one more while it is pinned; only a `loose`
     one may be unused.
     */
    ghost predicate DecsOk(roles: Roles, pinned: Option<D>, loose: set<D>) {
      forall d :: d in decs ==>
        && decs[d].ecmPid < PIDS && roles[decs[d].ecmPid] == EcmRole
        && decs[d].ref == |Users(entries, d)| + Indicator(pinned == Some(d))
        && (decs[d].ref >= 1 || d in loose)
    }

    /** The decryptor list holds every decryptor once. */
    ghost predicate OrderOk() {
      Distinct(order) && (forall d :: d in decs ==> d in order) && (forall d :: d in order ==> d in decs)
    }

    ghost predicate Inv(roles: Roles, listed: multiset<nat>, pmts: seq<nat>, pinned: Option<D>, loose: set<D>) {
      && EntriesOk(roles, listed, pmts)
      && DecsOk(roles, pinned, loose)
      && OrderOk()
      && (pinned.Some? ==> pinned.value in decs)
    }

    // ---- Elementary changes ----

    ghost function WithEntry(p: nat, e: Entry<D>): Store<D>
      requires p < |entries|
    {
      this.(entries := entries[p := e])
    }

    ghost function WithRef(d: D, ref: int): Store<D>
      requires d in decs
    {
      this.(decs := decs[d := decs[d].(ref := ref)])
    }

    /** A new decryptor behind an ECM entry. */
    ghost function Created(p: nat, d: D): Store<D>
      requires p < |entries|
    {
      Store(entries[p := entries[p].(kind := EcmKind, target := Dec(d))], decs[d := Cell(0, p)], order + [d])
    }

    /** The ECM entry of a decryptor, when it points there, is cleared; the decryptor is unlinked and freed. */
    ghost function Removed(d: D): Store<D>
      requires d in decs && decs[d].ecmPid < |entries|
    {
      var p := decs[d].ecmPid;
      Store(if entries[p].kind == EcmKind && entries[p].target == Dec(d)
              then entries[p := entries[p].(kind := UnknownKind, target := Null)] else entries,
            decs - {d}, Without(order, d))
    }

    /** An elementary stream stops using its decryptor. */
    ghost function Detached(p: nat, d: D): Store<D>
      requires p < |entries| && d in decs
    {
      WithEntry(p, entries[p].(target := Null)).WithRef(d, decs[d].ref - 1)
    }

    /** An elementary stream starts using a decryptor. */
    ghost function Attached(p: nat, d: D): Store<D>
      requires p < |entries| && d in decs
    {
      WithEntry(p, entries[p].(target := Dec(d))).WithRef(d, decs[d].ref + 1)
    }

    // ---- What they keep ----

    /** An entry that is not an elementary stream's, before and after, leaves the users alone. */
    lemma SameUsers(p: nat, e: Entry<D>)
      requires p < |entries| && entries[p].kind != OtherKind && e.kind != OtherKind
      ensures forall d :: d in decs ==> Users(entries[p := e], d) == Users(entries, d)
    {
      forall d | d in decs
        ensures Users(entries[p := e], d) == Users(entries, d)
      {
        UsersUpdate(entries, p, e, d);
      }
    }

    lemma CreateEntries(roles: Roles, listed: multiset<nat>, pmts: seq<nat>, p: nat, d: D)
      requires EntriesOk(roles, listed, pmts) && p < PIDS && roles[p] == EcmRole
      requires entries[p].kind == UnknownKind && d !in decs
      ensures Created(p, d).EntriesOk(roles, listed, pmts)
    {
    }

    lemma CreateDecs(roles: Roles, pinned: Option<D>, loose: set<D>, p: nat, d: D)
      requires |entries| == PIDS && DecsOk(roles, pinned, loose) && p < PIDS && roles[p] == EcmRole
      requires entries[p].kind == UnknownKind && d !in decs && pinned != Some(d)
      requires forall q :: 0 <= q < PIDS ==> !Uses(entries[q], d)
      ensures Created(p, d).DecsOk(roles, pinned, loose + {d})
    {
      hide Users;
      var e := entries[p].(kind := EcmKind, target := Dec(d));
      SameUsers(p, e);
      NoUsers(entries[p := e], d);
    }

    lemma NoUsers(es: seq<Entry<D>>, d: D)
      requires forall q :: 0 <= q < |es| ==> !Uses(es[q], d)
      ensures |Users(es, d)| == 0
    {
      assert Users(es, d) == {};
    }

    lemma CreateKeeps(roles: Roles, listed: multiset<nat>, pmts: seq<nat>, pinned: Option<D>, loose: set<D>, p: nat,
                      d: D)
      requires Inv(roles, listed, pmts, pinned, loose)
      requires p < PIDS && roles[p] == EcmRole && entries[p].kind == UnknownKind && d !in decs
      ensures Created(p, d).Inv(roles, listed, pmts, pinned, loose + {d})
    {
      hide Users, Store.DecsOk;
      forall q | 0 <= q < PIDS
        ensures !Uses(entries[q], d)
      {
        assert EntryOk(roles[q], listed[q], pmts, q, entries[q]);
      }
      CreateEntries(roles, listed, pmts, p, d);
      CreateDecs(roles, pinned, loose, p, d);
      assert Distinct(order + [d]);
    }

    /** An unused decryptor is pointed at by no elementary stream. */
    lemma Unused(roles: Roles, pinned: Option<D>, loose: set<D>, d: D)
      requires DecsOk(roles, pinned, loose) && d in decs && decs[d].ref == 0
      ensures forall q :: 0 <= q < |entries| ==> !Uses(entries[q], d)
    {
      hide Uses;
      assert Users(entries, d) == {};
      forall q | 0 <= q < |entries|
        ensures !Uses(entries[q], d)
      {
        assert q !in Users(entries, d);
      }
    }

    lemma RemoveEntries(roles: Roles, listed: multiset<nat>, pmts: seq<nat>, d: D)
      requires EntriesOk(roles, listed, pmts) && d in decs && decs[d].ecmPid < PIDS && roles[decs[d].ecmPid] == EcmRole
      requires forall q :: 0 <= q < PIDS ==> !Uses(entries[q], d)
      ensures Removed(d).EntriesOk(roles, listed, pmts)
    {
    }

    lemma RemoveDecs(roles: Roles, pinned: Option<D>, loose: set<D>, d: D)
      requires |entries| == PIDS && DecsOk(roles, pinned, loose) && d in decs
      ensures decs[d].ecmPid < PIDS && Removed(d).DecsOk(roles, pinned, loose - {d})
    {
      hide Users;
      var p := decs[d].ecmPid;
      if entries[p].kind == EcmKind {
        SameUsers(p, entries[p].(kind := UnknownKind, target := Null));
      }
    }

    /** Freeing an unused decryptor leaves nothing pointing at it. */
    lemma RemoveKeeps(roles: Roles, listed: multiset<nat>, pmts: seq<nat>, pinned: Option<D>, loose: set<D>, d: D)
      requires Inv(roles, listed, pmts, pinned, loose) && d in decs && decs[d].ref == 0
      ensures decs[d].ecmPid < PIDS == |entries| && Removed(d).Inv(roles, listed, pmts, pinned, loose - {d})
    {
      RemoveSize(roles, listed, pmts);
      OfDecryptor(roles, pinned, loose, d);
      hide Users, Uses, Store.EntriesOk, Store.DecsOk, Store.OrderOk;
      Unused(roles, pinned, loose, d);
      RemoveEntries(roles, listed, pmts, d);
      RemoveDecs(roles, pinned, loose, d);
      RemoveOrder(d);
    }

    lemma RemoveOrder(d: D)
      requires OrderOk() && d in decs && decs[d].ecmPid < |entries|
      ensures Removed(d).OrderOk()
    {
      hide Distinct, Without;
      WithoutIs(order, d);
      var r := Removed(d);
      assert r.order == Without(order, d);
      forall x | x in r.decs
        ensures x in r.order
      {
        assert x in decs && x != d;
      }
      forall x | x in r.order
        ensures x in r.decs
      {
        assert x in order && x != d;
      }
    }

    lemma DecryptorIs(roles: Roles, listed: multiset<nat>, pmts: seq<nat>, pinned: Option<D>, loose: set<D>, d: D)
      requires Inv(roles, listed, pmts, pinned, loose) && d in decs
      ensures decs[d].ecmPid < PIDS && roles[decs[d].ecmPid] == EcmRole && decs[d].ref >= 0
      ensures d !in loose ==> decs[d].ref >= 1
    {
      hide Users;
    }

    /** A decryptor that some stream uses has a positive count. */
    lemma UsedIs(roles: Roles, listed: multiset<nat>, pmts: seq<nat>, pinned: Option<D>, loose: set<D>, p: nat, d: D)
      requires Inv(roles, listed, pmts, pinned, loose) && p < PIDS && d in decs && p < |entries| && Uses(entries[p], d)
      ensures decs[d].ref >= 1
    {
      assert p in Users(entries, d);
      assert |Users(entries, d)| >= |{p}| by {
        assert {p} <= Users(entries, d);
        assert Users(entries, d) == {p} + (Users(entries, d) - {p});
      }
    }

    lemma RemovedElsewhere(d: D)
      requires d in decs && decs[d].ecmPid < |entries|
      ensures |Removed(d).entries| == |entries|
      ensures forall q :: 0 <= q < |entries| && (q != decs[d].ecmPid || entries[q].target != Dec(d)) ==>
        Removed(d).entries[q] == entries[q]
    {
    }

    lemma OfDecryptor(roles: Roles, pinned: Option<D>, loose: set<D>, d: D)
      requires DecsOk(roles, pinned, loose) && d in decs
      ensures decs[d].ecmPid < PIDS && roles[decs[d].ecmPid] == EcmRole
      ensures decs[d].ref == 0 ==> pinned != Some(d)
    {
      hide Users;
    }

    lemma RemoveSize(roles: Roles, listed: multiset<nat>, pmts: seq<nat>)
      requires EntriesOk(roles, listed, pmts)
      ensures |entries| == PIDS
    {
    }

    lemma DetachEntries(roles: Roles, listed: multiset<nat>, pmts: seq<nat>, p: nat, d: D)
      requires EntriesOk(roles, listed, pmts) && p < PIDS && roles[p] == EsRole && d in decs
      ensures Detached(p, d).EntriesOk(roles, listed, pmts)
    {
    }

    lemma DetachDecs(roles: Roles, pinned: Option<D>, loose: set<D>, p: nat, d: D)
      requires |entries| == PIDS && DecsOk(roles, pinned, loose) && p < PIDS && d in decs
      requires entries[p].kind == OtherKind && entries[p].target == Dec(d)
      ensures Detached(p, d).DecsOk(roles, pinned, loose + {d})
    {
      hide Users;
      forall x | x in decs
        ensures |Users(Detached(p, d).entries, x)| == |Users(entries, x)| - Indicator(x == d)
      {
        UsersCount(entries, p, entries[p].(target := Null), x);
      }
    }

    lemma DetachKeeps(roles: Roles, listed: multiset<nat>, pmts: seq<nat>, pinned: Option<D>, loose: set<D>, p: nat,
                      d: D)
      requires Inv(roles, listed, pmts, pinned, loose)
      requires p < PIDS && roles[p] == EsRole && d in decs && entries[p].target == Dec(d)
      ensures Detached(p, d).Inv(roles, listed, pmts, pinned, loose + {d})
    {
      assert EntryOk(roles[p], listed[p], pmts, p, entries[p]);
      hide Users, Store.EntriesOk, Store.DecsOk;
      RemoveSize(roles, listed, pmts);
      DetachEntries(roles, listed, pmts, p, d);
      DetachDecs(roles, pinned, loose, p, d);
    }

    lemma AttachEntries(roles: Roles, listed: multiset<nat>, pmts: seq<nat>, p: nat, d: D)
      requires EntriesOk(roles, listed, pmts) && p < PIDS && roles[p] == EsRole && d in decs
      requires entries[p].kind == OtherKind
      ensures Attached(p, d).EntriesOk(roles, listed, pmts)
    {
    }

    lemma AttachDecs(roles: Roles, pinned: Option<D>, loose: set<D>, p: nat, d: D)
      requires |entries| == PIDS && DecsOk(roles, pinned, loose) && p < PIDS && d in decs
      requires entries[p].kind == OtherKind && entries[p].target == Null
      ensures Attached(p, d).DecsOk(roles, pinned, loose - {d})
    {
      hide Users;
      forall x | x in decs
        ensures |Users(Attached(p, d).entries, x)| == |Users(entries, x)| + Indicator(x == d)
      {
        UsersCount(entries, p, entries[p].(target := Dec(d)), x);
      }
    }

    lemma AttachKeeps(roles: Roles, listed: multiset<nat>, pmts: seq<nat>, pinned: Option<D>, loose: set<D>, p: nat,
                      d: D)
      requires Inv(roles, listed, pmts, pinned, loose)
      requires p < PIDS && roles[p] == EsRole && d in decs
      requires p < |entries| && entries[p].kind == OtherKind && entries[p].target == Null
      ensures Attached(p, d).Inv(roles, listed, pmts, pinned, loose - {d})
    {
      hide Users, Store.EntriesOk, Store.DecsOk;
      RemoveSize(roles, listed, pmts);
      AttachEntries(roles, listed, pmts, p, d);
      AttachDecs(roles, pinned, loose, p, d);
    }

    /** One more stream list element names an elementary stream. */
    lemma ListEsKeeps(roles: Roles, listed: multiset<nat>, pmts: seq<nat>, pinned: Option<D>, loose: set<D>, p: nat)
      requires Inv(roles, listed, pmts, pinned, loose) && p < PIDS && roles[p] == EsRole
      ensures p < |entries|
      ensures WithEntry(p, entries[p].(kind := OtherKind, ref := entries[p].ref + 1)).Inv(
        roles, listed + multiset{p}, pmts, pinned, loose)
    {
      hide Users;
      var e := entries[p].(kind := OtherKind, ref := entries[p].ref + 1);
      assert EntryOk(roles[p], listed[p], pmts, p, entries[p]);
      forall x | x in decs
        ensures |Users(entries[p := e], x)| == |Users(entries, x)|
      {
        UsersCount(entries, p, e, x);
      }
    }

    /** One more stream list names an ECM PID. */
    lemma ListEcmKeeps(roles: Roles, listed: multiset<nat>, pmts: seq<nat>, pinned: Option<D>, loose: set<D>, p: nat)
      requires Inv(roles, listed, pmts, pinned, loose) && p < PIDS && roles[p] == EcmRole
      ensures p < |entries|
      ensures WithEntry(p, entries[p].(ref := entries[p].ref + 1)).Inv(roles, listed + multiset{p}, pmts, pinned, loose)
    {
      hide Users;
      assert EntryOk(roles[p], listed[p], pmts, p, entries[p]);
      SameUsers(p, entries[p].(ref := entries[p].ref + 1));
    }

    /** The entry once one stream list element less names it. */
    ghost function Unlisted(p: nat): Store<D>
      requires p < |entries|
    {
      WithEntry(p, if entries[p].ref == 1 then Entry(0, UnknownKind, Null) else entries[p].(ref := entries[p].ref - 1))
    }

    lemma UnlistKeeps(roles: Roles, listed: multiset<nat>, pmts: seq<nat>, pinned: Option<D>, loose: set<D>, p: nat)
      requires Inv(roles, listed, pmts, pinned, loose) && p < PIDS && p in listed
      requires p < |entries| && (roles[p] == EsRole && entries[p].ref == 1 ==> entries[p].target == Null)
      ensures Unlisted(p).Inv(roles, listed - multiset{p}, pmts, pinned, loose)
    {
      hide Users;
      assert EntryOk(roles[p], listed[p], pmts, p, entries[p]);
      forall x | x in decs
        ensures |Users(Unlisted(p).entries, x)| == |Users(entries, x)|
      {
        UsersCount(entries, p, Unlisted(p).entries[p], x);
      }
    }

    lemma PinKeeps(roles: Roles, listed: multiset<nat>, pmts: seq<nat>, loose: set<D>, d: D)
      requires Inv(roles, listed, pmts, None, loose) && d in decs
      ensures WithRef(d, decs[d].ref + 1).Inv(roles, listed, pmts, Some(d), loose - {d})
    {
      hide Users;
    }

    lemma UnpinKeeps(roles: Roles, listed: multiset<nat>, pmts: seq<nat>, loose: set<D>, d: D)
      requires Inv(roles, listed, pmts, Some(d), loose) && d in decs
      ensures WithRef(d, decs[d].ref - 1).Inv(roles, listed, pmts, None, loose + {d})
    {
      hide Users;
    }

    /** A decryptor that is used need not be loose. */
    lemma Settle(roles: Roles, listed: multiset<nat>, pmts: seq<nat>, pinned: Option<D>, loose: set<D>, d: D)
      requires Inv(roles, listed, pmts, pinned, loose) && (d in decs ==> decs[d].ref >= 1)
      ensures Inv(roles, listed, pmts, pinned, loose - {d})
    {
      hide Users, Store.EntriesOk;
    }

    lemma Loosen(roles: Roles, listed: multiset<nat>, pmts: seq<nat>, pinned: Option<D>, loose: set<D>, more: set<D>)
      requires Inv(roles, listed, pmts, pinned, loose) && loose <= more
      ensures Inv(roles, listed, pmts, pinned, more)
    {
      hide Users, Store.EntriesOk;
    }

    /** A PMT entry is cleared. */
    lemma ClearPmtKeeps(roles: Roles, listed: multiset<nat>, pmts: seq<nat>, pinned: Option<D>, loose: set<D>, p: nat)
      requires Inv(roles, listed, pmts, pinned, loose) && p < PIDS && roles[p] == PmtRole
      ensures p < |entries| && WithEntry(p, Entry(0, UnknownKind, Null)).Inv(roles, listed, pmts, pinned, loose)
    {
      hide Users;
      assert EntryOk(roles[p], listed[p], pmts, p, entries[p]);
      SameUsers(p, Entry(0, UnknownKind, Null));
    }

    /** A PMT PID is entered for a program that joins at the end. */
    lemma AnnounceKeeps(roles: Roles, listed: multiset<nat>, pmts: seq<nat>, p: nat)
      requires Inv(roles, listed, pmts, None, {}) && p < PIDS && roles[p] == PmtRole
      ensures p < |entries|
      ensures WithEntry(p, entries[p].(kind := PmtKind, target := Prog(|pmts|))).Inv(roles, listed, pmts + [p], None,
        {})
    {
      hide Users;
      assert EntryOk(roles[p], listed[p], pmts, p, entries[p]);
      SameUsers(p, entries[p].(kind := PmtKind, target := Prog(|pmts|)));
    }

    /** A PID with a fixed use is entered. */
    lemma FixKeeps(roles: Roles, listed: multiset<nat>, pmts: seq<nat>, p: nat, kind: Kind)
      requires Inv(roles, listed, pmts, None, {}) && p < PIDS && roles[p] == FixedRole
      requires kind == PatKind || kind == EmmKind || kind == CatKind
      ensures p < |entries| && WithEntry(p, Entry(1, kind, Null)).Inv(roles, listed, pmts, None, {})
    {
      hide Users;
      assert EntryOk(roles[p], listed[p], pmts, p, entries[p]);
      SameUsers(p, Entry(1, kind, Null));
    }

    /** When no list names anything, no decryptor is left. */
    lemma NothingListed(roles: Roles, pmts: seq<nat>)
      requires Inv(roles, multiset{}, pmts, None, {})
      ensures decs == map[] && order == []
    {
      assert |order| == 0 || order[0] in order;
      forall q | 0 <= q < PIDS
        ensures entries[q].kind != OtherKind
      {
        assert EntryOk(roles[q], 0, pmts, q, entries[q]);
      }
      if d :| d in decs {
        NoUsers(entries, d);
        assert false;
      }
    }
  }

  // ---- Two uses of one PID ----

  /** `bind_stream_decryptor` on an entry that has no other decryptor. */
  ghost function BindFirst<D>(s: Store<D>, e: nat, d: D): Store<D>
    requires e < |s.entries| && d in s.decs
  {
    if s.entries[e].target == Dec(d) then s else s.Attached(e, d)
  }

  /**
   `proc_pmt`, step by step and for any PIDs, on the first table of a program: its own ECM PID is `p`, and it has one
   elementary stream, `e`, without an ECM of its own. `d` is the decryptor that is made.
   */
  ghost function FirstPmt<D>(s: Store<D>, p: nat, e: nat, d: D): Store<D>
    requires p < |s.entries| && e < |s.entries| && d !in s.decs
  {
    var made := s.Created(p, d).WithRef(d, 1);
    var ecm := made.WithEntry(p, made.entries[p].(ref := made.entries[p].ref + 1));
    var listed := ecm.WithEntry(e, ecm.entries[e].(kind := OtherKind, ref := ecm.entries[e].ref + 1));
    var bound := BindFirst(listed, e, d);
    var count := bound.decs[d].ref - 1;
    if count < 1 then bound.WithRef(d, count).Removed(d) else bound.WithRef(d, count)
  }

  /** Some entry points at a decryptor that is gone. */
  ghost predicate Dangles<D>(s: Store<D>, d: D) {
    d !in s.decs && exists q :: 0 <= q < |s.entries| && s.entries[q].target == Dec(d)
  }

  /**
   Why a PID must have one use: the table leaves a dangling entry exactly when the stream is the program's own ECM PID.
   Its entry is then found bound to the decryptor already, so the stream is not counted as a user; the decryptor is
   freed at the end, and its entry, by now a stream's, is left as it is.
   */
  lemma TwoUsesDangle<D>(s: Store<D>, p: nat, e: nat, d: D)
    requires p < |s.entries| && e < |s.entries| && d !in s.decs
    requires s.entries[p] == s.entries[e] == Entry(0, UnknownKind, Null)
    ensures Dangles(FirstPmt(s, p, e, d), d) <==> p == e
  {
    var r := FirstPmt(s, p, e, d);
    if p == e {
      assert r.entries[p].target == Dec(d);
    } else {
      assert d in r.decs;
    }
  }

  function Without<E(==)>(s: seq<E>, e: E): seq<E> {
    if |s| == 0 then [] else if s[0] == e then Without(s[1..], e) else [s[0]] + Without(s[1..], e)
  }

  lemma {:induction false} WithoutIs<E>(s: seq<E>, e: E)
    ensures forall x :: x in Without(s, e) ==> x in s && x != e
    ensures forall x :: x in s && x != e ==> x in Without(s, e)
    ensures Distinct(s) ==> Distinct(Without(s, e))
    decreases |s|
  {
    if |s| > 0 {
      WithoutIs(s[1..], e);
      var r := Without(s[1..], e);
      assert s == [s[0]] + s[1..];
      if Distinct(s) && s[0] != e {
        assert Distinct(s[1..]);
        assert s[0] !in s[1..];
      }
    }
  }
}
