/**
 The two MULTI2 objects as classes. Each method is proved against one step of the state machine in `Multi2Keys`;
 encryption and decryption change the caller's buffer in place.
 */
module Multi2Objects {
  import opened Prelude
  import opened Bytes
  import opened Multi2
  import opened Multi2Cbc
  import opened Multi2Dispatch
  import opened Multi2Keys
  import opened Multi2Simd

  /** The bytes a call works on; a count below one selects none. */
  function Region(s: seq<byte>, off: nat, n: int): seq<byte>
    requires n >= 1 ==> off + n <= |s|
  {
    if n < 1 then [] else s[off..off + n]
  }

  function KeyAt(s: seq<byte>): Key
    requires |s| >= 32
  {
    seq(8, i requires 0 <= i < 8 => LoadBe(s, 4 * i))
  }

  /** The eight words of a key one after the other, each with its most significant byte first. */
  function StoredKey(k: Key): (r: seq<byte>)
    ensures |r| == 32
  {
    StoreBe(k[0]) + StoreBe(k[1]) + StoreBe(k[2]) + StoreBe(k[3])
    + StoreBe(k[4]) + StoreBe(k[5]) + StoreBe(k[6]) + StoreBe(k[7])
  }

  /** A key is read back from its bytes. */
  lemma KeyRestored(k: Key)
    ensures KeyAt(StoredKey(k)) == k
  {
    hide StoreBe, LoadBe;
    var s := StoredKey(k);
    forall i | 0 <= i < 8
      ensures LoadBe(s, 4 * i) == k[i]
    {
      assert s[4 * i..4 * i + 4] == StoreBe(k[i]) by { WordInKey(k, i); }
      LoadStoreBe(k[i]);
      LoadMoved(s, 4 * i, StoreBe(k[i]));
    }
  }

  lemma WordInKey(k: Key, i: nat)
    requires i < 8
    ensures StoredKey(k)[4 * i..4 * i + 4] == StoreBe(k[i])
  {
    hide StoreBe;
  }

  lemma LoadMoved(s: seq<byte>, i: nat, w: seq<byte>)
    requires i + 4 <= |s| && |w| == 4 && s[i..i + 4] == w
    ensures LoadBe(s, i) == LoadBe(w, 0)
  {
    hide Join;
    assert forall j :: 0 <= j < 4 ==> s[i + j] == w[j] by {
      forall j | 0 <= j < 4
        ensures s[i + j] == w[j]
      {
        assert s[i..i + 4][j] == s[i + j];
      }
    }
    assert s[i] == w[0] && s[i + 1] == w[1] && s[i + 2] == w[2] && s[i + 3] == w[3];
  }

  /** The system key bytes of the repository's test vector are the words 00112233, 44556677 and so on. */
  lemma KnownKey()
    ensures KeyAt([
      0x00, 0x11, 0x22, 0x33, 0x44, 0x55, 0x66, 0x77, 0x88, 0x99, 0xaa, 0xbb, 0xcc, 0xdd, 0xee, 0xff,
      0x10, 0x21, 0x32, 0x43, 0x54, 0x65, 0x76, 0x87, 0x98, 0xa9, 0xba, 0xbb, 0xdc, 0xdd, 0xde, 0xef])
      == [0x00112233, 0x44556677, 0x8899aabb, 0xccddeeff, 0x10213243, 0x54657687, 0x98a9babb, 0xdcdddeef]
  {
    assert Join(0x00, 0x11, 0x22, 0x33) == 0x00112233 && Join(0x44, 0x55, 0x66, 0x77) == 0x44556677;
    assert Join(0x88, 0x99, 0xaa, 0xbb) == 0x8899aabb && Join(0xcc, 0xdd, 0xee, 0xff) == 0xccddeeff;
    assert Join(0x10, 0x21, 0x32, 0x43) == 0x10213243 && Join(0x54, 0x65, 0x76, 0x87) == 0x54657687;
    assert Join(0x98, 0xa9, 0xba, 0xbb) == 0x98a9babb && Join(0xdc, 0xdd, 0xde, 0xef) == 0xdcdddeef;
  }

  const CBC_INIT_SET: bv8 := 0x01

  const SYSTEM_KEY_SET: bv8 := 0x02

  const SCRAMBLE_KEY_SET: bv8 := 0x04

  const READY: bv8 := 0x07

  predicate Has(state: bv8, flag: bv8) { state & flag != 0 }

  lemma FlagLaws(state: bv8)
    requires state <= READY
    ensures state | CBC_INIT_SET <= READY && Has(state | CBC_INIT_SET, CBC_INIT_SET)
    ensures Has(state | CBC_INIT_SET, SYSTEM_KEY_SET) == Has(state, SYSTEM_KEY_SET)
    ensures Has(state | CBC_INIT_SET, SCRAMBLE_KEY_SET) == Has(state, SCRAMBLE_KEY_SET)
    ensures state | SYSTEM_KEY_SET <= READY && Has(state | SYSTEM_KEY_SET, SYSTEM_KEY_SET)
    ensures Has(state | SYSTEM_KEY_SET, CBC_INIT_SET) == Has(state, CBC_INIT_SET)
    ensures Has(state | SYSTEM_KEY_SET, SCRAMBLE_KEY_SET) == Has(state, SCRAMBLE_KEY_SET)
    ensures state | SCRAMBLE_KEY_SET <= READY && Has(state | SCRAMBLE_KEY_SET, SCRAMBLE_KEY_SET)
    ensures Has(state | SCRAMBLE_KEY_SET, CBC_INIT_SET) == Has(state, CBC_INIT_SET)
    ensures Has(state | SCRAMBLE_KEY_SET, SYSTEM_KEY_SET) == Has(state, SYSTEM_KEY_SET)
    ensures state & !SCRAMBLE_KEY_SET <= READY && !Has(state & !SCRAMBLE_KEY_SET, SCRAMBLE_KEY_SET)
    ensures Has(state & !SCRAMBLE_KEY_SET, CBC_INIT_SET) == Has(state, CBC_INIT_SET)
    ensures Has(state & !SCRAMBLE_KEY_SET, SYSTEM_KEY_SET) == Has(state, SYSTEM_KEY_SET)
    ensures state == READY <==> Has(state, CBC_INIT_SET) && Has(state, SYSTEM_KEY_SET) && Has(state, SCRAMBLE_KEY_SET)
  {
  }

  /** Which decryption routine an object's decrypt entry points to: the portable one or one of multi2_simd.c's. */
  datatype Routine = Portable | WithoutSimd | WithSimd(isa: Isa)

  /** The C object. */
  class EagerMulti2 {
    var round: int
    var state: bv8
    var sys: Key
    var cbcInit: Block<word>
    var scr: seq<Block<word>>
    var wrk: seq<Key>

    ghost predicate Valid()
      reads this
    {
      |scr| == 2 && |wrk| == 2 && state <= READY
    }

    /** What later calls can see of the object. */
    ghost function View(): Eager
      reads this
      requires Valid()
    {
      Eager(round, Has(state, CBC_INIT_SET), Has(state, SYSTEM_KEY_SET), Has(state, SCRAMBLE_KEY_SET),
            cbcInit, sys, wrk[0], wrk[1])
    }

    constructor ()
      ensures Valid() && View() == NEW_EAGER
    {
      round, state, sys, cbcInit := 4, 0, ZERO_KEY, Block(0, 0);
      scr, wrk := [Block(0, 0), Block(0, 0)], [ZERO_KEY, ZERO_KEY];
    }

    method SetRoundCount(val: int) returns (code: int)
      requires Valid()
      modifies this
      ensures Valid() && View() == old(View()).Step(SetRound(val)).0 && code == OK
    {
      round, code := val, OK;
    }

    method SetSystem(val: array?<byte>) returns (code: int)
      requires Valid() && (val != null ==> val.Length >= 32)
      modifies this
      ensures Valid() && code == if val == null then INVALID_PARAMETER else OK
      ensures View() == if val == null then old(View()) else old(View()).Step(SetSystemKey(KeyAt(val[..]))).0
    {
      hide LoadBe;
      if val == null {
        return INVALID_PARAMETER;
      }
      var key: seq<word> := [];
      for i := 0 to 8
        invariant |key| == i
        invariant forall k :: 0 <= k < i ==> key[k] == LoadBe(val[..], 4 * k)
      {
        key := key + [LoadBe(val[..], 4 * i)];
      }
      assert key == KeyAt(val[..]);
      FlagLaws(state);
      sys, state, code := key, state | SYSTEM_KEY_SET, OK;
    }

    method SetInit(val: array?<byte>) returns (code: int)
      requires Valid() && (val != null ==> val.Length >= 8)
      modifies this
      ensures Valid() && code == if val == null then INVALID_PARAMETER else OK
      ensures View() == if val == null then old(View()) else old(View()).Step(SetInitCbc(LoadBlock(val[..], 0))).0
    {
      hide LoadBlock;
      if val == null {
        return INVALID_PARAMETER;
      }
      FlagLaws(state);
      cbcInit, state, code := LoadBlock(val[..], 0), state | CBC_INIT_SET, OK;
    }

    method SetScramble(val: array?<byte>) returns (code: int)
      requires Valid() && (val != null ==> val.Length >= 16)
      modifies this
      ensures Valid() && code == if val == null then INVALID_PARAMETER else OK
      ensures View() == if val == null then old(View())
                        else old(View()).Step(SetScrambleKey(LoadBlock(val[..], 0), LoadBlock(val[..], 8))).0
    {
      hide LoadBlock, Arith.Schedule;
      if val == null {
        return INVALID_PARAMETER;
      }
      FlagLaws(state);
      scr := [LoadBlock(val[..], 0), LoadBlock(val[..], 8)];
      wrk := [WorkKey(sys, scr[0]), WorkKey(sys, scr[1])];
      state, code := state | SCRAMBLE_KEY_SET, OK;
    }

    method Clear() returns (code: int)
      requires Valid()
      modifies this
      ensures Valid() && View() == old(View()).Step(ClearScrambleKey).0 && code == OK
    {
      FlagLaws(state);
      scr, wrk := [Block(0, 0), Block(0, 0)], [ZERO_KEY, ZERO_KEY];
      state, code := state & !SCRAMBLE_KEY_SET, OK;
    }

    /** The checks every encryption and decryption starts with. */
    method Check(n: int) returns (code: int)
      requires Valid()
      ensures code == View().Status(n)
    {
      FlagLaws(state);
      if n < 1 {
        return INVALID_PARAMETER;
      }
      if state != READY {
        if state & CBC_INIT_SET == 0 {
          return UNSET_CBC_INIT;
        }
        if state & SYSTEM_KEY_SET == 0 {
          return UNSET_SYSTEM_KEY;
        }
        if state & SCRAMBLE_KEY_SET == 0 {
          return UNSET_SCRAMBLE_KEY;
        }
      }
      return OK;
    }

    method EncryptBuffer(kind: int, buf: array<byte>, off: nat, n: int) returns (code: int)
      requires Valid() && (n >= 1 ==> off + n <= buf.Length)
      modifies buf
      ensures Answered(View().Step(Encrypt(kind, Region(old(buf[..]), off, n))).1, old(buf[..]), off, n, code, buf[..])
    {
      hide BlockCipher.EncryptBytes, Splice, Keyed;
      code := Check(n);
      if code == OK {
        var prm := if kind == 0x02 then wrk[1] else wrk[0];
        EncryptInPlace(Reference(prm, round), cbcInit, buf, off, n);
        assert old(buf[off..off + n]) == old(buf[..])[off..off + n];
      } else {
        NothingWritten(buf[..], off, n);
      }
    }

    /**
     The portable routine honours the round count; the routines of multi2_simd.c always run four rounds. The SSE
     ones use eight bytes behind a payload of 184, which they restore.
     */
    method DecryptBuffer(routine: Routine, kind: int, buf: array<byte>, off: nat, n: int) returns (code: int)
      requires Valid() && (n >= 1 ==> off + n <= buf.Length)
      requires routine.WithSimd? && routine.isa != Avx2 ==> SseRoom(buf.Length, off, n)
      modifies buf
      ensures var rounds := if routine.Portable? then round else 4;
        Answered(View().(rounds := rounds).Step(Decrypt(kind, Region(old(buf[..]), off, n))).1,
                 old(buf[..]), off, n, code, buf[..])
    {
      hide BlockCipher.DecryptBytes, Splice, Keyed;
      code := Check(n);
      if code == OK {
        var prm := if kind == 0x02 then wrk[1] else wrk[0];
        assert old(buf[off..off + n]) == old(buf[..])[off..off + n];
        match routine
        case Portable => DecryptInPlace(Reference(prm, round), cbcInit, buf, off, n);
        case WithoutSimd => DecryptWithoutSimd(prm, cbcInit, buf, off, n);
        case WithSimd(Avx2) => DecryptWithAvx2(prm, cbcInit, buf, off, n);
        case WithSimd(isa) => DecryptWithSse(isa, prm, cbcInit, buf, off, n);
      } else {
        NothingWritten(buf[..], off, n);
      }
    }
  }

  /** The call gave the reply's code and put the reply's bytes where the call's bytes were. */
  ghost predicate Answered(r: Reply, before: seq<byte>, off: nat, n: int, code: int, after: seq<byte>)
    requires n >= 1 ==> off + n <= |before|
  {
    && code == r.code
    && |r.data| == |Region(before, off, n)|
    && after == if n < 1 then before else Splice(before, off, r.data)
  }

  lemma NothingWritten(s: seq<byte>, off: nat, n: int)
    requires n >= 1 ==> off + n <= |s|
    ensures n >= 1 ==> Splice(s, off, Region(s, off, n)) == s
  {
  }

  /** Which `decrypt_cbc_ofb` the C++ object is built with. */
  datatype Build = Scalar | AvxBuild | SseBuild(ssse3: bool) | NeonBuild

  /** The C++ object. */
  class LazyMulti2 {
    var round: int
    var systemKey: Option<Key>
    var iv: Option<Block<word>>
    var dataKey: seq<Option<Block<word>>>
    var workKey: seq<Option<Key>>

    ghost predicate Valid()
      reads this
    {
      |dataKey| == 2 && |workKey| == 2
    }

    ghost function View(): Lazy
      reads this
      requires Valid()
    {
      Lazy(round, systemKey, iv, dataKey[0], dataKey[1], workKey[0], workKey[1])
    }

    constructor ()
      ensures Valid() && View() == NEW_LAZY
    {
      round, systemKey, iv := 4, None, None;
      dataKey, workKey := [None, None], [None, None];
    }

    method SetRoundCount(val: int) returns (code: int)
      requires Valid()
      modifies this
      ensures Valid() && View() == old(View()).Step(SetRound(val)).0 && code == OK
    {
      round, code := val, OK;
    }

    method SetSystem(val: array?<byte>) returns (code: int)
      requires Valid() && (val != null ==> val.Length >= 32)
      modifies this
      ensures Valid() && code == if val == null then INVALID_PARAMETER else OK
      ensures View() == if val == null then old(View()) else old(View()).Step(SetSystemKey(KeyAt(val[..]))).0
    {
      hide LoadBe;
      if val == null {
        return INVALID_PARAMETER;
      }
      var s: seq<word> := [];
      for i := 0 to 8
        invariant |s| == i
        invariant forall k :: 0 <= k < i ==> s[k] == LoadBe(val[..], 4 * k)
      {
        s := s + [LoadBe(val[..], 4 * i)];
      }
      assert s == KeyAt(val[..]);
      systemKey, code := Some(s), OK;
    }

    method SetInit(val: array?<byte>) returns (code: int)
      requires Valid() && (val != null ==> val.Length >= 8)
      modifies this
      ensures Valid() && code == if val == null then INVALID_PARAMETER else OK
      ensures View() == if val == null then old(View()) else old(View()).Step(SetInitCbc(LoadBlock(val[..], 0))).0
    {
      hide LoadBlock;
      if val == null {
        return INVALID_PARAMETER;
      }
      iv, code := Some(LoadBlock(val[..], 0)), OK;
    }

    /** A data key that does not change keeps its work key. */
    method SetScramble(val: array?<byte>) returns (code: int)
      requires Valid() && (val != null ==> val.Length >= 16)
      modifies this
      ensures Valid() && code == if val == null then INVALID_PARAMETER else OK
      ensures View() == if val == null then old(View())
                        else old(View()).Step(SetScrambleKey(LoadBlock(val[..], 0), LoadBlock(val[..], 8))).0
    {
      hide LoadBlock;
      if val == null {
        return INVALID_PARAMETER;
      }
      var k := [LoadBlock(val[..], 0), LoadBlock(val[..], 8)];
      for i := 0 to 2
        invariant Valid() && round == old(round) && systemKey == old(systemKey) && iv == old(iv)
        invariant forall j :: 0 <= j < 2 ==>
          && dataKey[j] == (if j < i then Some(k[j]) else old(dataKey[j]))
          && workKey[j] == (if j < i && old(dataKey[j]) != Some(k[j]) then None else old(workKey[j]))
      {
        if dataKey[i] != Some(k[i]) {
          dataKey := dataKey[i := Some(k[i])];
          workKey := workKey[i := None];
        }
      }
      code := OK;
    }

    method Clear() returns (code: int)
      requires Valid()
      modifies this
      ensures Valid() && View() == old(View()).Step(ClearScrambleKey).0 && code == OK
    {
      dataKey, workKey, code := [None, None], [None, None], OK;
    }

    /** The checks of a call, and the work key it needs filled in. */
    method Prepare(kind: int, n: int) returns (code: int)
      requires Valid()
      modifies this
      ensures Valid() && code == old(View()).Status(kind, n)
      ensures View() == if code == OK then old(View()).Filled(kind) else old(View())
    {
      hide Arith.Schedule;
      if n < 1 {
        return INVALID_PARAMETER;
      }
      var i := if kind == 0x02 then 1 else 0;
      if iv == None {
        return UNSET_CBC_INIT;
      }
      if workKey[i] == None {
        if systemKey == None {
          return UNSET_SYSTEM_KEY;
        }
        if dataKey[i] == None {
          return UNSET_SCRAMBLE_KEY;
        }
        workKey := workKey[i := Some(WorkKey(systemKey.value, dataKey[i].value))];
      }
      code := OK;
    }

    method EncryptBuffer(kind: int, buf: array<byte>, off: nat, n: int) returns (code: int)
      requires Valid() && (n >= 1 ==> off + n <= buf.Length)
      modifies this, buf
      ensures Valid() && View() == old(View()).Step(Encrypt(kind, Region(old(buf[..]), off, n))).0
      ensures Answered(old(View()).Step(Encrypt(kind, Region(old(buf[..]), off, n))).1, old(buf[..]), off, n, code,
        buf[..])
    {
      hide BlockCipher.EncryptBytes, Splice, Reference, WorkKey;
      code := Prepare(kind, n);
      if code == OK {
        var key := workKey[if kind == 0x02 then 1 else 0].value;
        EncryptTemplate(key, round, iv.value, buf, off, n);
        assert old(buf[off..off + n]) == old(buf[..])[off..off + n];
      } else {
        NothingWritten(buf[..], off, n);
      }
    }

    method DecryptBuffer(build: Build, kind: int, buf: array<byte>, off: nat, n: int) returns (code: int)
      requires Valid() && (n >= 1 ==> off + n <= buf.Length)
      modifies this, buf
      ensures Valid() && View() == old(View()).Step(Decrypt(kind, Region(old(buf[..]), off, n))).0
      ensures Answered(old(View()).Step(Decrypt(kind, Region(old(buf[..]), off, n))).1, old(buf[..]), off, n, code,
        buf[..])
    {
      hide BlockCipher.DecryptBytes, Splice, Reference, WorkKey;
      code := Prepare(kind, n);
      if code == OK {
        var key := workKey[if kind == 0x02 then 1 else 0].value;
        assert old(buf[off..off + n]) == old(buf[..])[off..off + n];
        match build
        case Scalar => DecryptScalar(key, round, iv.value, buf, off, n);
        case AvxBuild => DecryptAvx2(key, round, iv.value, buf, off, n);
        case SseBuild(ssse3) => DecryptSse(ssse3, key, round, iv.value, buf, off, n);
        case NeonBuild => DecryptNeon(key, round, iv.value, buf, off, n);
      } else {
        NothingWritten(buf[..], off, n);
      }
    }
  }
}
