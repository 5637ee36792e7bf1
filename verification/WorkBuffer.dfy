/** The growing byte queue that holds pending input and output. */
module WorkBuffer {
  import opened Bytes

  const MAX_SIZE := 256 * 1024 * 1024

  /** The largest value of the integer type the capacity is computed in. */
  const INT_MAX := 0x7fff_ffff

  /** The first of `n`, twice `n` and so on that fits. */
  function Doubled(n: nat, size: nat): (r: nat)
    requires n > 0
    ensures r >= size && r >= n
    decreases size - n
  {
    if n >= size then n else Doubled(n + n, size)
  }

  /** The capacity of a buffer that is to grow from `max` to hold `size` bytes. */
  function Capacity(max: nat, size: nat): nat { Doubled(if max < 512 then 512 else max * 2, size) }

  function Power(k: nat): nat { if k == 0 then 1 else 2 * Power(k - 1) }

  lemma {:induction false} DoubledIs(n: nat, size: nat) returns (k: nat)
    requires n > 0
    ensures Doubled(n, size) == n * Power(k) && (k == 0 || n * Power(k - 1) < size)
    decreases size - n
  {
    hide Power;
    k := 0;
    PowerOfNone(n);
    if n < size {
      var j := DoubledIs(n + n, size);
      k := j + 1;
      PowerMore(n, j);
      if j > 0 {
        PowerMore(n, j - 1);
      }
    }
  }

  lemma PowerOfNone(n: nat)
    ensures n * Power(0) == n
  {
  }

  lemma PowerMore(n: nat, k: nat)
    ensures (n + n) * Power(k) == n * Power(k + 1)
  {
    hide Doubled;
    var p := Power(k);
    assert Power(k + 1) == p + p;
    assert n * (p + p) == n * p + n * p;
  }

  /** A buffer starts at 512 bytes and is doubled as often as needed, and no more. */
  lemma CapacityIs(max: nat, size: nat) returns (k: nat)
    ensures var first := if max < 512 then 512 else 2 * max;
      && Capacity(max, size) == first * Power(k) >= size
      && (k == 0 || first * Power(k - 1) < size)
  {
    hide Doubled, Power;
    k := DoubledIs(if max < 512 then 512 else max * 2, size);
  }

  class Buffer {
    var pool: array<byte>
    var head: nat
    var tail: nat

    ghost predicate Valid()
      reads this
    {
      head <= tail <= pool.Length
    }

    ghost function Contents(): (s: seq<byte>)
      reads this, pool
      requires Valid()
      ensures |s| == tail - head
    {
      pool[head..tail]
    }

    constructor ()
      ensures Valid() && Contents() == [] && fresh(pool) && head == 0 && pool.Length == 0
    {
      pool, head, tail := new byte[0], 0, 0;
    }

    /** The capacity chosen for `size`: doubled until it fits. It stays within the integer type. */
    method Grown(max: nat, size: nat) returns (n: nat)
      requires max < size <= MAX_SIZE
      ensures size <= n <= INT_MAX && n == Capacity(max, size)
    {
      n := if max < 512 then 512 else max * 2;
      while n < size
        invariant 0 < n < 2 * MAX_SIZE && Doubled(n, size) == Capacity(max, size)
      {
        n := n + n;
      }
    }

    /** `reserve_work_buffer`: room for `size` bytes; what is held moves to the front of a new pool. */
    method Reserve(size: nat) returns (ok: bool)
      requires Valid()
      modifies this
      ensures Valid() && Contents() == old(Contents()) && ok == (size <= MAX_SIZE)
      ensures ok ==>
        pool.Length == if old(pool.Length) >= size then old(pool.Length) else Capacity(old(pool.Length), size)
      ensures !ok || old(pool.Length) >= size ==> pool == old(pool) && head == old(head) && tail == old(tail)
      ensures (pool == old(pool) && head == old(head)) || (fresh(pool) && head == 0)
    {
      if size > MAX_SIZE {
        return false;
      }
      if pool.Length >= size {
        return true;
      }
      var n := Grown(pool.Length, size);
      var p, from, at := new byte[n], pool, head;
      var m := tail - head;
      ghost var before := Contents();
      for k := 0 to m
        modifies p
        invariant forall j :: 0 <= j < k ==> p[j] == from[at + j]
      {
        p[k] := from[at + k];
      }
      assert p[0..m] == before;
      pool, head, tail := p, 0, m;
      ok := true;
    }

    /** `append_work_buffer`: nothing is lost when there is no room. */
    method Append(data: seq<byte>) returns (ok: bool)
      requires Valid()
      modifies this, pool
      ensures Valid() && Contents() == if ok then old(Contents()) + data else old(Contents())
      ensures old(tail) + |data| <= old(pool.Length) ==> ok && pool == old(pool) && head == old(head)
      ensures (pool == old(pool) && head == old(head)) || (fresh(pool) && head == 0)
      ensures ok && |data| >= 1 && old(tail) + |data| > old(pool.Length) ==>
        pool.Length == Capacity(old(pool.Length), old(tail) + |data|)
      ensures ok
        <==> |data| < 1 || old(tail) + |data| <= (if old(pool.Length) < MAX_SIZE then MAX_SIZE else old(pool.Length))
    {
      if |data| < 1 {
        assert Contents() + data == Contents();
        return true;
      }
      if tail + |data| > pool.Length {
        ok := Reserve(tail + |data|);
        if !ok {
          return;
        }
      }
      CopyIn(data);
      ok := true;
    }

    method CopyIn(data: seq<byte>)
      requires Valid() && tail + |data| <= pool.Length
      modifies `tail, pool
      ensures Valid() && Contents() == old(Contents()) + data && tail == old(tail) + |data|
    {
      var at := tail;
      for k := 0 to |data|
        modifies pool
        invariant pool[at..at + k] == data[..k]
        invariant pool[..at] == old(pool[..at])
      {
        pool[at + k] := data[k];
        assert pool[at..at + k + 1] == pool[at..at + k] + [data[k]];
        assert data[..k + 1] == data[..k] + [data[k]];
      }
      tail := at + |data|;
      assert data[..|data|] == data;
      assert pool[head..tail] == pool[..at][head..] + pool[at..tail];
      assert old(pool[..at])[head..] == old(Contents());
    }

    /** Cuts the queue back to its first bytes. */
    method Truncate(size: nat)
      requires Valid() && size <= tail - head
      modifies `tail
      ensures Valid() && Contents() == old(Contents())[..size]
    {
      tail := head + size;
    }

    /** `reset_work_buffer`. */
    method Reset()
      requires Valid()
      modifies `head, `tail
      ensures Valid() && Contents() == [] && head == 0
    {
      head, tail := 0, 0;
    }

    /** The used bytes are dropped; what is left moves to the front when it is short or far back. */
    method Consume(curr: nat)
      requires Valid() && head <= curr <= tail
      modifies this`head, this`tail, pool
      ensures Valid() && Contents() == old(pool[curr..tail])
    {
      var n := tail - curr;
      ghost var rest := pool[curr..tail];
      if n < 1024 || curr > pool.Length / 2 {
        var p, end := pool, tail;
        for k := 0 to n
          modifies p
          invariant p[..k] == rest[..k]
          invariant p[curr + k..end] == rest[k..]
        {
          assert p[curr + k] == p[curr + k..end][0] == rest[k];
          assert p[curr + k + 1..end] == p[curr + k..end][1..];
          p[k] := p[curr + k];
        }
        head, tail := 0, n;
        assert pool[0..n] == rest;
      } else {
        head := curr;
      }
    }
  }
}
