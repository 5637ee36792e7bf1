/**
 MULTI2's mode of operation: cipher block chaining over whole blocks, output feedback over a short tail.
 The mode is defined over any block cipher; `Keyed` supplies MULTI2.
 */
module Multi2Cbc {
  import opened Bytes
  import opened Multi2

  /** The block of two big-endian words at offset `i`. */
  function LoadBlock(s: seq<byte>, i: nat): Block<word>
    requires i + 8 <= |s|
  {
    Block(LoadBe(s, i), LoadBe(s, i + 4))
  }

  function StoreBlock(b: Block<word>): (r: seq<byte>)
    ensures |r| == 8
  {
    StoreBe(b.left) + StoreBe(b.right)
  }

  lemma LoadStoreBlock(b: Block<word>)
    ensures LoadBlock(StoreBlock(b), 0) == b
  {
    LoadStoreBe(b.left);
    LoadStoreBe(b.right);
  }

  lemma StoreLoadBlock(s: seq<byte>, i: nat)
    requires i + 8 <= |s|
    ensures StoreBlock(LoadBlock(s, i)) == s[i..i + 8]
  {
    StoreLoadBe(s, i);
    StoreLoadBe(s, i + 4);
    assert s[i..i + 8] == s[i..i + 4] + s[i + 4..i + 8];
  }

  /** The block that is chained into block `j` of the ciphertext `ct`. */
  function Chain(st: Block<word>, ct: seq<byte>, j: nat): Block<word>
    requires 8 * j <= |ct|
  {
    if j == 0 then st else LoadBlock(ct, 8 * (j - 1))
  }

  datatype BlockCipher = BlockCipher(
    enc: Block<word> -> Block<word>,
    dec: Block<word> -> Block<word>,
    xor: (word, word) -> word)
  {
    function Enc(b: Block<word>): Block<word> { enc(b) }

    function Dec(b: Block<word>): Block<word> { dec(b) }

    function XorBlock(a: Block<word>, b: Block<word>): Block<word> {
      Block(xor(a.left, b.left), xor(a.right, b.right))
    }

    ghost predicate Lawful() {
      && (forall b :: Dec(Enc(b)) == b)
      && (forall a, x :: XorBlock(XorBlock(a, x), x) == a)
    }

    /** The bytes `pt` encrypted from chaining state `st`. */
    function EncryptBytes(st: Block<word>, pt: seq<byte>): (ct: seq<byte>)
      ensures |ct| == |pt|
      decreases |pt|
    {
      if |pt| >= 8 then
        var b := Enc(XorBlock(LoadBlock(pt, 0), st));
        StoreBlock(b) + EncryptBytes(b, pt[8..])
      else
        XorBytes(pt, StoreBlock(Enc(st)))
    }

    /** The bytes `ct` decrypted from chaining state `st`. */
    function DecryptBytes(st: Block<word>, ct: seq<byte>): (pt: seq<byte>)
      ensures |pt| == |ct|
      decreases |ct|
    {
      if |ct| >= 8 then
        var b := LoadBlock(ct, 0);
        StoreBlock(XorBlock(Dec(b), st)) + DecryptBytes(b, ct[8..])
      else
        XorBytes(ct, StoreBlock(Enc(st)))
    }

    /** Decryption undoes encryption for every length and every chaining state. */
    lemma {:induction false} RoundTrip(st: Block<word>, pt: seq<byte>)
      requires Lawful()
      ensures DecryptBytes(st, EncryptBytes(st, pt)) == pt
      decreases |pt|
    {
      if |pt| >= 8 {
        var p := LoadBlock(pt, 0);
        var b := Enc(XorBlock(p, st));
        var ct := EncryptBytes(st, pt);
        assert LoadBlock(ct, 0) == LoadBlock(StoreBlock(b), 0) == b by {
          LoadStoreBlock(b);
        }
        assert ct[8..] == EncryptBytes(b, pt[8..]);
        RoundTrip(b, pt[8..]);
        assert XorBlock(Dec(b), st) == p;
        StoreLoadBlock(pt, 0);
        assert pt == pt[..8] + pt[8..];
      } else {
        XorBytesTwice(pt, StoreBlock(Enc(st)));
      }
    }

    /** `pt` is the ciphertext `ct` of whole blocks with every block decrypted and unchained, in any order. */
    ghost predicate BlockRun(st: Block<word>, ct: seq<byte>, pt: seq<byte>) {
      && |pt| == |ct|
      && |ct| % 8 == 0
      && forall j :: 0 <= j < |ct| / 8 ==>
           LoadBlock(pt, 8 * j) == XorBlock(Dec(LoadBlock(ct, 8 * j)), Chain(st, ct, j))
    }

    /** Block `j + 1` of a run is block `j` of the rest of the run. */
    lemma RunTailAt(st: Block<word>, run: seq<byte>, pt: seq<byte>, j: nat)
      requires |run| == |pt| && |run| % 8 == 0 && j + 1 < |run| / 8
      requires LoadBlock(pt, 8 * (j + 1)) == XorBlock(Dec(LoadBlock(run, 8 * (j + 1))), Chain(st, run, j + 1))
      ensures LoadBlock(pt[8..], 8 * j)
           == XorBlock(Dec(LoadBlock(run[8..], 8 * j)), Chain(LoadBlock(run, 0), run[8..], j))
    {
      hide LoadBlock, XorBlock, Dec;
      LoadBlockSuffix(pt, 8, 8 * j);
      LoadBlockSuffix(run, 8, 8 * j);
      if j > 0 {
        LoadBlockSuffix(run, 8, 8 * (j - 1));
      }
    }

    lemma RunTail(st: Block<word>, run: seq<byte>, pt: seq<byte>)
      requires BlockRun(st, run, pt) && |run| > 0
      ensures pt[..8] == StoreBlock(XorBlock(Dec(LoadBlock(run, 0)), st))
      ensures BlockRun(LoadBlock(run, 0), run[8..], pt[8..])
    {
      hide LoadBlock, StoreBlock, XorBlock, Dec;
      assert LoadBlock(pt, 8 * 0) == XorBlock(Dec(LoadBlock(run, 8 * 0)), Chain(st, run, 0));
      StoreLoadBlock(pt, 0);
      hide Chain;
      forall j | 0 <= j < |run[8..]| / 8
        ensures LoadBlock(pt[8..], 8 * j)
             == XorBlock(Dec(LoadBlock(run[8..], 8 * j)), Chain(LoadBlock(run, 0), run[8..], j))
      {
        assert LoadBlock(pt, 8 * (j + 1)) == XorBlock(Dec(LoadBlock(run, 8 * (j + 1))), Chain(st, run, j + 1));
        RunTailAt(st, run, pt, j);
      }
    }

    /** A run of whole blocks, done in any order, is the front of the sequential decryption. */
    lemma {:induction false} RunThenRest(st: Block<word>, run: seq<byte>, pt: seq<byte>, rest: seq<byte>)
      requires BlockRun(st, run, pt)
      ensures DecryptBytes(st, run + rest) == pt + DecryptBytes(Chain(st, run, |run| / 8), rest)
      decreases |run|
    {
      if |run| == 0 {
        assert run + rest == rest;
      } else {
        hide BlockRun, StoreBlock, XorBlock, LoadBlock;
        RunLength(st, run, pt);
        var ct, b := run + rest, LoadBlock(run, 0);
        SameLoad(run, ct[..|run|], 0);
        LoadBlockSlice(ct, 0, |run|, 0);
        RunTail(st, run, pt);
        assert ct[8..] == run[8..] + rest;
        RunThenRest(b, run[8..], pt[8..], rest);
        ChainSuffix(st, run);
        var x := StoreBlock(XorBlock(Dec(b), st));
        var d := DecryptBytes(Chain(st, run, |run| / 8), rest);
        assert x + (pt[8..] + d) == (x + pt[8..]) + d;
        assert x + pt[8..] == pt;
      }
    }

    lemma ChainSuffix(st: Block<word>, run: seq<byte>)
      requires |run| > 0 && |run| % 8 == 0
      ensures Chain(LoadBlock(run, 0), run[8..], |run[8..]| / 8) == Chain(st, run, |run| / 8)
    {
      hide LoadBlock;
      if |run| > 8 {
        LoadBlockSuffix(run, 8, |run| - 16);
      }
    }

    lemma RunLength(st: Block<word>, run: seq<byte>, pt: seq<byte>)
      requires BlockRun(st, run, pt)
      ensures |pt| == |run| && |run| % 8 == 0
    {
    }
  }

  lemma LoadBlockSuffix(s: seq<byte>, k: nat, i: nat)
    requires k + i + 8 <= |s|
    ensures LoadBlock(s[k..], i) == LoadBlock(s, k + i)
  {
  }

  lemma LoadBlockSlice(s: seq<byte>, lo: nat, hi: nat, i: nat)
    requires lo + i + 8 <= hi <= |s|
    ensures LoadBlock(s[lo..hi], i) == LoadBlock(s, lo + i)
  {
  }

  /** MULTI2 under a work key, for a number of rounds. */
  function Keyed(a: Arith<word>, w: Key, rounds: int): BlockCipher {
    BlockCipher((b: Block<word>) => a.Encrypt(b, w, rounds), (b: Block<word>) => a.Decrypt(b, w, rounds), a.xor)
  }

  lemma KeyedLawful(a: Arith<word>, w: Key, rounds: int)
    requires a.Lawful()
    ensures Keyed(a, w, rounds).Lawful()
  {
    hide Arith.Encrypt, Arith.Decrypt;
    var k := Keyed(a, w, rounds);
    forall b: Block<word>
      ensures k.Dec(k.Enc(b)) == b
    {
      a.DecryptEncrypt(b, w, rounds);
    }
    forall b: Block<word>, x: Block<word>
      ensures k.XorBlock(k.XorBlock(b, x), x) == b
    {
      assert a.xor(a.xor(b.left, x.left), x.left) == b.left;
      assert a.xor(a.xor(b.right, x.right), x.right) == b.right;
    }
  }

  /** Overwrites part of a buffer. */
  method WriteBytes(buf: array<byte>, off: nat, data: seq<byte>)
    requires off + |data| <= buf.Length
    modifies buf
    ensures buf[..] == Splice(old(buf[..]), off, data)
  {
    for i := 0 to |data|
      invariant forall k :: 0 <= k < buf.Length ==>
        buf[k] == if off <= k < off + i then data[k - off] else old(buf[k])
    {
      buf[off + i] := data[i];
    }
  }

  lemma SameLoad(s: seq<byte>, t: seq<byte>, i: nat)
    requires i + 8 <= |s| == |t|
    requires forall k :: i <= k < i + 8 ==> s[k] == t[k]
    ensures LoadBlock(s, i) == LoadBlock(t, i)
  {
  }

  /**
   In-place work on the `n` bytes of `before` at `off` has reached offset `p`: the bytes behind `p` are final,
   the chaining state is `st`, and nothing else has changed. `f` is the whole-buffer function being computed.
   */
  ghost predicate Progress(f: (Block<word>, seq<byte>) -> seq<byte>, iv: Block<word>, before: seq<byte>, cur: seq<byte>,
                           off: nat, n: nat, p: nat, st: Block<word>)
  {
    && off <= p <= off + n <= |before| == |cur|
    && (forall k :: 0 <= k < off || p <= k < |cur| ==> cur[k] == before[k])
    && cur[off..p] + f(st, before[p..off + n]) == f(iv, before[off..off + n])
  }

  lemma ProgressStart(f: (Block<word>, seq<byte>) -> seq<byte>, iv: Block<word>, before: seq<byte>, off: nat, n: nat)
    requires off + n <= |before|
    ensures Progress(f, iv, before, before, off, n, off, iv)
  {
    assert before[off..off] + f(iv, before[off..off + n]) == f(iv, before[off..off + n]);
  }

  /** Replacing the next `|x|` bytes by what `f` makes of them moves the work on. */
  lemma ProgressStep(f: (Block<word>, seq<byte>) -> seq<byte>, iv: Block<word>, before: seq<byte>, cur: seq<byte>,
                     off: nat, n: nat, p: nat, st: Block<word>, x: seq<byte>, st': Block<word>)
    requires Progress(f, iv, before, cur, off, n, p, st)
    requires p + |x| <= off + n
    requires f(st, before[p..off + n]) == x + f(st', before[p + |x|..off + n])
    ensures Progress(f, iv, before, Splice(cur, p, x), off, n, p + |x|, st')
  {
    var next := Splice(cur, p, x);
    var done, rest := cur[off..p], f(st', before[p + |x|..off + n]);
    assert next[off..p + |x|] == done + x;
    assert (done + x) + rest == done + (x + rest);
  }

  lemma ProgressEnd(f: (Block<word>, seq<byte>) -> seq<byte>, iv: Block<word>, before: seq<byte>, cur: seq<byte>,
                    off: nat, n: nat, p: nat, st: Block<word>, x: seq<byte>)
    requires Progress(f, iv, before, cur, off, n, p, st)
    requires f(st, before[p..off + n]) == x && p + |x| == off + n
    requires |f(iv, before[off..off + n])| == n
    ensures Splice(cur, p, x) == Splice(before, off, f(iv, before[off..off + n]))
  {
    var next := Splice(cur, p, x);
    assert next[off..off + n] == cur[off..p] + x;
    var goal := Splice(before, off, f(iv, before[off..off + n]));
    forall k | 0 <= k < |next|
      ensures next[k] == goal[k]
    {
      if off <= k < off + n {
        assert next[k] == next[off..off + n][k - off];
      }
    }
  }

  /** What is still to do is what the buffer still holds. */
  lemma ProgressSame(f: (Block<word>, seq<byte>) -> seq<byte>, iv: Block<word>, before: seq<byte>, cur: seq<byte>,
                     off: nat, n: nat, p: nat, st: Block<word>, q: nat)
    requires Progress(f, iv, before, cur, off, n, p, st)
    requires p <= q <= |before|
    ensures off + n <= |cur| == |before| && cur[p..q] == before[p..q]
  {
  }

  lemma ProgressBounds(f: (Block<word>, seq<byte>) -> seq<byte>, iv: Block<word>, before: seq<byte>, cur: seq<byte>,
                       off: nat, n: nat, p: nat, st: Block<word>)
    requires Progress(f, iv, before, cur, off, n, p, st)
    ensures off <= p <= off + n <= |before| == |cur|
  {
  }

  function Encryptor(c: BlockCipher): (Block<word>, seq<byte>) -> seq<byte> {
    (st: Block<word>, s: seq<byte>) => c.EncryptBytes(st, s)
  }

  function Decryptor(c: BlockCipher): (Block<word>, seq<byte>) -> seq<byte> {
    (st: Block<word>, s: seq<byte>) => c.DecryptBytes(st, s)
  }

  // ---- Ciphers that agree pointwise ----

  ghost predicate SameCiphers(c: BlockCipher, c': BlockCipher) {
    && (forall b :: c.Enc(b) == c'.Enc(b) && c.Dec(b) == c'.Dec(b))
    && (forall a, b :: c.XorBlock(a, b) == c'.XorBlock(a, b))
  }

  lemma SameRun(c: BlockCipher, c': BlockCipher, st: Block<word>, ct: seq<byte>, pt: seq<byte>)
    requires SameCiphers(c, c') && c.BlockRun(st, ct, pt)
    ensures c'.BlockRun(st, ct, pt)
  {
  }

  lemma SameAt(c: BlockCipher, c': BlockCipher, a: Block<word>, b: Block<word>)
    requires SameCiphers(c, c')
    ensures c.XorBlock(a, b) == c'.XorBlock(a, b)
    ensures c.Enc(c.XorBlock(a, b)) == c'.Enc(c'.XorBlock(a, b)) && c.Enc(a) == c'.Enc(a)
  {
    hide BlockCipher.XorBlock, BlockCipher.Enc;
  }

  // ---- Encryption in place ----

  /** The block loop of encryption, computed with `c` and specified by a cipher `k` that agrees with it. */
  method EncryptBlocks(c: BlockCipher, ghost k: BlockCipher, iv: Block<word>, buf: array<byte>, off: nat, n: nat)
    returns (dst: Block<word>, p: nat, size: nat)
    requires SameCiphers(c, k)
    requires off + n <= buf.Length
    modifies buf
    ensures p + size == off + n && size < 8
    ensures Progress(Encryptor(k), iv, old(buf[..]), buf[..], off, n, p, dst)
  {
    hide LoadBlock, StoreBlock, BlockCipher.XorBlock, BlockCipher.Enc, Splice, Progress, SameCiphers;
    ghost var before := buf[..];
    dst, p, size := iv, off, n;
    ProgressStart(Encryptor(k), iv, before, off, n);
    while size >= 8
      invariant off <= p <= p + size == off + n
      invariant Progress(Encryptor(k), iv, before, buf[..], off, n, p, dst)
    {
      ProgressSame(Encryptor(k), iv, before, buf[..], off, n, p, dst, p + 8);
      var src := LoadBlock(buf[p..p + 8], 0);
      ghost var rest := before[p..off + n];
      assert rest[..8] == before[p..p + 8] && rest[8..] == before[p + 8..off + n];
      LoadBlockSlice(rest, 0, 8, 0);
      ghost var st := dst;
      dst := c.Enc(c.XorBlock(src, dst));
      SameAt(c, k, src, st);
      ProgressStep(Encryptor(k), iv, before, buf[..], off, n, p, st, StoreBlock(dst), dst);
      WriteBytes(buf, p, StoreBlock(dst));
      p, size := p + 8, size - 8;
    }
  }

  /** The in-place encryption of the portable form: block loop, then the tail under the encrypted chaining state. */
  method EncryptInPlace(c: BlockCipher, iv: Block<word>, buf: array<byte>, off: nat, n: nat)
    requires off + n <= buf.Length
    modifies buf
    ensures buf[..] == Splice(old(buf[..]), off, c.EncryptBytes(iv, old(buf[off..off + n])))
  {
    hide StoreBlock, Splice, XorBytes, Progress;
    ghost var before := buf[..];
    var dst, p, size := EncryptBlocks(c, c, iv, buf, off, n);
    ProgressBounds(Encryptor(c), iv, before, buf[..], off, n, p, dst);
    ProgressSame(Encryptor(c), iv, before, buf[..], off, n, p, dst, p + size);
    var tail := XorBytes(buf[p..p + size], StoreBlock(c.Enc(dst)));
    ProgressEnd(Encryptor(c), iv, before, buf[..], off, n, p, dst, tail);
    WriteBytes(buf, p, tail);
  }

  // ---- Decryption in place ----

  /** A decrypted run of whole blocks moves in-place decryption on, however the run was computed. */
  lemma DecryptRun(c: BlockCipher, iv: Block<word>, before: seq<byte>, cur: seq<byte>,
                   off: nat, n: nat, p: nat, st: Block<word>, m: nat, x: seq<byte>)
    requires Progress(Decryptor(c), iv, before, cur, off, n, p, st)
    requires p + m <= off + n && m % 8 == 0
    requires p + m <= |cur| && c.BlockRun(st, cur[p..p + m], x)
    ensures |x| == m
    ensures Progress(Decryptor(c), iv, before, Splice(cur, p, x), off, n, p + m, Chain(st, cur[p..p + m], m / 8))
  {
    hide Progress, BlockCipher.BlockRun, Splice, LoadBlock, BlockCipher.XorBlock, StoreBlock, XorBytes;
    assert off + n <= |before| by {
      ProgressBounds(Decryptor(c), iv, before, cur, off, n, p, st);
    }
    ProgressSame(Decryptor(c), iv, before, cur, off, n, p, st, p + m);
    var run, rest := cur[p..p + m], before[p + m..off + n];
    c.RunLength(st, run, x);
    c.RunThenRest(st, run, x, rest);
    assert run == before[p..p + m];
    assert before[p..p + m] + before[p + m..off + n] == before[p..off + n];
    ProgressStep(Decryptor(c), iv, before, cur, off, n, p, st, x, Chain(st, run, m / 8));
  }

  /** One block decrypted the scalar way is a run of one. */
  lemma OneBlockRun(c: BlockCipher, st: Block<word>, run: seq<byte>)
    requires |run| == 8
    ensures c.BlockRun(st, run, StoreBlock(c.XorBlock(c.Dec(LoadBlock(run, 0)), st)))
    ensures Chain(st, run, 1) == LoadBlock(run, 0)
  {
    LoadStoreBlock(c.XorBlock(c.Dec(LoadBlock(run, 0)), st));
  }

  /** The scalar block loop that every decryption form ends with. */
  method DecryptBlocks(c: BlockCipher, ghost k: BlockCipher, ghost iv: Block<word>, ghost before: seq<byte>,
                       buf: array<byte>, ghost off: nat, ghost n: nat, start: nat, size0: nat, st: Block<word>)
    returns (cbc: Block<word>, p: nat, size: nat)
    requires SameCiphers(c, k)
    requires start + size0 == off + n <= |before| == buf.Length
    requires Progress(Decryptor(k), iv, before, buf[..], off, n, start, st)
    modifies buf
    ensures p + size == off + n && size == size0 % 8
    ensures Progress(Decryptor(k), iv, before, buf[..], off, n, p, cbc)
  {
    hide LoadBlock, StoreBlock, BlockCipher.XorBlock, BlockCipher.BlockRun, Splice, Progress, SameCiphers;
    cbc, p, size := st, start, size0;
    while size >= 8
      invariant p <= p + size == off + n
      invariant size % 8 == size0 % 8
      invariant Progress(Decryptor(k), iv, before, buf[..], off, n, p, cbc)
    {
      ProgressSame(Decryptor(k), iv, before, buf[..], off, n, p, cbc, p + 8);
      var src := LoadBlock(buf[p..p + 8], 0);
      var dst := c.XorBlock(c.Dec(src), cbc);
      OneBlockRun(c, cbc, buf[p..p + 8]);
      SameRun(c, k, cbc, buf[p..p + 8], StoreBlock(dst));
      DecryptRun(k, iv, before, buf[..], off, n, p, cbc, 8, StoreBlock(dst));
      WriteBytes(buf, p, StoreBlock(dst));
      cbc, p, size := src, p + 8, size - 8;
    }
  }

  /** The in-place decryption of the portable form: block loop, then the tail under the encrypted chaining state. */
  method DecryptInPlace(c: BlockCipher, iv: Block<word>, buf: array<byte>, off: nat, n: nat)
    requires off + n <= buf.Length
    modifies buf
    ensures buf[..] == Splice(old(buf[..]), off, c.DecryptBytes(iv, old(buf[off..off + n])))
  {
    hide StoreBlock, Splice, XorBytes, Progress;
    ghost var before := buf[..];
    ProgressStart(Decryptor(c), iv, buf[..], off, n);
    var cbc, p, size := DecryptBlocks(c, c, iv, before, buf, off, n, off, n, iv);
    ProgressSame(Decryptor(c), iv, before, buf[..], off, n, p, cbc, p + size);
    var tail := XorBytes(buf[p..p + size], StoreBlock(c.Enc(cbc)));
    ProgressEnd(Decryptor(c), iv, before, buf[..], off, n, p, cbc, tail);
    WriteBytes(buf, p, tail);
  }
}
