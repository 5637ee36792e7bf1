/** In-place decryption with the vector forms: one vector block, and the three instruction-set dispatches. */
module Multi2Dispatch {
  import opened Bytes
  import opened Multi2
  import opened Multi2Arith
  import opened Multi2Cbc
  import opened Multi2Vector
  import opened Multi2Forms

  /** The cipher all forms are compared with: the portable arithmetic. */
  function Reference(w: Key, rounds: int): BlockCipher { Keyed(Words(PLAIN), w, rounds) }

  lemma SameAsReference(l: Shortcuts, w: Key, rounds: int)
    requires SameShortcuts(l, PLAIN)
    ensures SameCiphers(Keyed(Words(l), w, rounds), Reference(w, rounds))
  {
    hide Arith.Encrypt, Arith.Decrypt, Xor, Mix2, Mix3, Mix4;
    forall b: Block<word>
      ensures Words(l).Encrypt(b, w, rounds) == Words(PLAIN).Encrypt(b, w, rounds)
      ensures Words(l).Decrypt(b, w, rounds) == Words(PLAIN).Decrypt(b, w, rounds)
    {
      SameForms(l, PLAIN, b, w, rounds);
    }
  }

  lemma SpliceInside(s: seq<byte>, p: nat, run: seq<byte>, o: nat, x: seq<byte>)
    requires p + |run| <= |s| && o + |x| <= |run|
    ensures Splice(Splice(s, p, run), p + o, x) == Splice(s, p, Splice(run, o, x))
  {
    hide Splice;
  }

  /** `decrypt_block`: loads a run, decrypts it in lanes and writes it back, store by store. */
  method DecryptBlock(f: Form, l: Shortcuts, w: Key, rounds: int, buf: array<byte>, p: nat, st: Block<word>)
    returns (st': Block<word>, ghost out: seq<byte>)
    requires SameShortcuts(l, PLAIN)
    requires p + 8 * Blocks(f) <= buf.Length
    modifies buf
    ensures Reference(w, rounds).BlockRun(st, old(buf[p..p + 8 * Blocks(f)]), out)
    ensures |out| == 8 * Blocks(f) && buf[..] == Splice(old(buf[..]), p, out)
    ensures st' == LoadBlock(old(buf[p..p + 8 * Blocks(f)]), 8 * (Blocks(f) - 1))
  {
    hide LoadBlock, Load, Widen, Words, Arith.Decrypt, Stores, Splice, Post, BlockCipher.BlockRun, Decrypted;
    ghost var before := buf[..];
    var run := buf[p..p + 8 * Blocks(f)];
    var fine := Words(l);
    var c := Load(f, run);
    var d := Widen(fine).Decrypt(c, w, rounds);
    VectorDecrypt(fine, c, w, rounds, Lanes(f));
    var x := Post(f, fine.xor, d, c, st);
    var ws := Stores(f, x);
    assert Splice(before, p, run) == before;
    for i := 0 to |ws|
      invariant buf[..] == Splice(before, p, Apply(run, ws[..i]))
    {
      assert ws[..i + 1][..i] == ws[..i];
      SpliceInside(before, p, Apply(run, ws[..i]), ws[i].off, ws[i].data);
      WriteBytes(buf, p + ws[i].off, ws[i].data);
    }
    assert ws[..|ws|] == ws;
    st' := Lane(c, Lanes(f) - 1);
    out := Decrypted(f, fine, w, rounds, st, run);
    assert out == Apply(run, ws) by { DecryptedIs(f, fine, w, rounds, st, run); }
    FormRun(f, fine, w, rounds, st, run);
    SameAsReference(l, w, rounds);
    SameRun(Keyed(fine, w, rounds), Reference(w, rounds), st, run, out);
  }

  lemma DecryptedIs(f: Form, fine: Arith<word>, w: Key, rounds: int, st: Block<word>, run: seq<byte>)
    requires |run| == 8 * Blocks(f)
    ensures var c := Load(f, run);
      var d := Widen(fine).Decrypt(c, w, rounds);
      && |d.left| == |d.right| == Lanes(f)
      && Decrypted(f, fine, w, rounds, st, run) == Apply(run, Stores(f, Post(f, fine.xor, d, c, st)))
  {
    hide Load, Widen, Arith.Decrypt, Stores, Apply, Post;
    VectorDecrypt(fine, Load(f, run), w, rounds, Lanes(f));
  }

  /** One vector block moves the in-place decryption on. */
  method Advance(f: Form, l: Shortcuts, w: Key, rounds: int, ghost iv: Block<word>, ghost before: seq<byte>,
                 buf: array<byte>, ghost off: nat, ghost n: nat, p: nat, size: nat, st: Block<word>)
    returns (st': Block<word>, p': nat, size': nat)
    requires SameShortcuts(l, PLAIN)
    requires 8 * Blocks(f) <= size && p + size == off + n <= |before| == buf.Length
    requires Progress(Decryptor(Reference(w, rounds)), iv, before, buf[..], off, n, p, st)
    modifies buf
    ensures size' == size - 8 * Blocks(f) && p' + size' == off + n
    ensures Progress(Decryptor(Reference(w, rounds)), iv, before, buf[..], off, n, p', st')
  {
    hide LoadBlock, Splice, BlockCipher.BlockRun, Reference, SameShortcuts, Progress;
    ghost var k := Reference(w, rounds);
    ghost var cur := buf[..];
    ghost var m := 8 * Blocks(f);
    ProgressSame(Decryptor(k), iv, before, cur, off, n, p, st, p + m);
    ghost var out;
    st', out := DecryptBlock(f, l, w, rounds, buf, p, st);
    assert cur[p..p + m] == old(buf[p..p + m]);
    DecryptRun(k, iv, before, cur, off, n, p, st, m, out);
    p', size' := p + 8 * Blocks(f), size - 8 * Blocks(f);
  }

  lemma XorByte0(w: word, k: word)
    ensures Byte0(Xor(w, k)) == Xor8(Byte0(w), Byte0(k))
  {
  }

  lemma XorByte1(w: word, k: word)
    ensures Byte1(Xor(w, k)) == Xor8(Byte1(w), Byte1(k))
  {
  }

  lemma XorByte2(w: word, k: word)
    ensures Byte2(Xor(w, k)) == Xor8(Byte2(w), Byte2(k))
  {
  }

  lemma XorByte3(w: word, k: word)
    ensures Byte3(Xor(w, k)) == Xor8(Byte3(w), Byte3(k))
  {
  }

  lemma StoreXor(w: word, k: word)
    ensures StoreBe(Xor(w, k)) == XorBytes(StoreBe(w), StoreBe(k))
  {
    hide Byte0, Byte1, Byte2, Byte3, Xor, Xor8;
    XorByte0(w, k);
    XorByte1(w, k);
    XorByte2(w, k);
    XorByte3(w, k);
  }

  lemma XorBytesConcat(a: seq<byte>, b: seq<byte>, c: seq<byte>, d: seq<byte>)
    requires |a| == |c| && |b| == |d|
    ensures XorBytes(a + b, c + d) == XorBytes(a, c) + XorBytes(b, d)
  {
    hide Xor8;
  }

  /** A padded block combined as words is the block combined byte by byte. */
  lemma PaddedBlock(t: seq<byte>, s: Block<word>)
    requires |t| == 8
    ensures StoreBlock(Block(Xor(LoadBe(t, 0), s.left), Xor(LoadBe(t, 4), s.right))) == XorBytes(t, StoreBlock(s))
  {
    hide StoreBe, LoadBe, Xor, XorBytes;
    StoreXor(LoadBe(t, 0), s.left);
    StoreXor(LoadBe(t, 4), s.right);
    StoreLoadBe(t, 0);
    StoreLoadBe(t, 4);
    XorBytesConcat(t[0..4], t[4..8], StoreBe(s.left), StoreBe(s.right));
    assert t == t[0..4] + t[4..8];
  }

  /** The tail of the template form: padded with zeros to a block, combined, cut again. */
  method TemplateTail(w: Key, rounds: int, ghost iv: Block<word>, ghost before: seq<byte>, buf: array<byte>,
                      ghost off: nat, ghost n: nat, p: nat, size: nat, cbc: Block<word>)
    requires SameShortcuts(TEMPLATE, PLAIN)
    requires size < 8 && p + size == off + n <= |before| == buf.Length
    requires Progress(Decryptor(Reference(w, rounds)), iv, before, buf[..], off, n, p, cbc)
    modifies buf
    ensures buf[..] == Splice(before, off, Reference(w, rounds).DecryptBytes(iv, before[off..off + n]))
  {
    hide StoreBlock, LoadBe, Xor, Splice, Progress, SameShortcuts, Arith.Encrypt, Arith.Decrypt;
    ghost var k := Reference(w, rounds);
    ProgressSame(Decryptor(k), iv, before, buf[..], off, n, p, cbc, p + size);
    var s := Words(TEMPLATE).Encrypt(cbc, w, rounds);
    SameForms(TEMPLATE, PLAIN, cbc, w, rounds);
    var cut := buf[p..p + size];
    var t := cut + seq(8 - size, _ => 0);
    PaddedBlock(t, s);
    var x := StoreBlock(Block(Xor(LoadBe(t, 0), s.left), Xor(LoadBe(t, 4), s.right)))[..size];
    assert x == XorBytes(cut, StoreBlock(s));
    ProgressEnd(Decryptor(k), iv, before, buf[..], off, n, p, cbc, x);
    WriteBytes(buf, p, x);
  }

  /** The end of every dispatch: single blocks, then the padded tail. */
  method TemplateRest(w: Key, rounds: int, ghost iv: Block<word>, ghost before: seq<byte>, buf: array<byte>,
                      ghost off: nat, ghost n: nat, start: nat, size0: nat, st: Block<word>)
    requires SameShortcuts(TEMPLATE, PLAIN)
    requires start + size0 == off + n <= |before| == buf.Length
    requires Progress(Decryptor(Reference(w, rounds)), iv, before, buf[..], off, n, start, st)
    modifies buf
    ensures buf[..] == Splice(before, off, Reference(w, rounds).DecryptBytes(iv, before[off..off + n]))
  {
    hide Words, Splice, Progress, SameCiphers, SameShortcuts, Arith.Encrypt, Arith.Decrypt;
    SameAsReference(TEMPLATE, w, rounds);
    var cbc, p, size :=
      DecryptBlocks(Keyed(Words(TEMPLATE), w, rounds), Reference(w, rounds), iv, before, buf, off, n, start, size0, st);
    TemplateTail(w, rounds, iv, before, buf, off, n, p, size, cbc);
  }

  /** `decrypt_cbc_ofb` built without vector forms. */
  method DecryptScalar(w: Key, rounds: int, iv: Block<word>, buf: array<byte>, off: nat, n: nat)
    requires off + n <= buf.Length
    modifies buf
    ensures buf[..] == Splice(old(buf[..]), off, Reference(w, rounds).DecryptBytes(iv, old(buf[off..off + n])))
  {
    hide Reference, Splice, Progress, SameShortcuts;
    ghost var before := buf[..];
    AllFormsAgree();
    ProgressStart(Decryptor(Reference(w, rounds)), iv, before, off, n);
    TemplateRest(w, rounds, iv, before, buf, off, n, off, n, iv);
  }

  /** `decrypt_cbc_ofb` built for AVX2: 184 bytes are 15 and 8 blocks; other lengths take each size at most once. */
  method DecryptAvx2(w: Key, rounds: int, iv: Block<word>, buf: array<byte>, off: nat, n: nat)
    requires off + n <= buf.Length
    modifies buf
    ensures buf[..] == Splice(old(buf[..]), off, Reference(w, rounds).DecryptBytes(iv, old(buf[off..off + n])))
  {
    hide Reference, Splice, Progress, SameShortcuts;
    ghost var before := buf[..];
    AllFormsAgree();
    ProgressStart(Decryptor(Reference(w, rounds)), iv, before, off, n);
    var st, p, size := iv, off, n;
    if n == 184 {
      st, p, size := Advance(Ymm2, AVX2, w, rounds, iv, before, buf, off, n, p, size, st);
      st, p, size := Advance(Ymm, AVX2, w, rounds, iv, before, buf, off, n, p, size, st);
      Finished(w, rounds, iv, before, buf[..], off, n, p, st);
      return;
    }
    if 120 <= size {
      st, p, size := Advance(Ymm2, AVX2, w, rounds, iv, before, buf, off, n, p, size, st);
    }
    if 64 <= size {
      st, p, size := Advance(Ymm, AVX2, w, rounds, iv, before, buf, off, n, p, size, st);
    }
    if 32 <= size {
      st, p, size := Advance(XmmShuffle, AVX2, w, rounds, iv, before, buf, off, n, p, size, st);
    }
    TemplateRest(w, rounds, iv, before, buf, off, n, p, size, st);
  }

  /** When nothing is left the buffer is final. */
  lemma Finished(w: Key, rounds: int, iv: Block<word>, before: seq<byte>, cur: seq<byte>, off: nat, n: nat, p: nat,
                 st: Block<word>)
    requires Progress(Decryptor(Reference(w, rounds)), iv, before, cur, off, n, p, st) && p == off + n
    ensures off + n <= |before|
    ensures cur == Splice(before, off, Reference(w, rounds).DecryptBytes(iv, before[off..off + n]))
  {
    hide StoreBlock, Reference, Arith.Encrypt, Arith.Decrypt;
    ProgressEnd(Decryptor(Reference(w, rounds)), iv, before, cur, off, n, p, st, []);
    assert Splice(cur, p, []) == cur;
  }

  /** `decrypt_cbc_ofb` built for SSE: four blocks at a time, with or without SSSE3 byte shuffles. */
  method DecryptSse(ssse3: bool, w: Key, rounds: int, iv: Block<word>, buf: array<byte>, off: nat, n: nat)
    requires off + n <= buf.Length
    modifies buf
    ensures buf[..] == Splice(old(buf[..]), off, Reference(w, rounds).DecryptBytes(iv, old(buf[off..off + n])))
  {
    hide Reference, Splice, Progress, SameShortcuts;
    ghost var before := buf[..];
    AllFormsAgree();
    ProgressStart(Decryptor(Reference(w, rounds)), iv, before, off, n);
    var st, p, size := iv, off, n;
    while 32 <= size
      invariant p + size == off + n
      invariant Progress(Decryptor(Reference(w, rounds)), iv, before, buf[..], off, n, p, st)
    {
      if ssse3 {
        st, p, size := Advance(XmmShuffle, AVX2, w, rounds, iv, before, buf, off, n, p, size, st);
      } else {
        st, p, size := Advance(XmmUnpack, SSE2, w, rounds, iv, before, buf, off, n, p, size, st);
      }
    }
    TemplateRest(w, rounds, iv, before, buf, off, n, p, size, st);
  }

  /** `decrypt_cbc_ofb` built for NEON: 184 bytes are 7, 8 and 8 blocks. */
  method DecryptNeon(w: Key, rounds: int, iv: Block<word>, buf: array<byte>, off: nat, n: nat)
    requires off + n <= buf.Length
    modifies buf
    ensures buf[..] == Splice(old(buf[..]), off, Reference(w, rounds).DecryptBytes(iv, old(buf[off..off + n])))
  {
    hide Reference, Splice, Progress, SameShortcuts;
    ghost var before := buf[..];
    AllFormsAgree();
    ProgressStart(Decryptor(Reference(w, rounds)), iv, before, off, n);
    var st, p, size := iv, off, n;
    if n == 184 {
      st, p, size := Advance(Neon7, NEON, w, rounds, iv, before, buf, off, n, p, size, st);
      st, p, size := Advance(Neon8, NEON, w, rounds, iv, before, buf, off, n, p, size, st);
      st, p, size := Advance(Neon8, NEON, w, rounds, iv, before, buf, off, n, p, size, st);
      Finished(w, rounds, iv, before, buf[..], off, n, p, st);
      return;
    }
    while 64 <= size
      invariant p + size == off + n
      invariant Progress(Decryptor(Reference(w, rounds)), iv, before, buf[..], off, n, p, st)
    {
      st, p, size := Advance(Neon8, NEON, w, rounds, iv, before, buf, off, n, p, size, st);
    }
    if 32 <= size {
      st, p, size := Advance(Neon, NEON, w, rounds, iv, before, buf, off, n, p, size, st);
    }
    TemplateRest(w, rounds, iv, before, buf, off, n, p, size, st);
  }

  /** `encrypt_cbc_ofb`: the template form, scalar in every build. */
  method EncryptTemplate(w: Key, rounds: int, iv: Block<word>, buf: array<byte>, off: nat, n: nat)
    requires off + n <= buf.Length
    modifies buf
    ensures buf[..] == Splice(old(buf[..]), off, Reference(w, rounds).EncryptBytes(iv, old(buf[off..off + n])))
  {
    hide StoreBlock, LoadBe, Xor, Splice, Progress, SameShortcuts, SameCiphers, Arith.Encrypt, Arith.Decrypt;
    ghost var before := buf[..];
    ghost var k := Reference(w, rounds);
    AllFormsAgree();
    SameAsReference(TEMPLATE, w, rounds);
    var dst, p, size := EncryptBlocks(Keyed(Words(TEMPLATE), w, rounds), k, iv, buf, off, n);
    ProgressBounds(Encryptor(k), iv, before, buf[..], off, n, p, dst);
    ProgressSame(Encryptor(k), iv, before, buf[..], off, n, p, dst, p + size);
    var s := Words(TEMPLATE).Encrypt(dst, w, rounds);
    SameForms(TEMPLATE, PLAIN, dst, w, rounds);
    var cut := buf[p..p + size];
    var t := cut + seq(8 - size, _ => 0);
    PaddedBlock(t, s);
    var x := StoreBlock(Block(Xor(LoadBe(t, 0), s.left), Xor(LoadBe(t, 4), s.right)))[..size];
    assert x == XorBytes(cut, StoreBlock(s));
    ProgressEnd(Encryptor(k), iv, before, buf[..], off, n, p, dst, x);
    WriteBytes(buf, p, x);
  }

  /** Every way of decrypting restores what either way of encrypting produced. */
  lemma ReferenceRoundTrip(w: Key, rounds: int, iv: Block<word>, pt: seq<byte>)
    ensures Reference(w, rounds).DecryptBytes(iv, Reference(w, rounds).EncryptBytes(iv, pt)) == pt
  {
    hide Words, BlockCipher.DecryptBytes, BlockCipher.EncryptBytes, Arith.Lawful, BlockCipher.Lawful;
    WordsLawful(PLAIN);
    KeyedLawful(Words(PLAIN), w, rounds);
    Reference(w, rounds).RoundTrip(iv, pt);
  }
}
