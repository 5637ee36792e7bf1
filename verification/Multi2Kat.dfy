/**
 The repository's known-answer vector of 17 bytes: two chained blocks and a one-byte tail. It pins down every constant
 of the cipher, the key schedule and the mode.
 */
module Multi2Kat {
  import opened Bytes
  import opened Multi2
  import opened Multi2Arith
  import opened Multi2Cbc
  import opened Multi2Dispatch
  import opened Multi2Keys

  const SYSTEM: Key := [0x00112233, 0x44556677, 0x8899aabb, 0xccddeeff, 0x10213243, 0x54657687, 0x98a9babb, 0xdcdddeef]

  const DATA: Block<word> := Block(0x01234567, 0x89abcdef)

  const IV: Block<word> := Block(0x11223344, 0x55667788)

  const WORK: Key := [0x043e464f, 0xf7b2f790, 0xd2eac680, 0x25583110, 0x744470f2, 0xcd639d99, 0x27031e59, 0xea6083c0]

  const PLAINTEXT: seq<byte> := [0x29, 0x72, 0xbb, 0x04, 0x4d, 0x96, 0xdf, 0x28, 0x71, 0xba, 0x03, 0x4c, 0x95, 0xde,
    0x27, 0x70, 0xb9]

  const CIPHERTEXT: seq<byte> := [0xcc, 0x34, 0x88, 0xc9, 0xb9, 0x54, 0x5c, 0x65, 0x29, 0xa7, 0xbc, 0x5f, 0xc5, 0x37,
    0xea, 0xb2, 0x8e]

  lemma WorkIs()
    ensures WorkKey(SYSTEM, DATA) == WORK
  {
    var a := Words(PLAIN);
    assert a.Pi1(DATA) == Block(0x01234567, 0x88888888);
    assert a.Pi2(Block(0x01234567, 0x88888888), 0x00112233) == Block(0x043e464f, 0x88888888);
    assert a.Pi3(Block(0x043e464f, 0x88888888), 0x44556677, 0x8899aabb) == Block(0x043e464f, 0xf7b2f790);
    assert a.Pi4(Block(0x043e464f, 0xf7b2f790), 0xccddeeff) == Block(0xd2eac680, 0xf7b2f790);
    assert a.Pi1(Block(0xd2eac680, 0xf7b2f790)) == Block(0xd2eac680, 0x25583110);
    assert a.Pi2(Block(0xd2eac680, 0x25583110), 0x10213243) == Block(0x744470f2, 0x25583110);
    assert a.Pi3(Block(0x744470f2, 0x25583110), 0x54657687, 0x98a9babb) == Block(0x744470f2, 0xcd639d99);
    assert a.Pi4(Block(0x744470f2, 0xcd639d99), 0xdcdddeef) == Block(0x27031e59, 0xcd639d99);
  }

  lemma FirstRound1()
    ensures Words(PLAIN).EncryptRound(Block(0x38508840, 0x18f0a8a0), WORK) == Block(0x7e81522c, 0x7a7809d1)
  {
    var a := Words(PLAIN);
    assert a.Pi1(Block(0x38508840, 0x18f0a8a0)) == Block(0x38508840, 0x20a020e0);
    assert a.Pi2(Block(0x38508840, 0x20a020e0), 0x043e464f) == Block(0xbf78e50a, 0x20a020e0);
    assert a.Pi3(Block(0xbf78e50a, 0x20a020e0), 0xf7b2f790, 0xd2eac680) == Block(0xbf78e50a, 0x8ec9ce81);
    assert a.Pi4(Block(0xbf78e50a, 0x8ec9ce81), 0x25583110) == Block(0x3bd118d2, 0x8ec9ce81);
    assert a.Pi1(Block(0x3bd118d2, 0x8ec9ce81)) == Block(0x3bd118d2, 0xb518d653);
    assert a.Pi2(Block(0x3bd118d2, 0xb518d653), 0x744470f2) == Block(0x86bb91fb, 0xb518d653);
    assert a.Pi3(Block(0x86bb91fb, 0xb518d653), 0xcd639d99, 0x27031e59) == Block(0x86bb91fb, 0x7a7809d1);
    assert a.Pi4(Block(0x86bb91fb, 0x7a7809d1), 0xea6083c0) == Block(0x7e81522c, 0x7a7809d1);
  }

  lemma FirstRound2()
    ensures Words(PLAIN).EncryptRound(Block(0x7e81522c, 0x7a7809d1), WORK) == Block(0x82bae855, 0x73856cbe)
  {
    var a := Words(PLAIN);
    assert a.Pi1(Block(0x7e81522c, 0x7a7809d1)) == Block(0x7e81522c, 0x04f95bfd);
    assert a.Pi2(Block(0x7e81522c, 0x04f95bfd), 0x043e464f) == Block(0xdf49dafe, 0x04f95bfd);
    assert a.Pi3(Block(0xdf49dafe, 0x04f95bfd), 0xf7b2f790, 0xd2eac680) == Block(0xdf49dafe, 0x465f11d5);
    assert a.Pi4(Block(0xdf49dafe, 0x465f11d5), 0x25583110) == Block(0xc5dd9485, 0x465f11d5);
    assert a.Pi1(Block(0xc5dd9485, 0x465f11d5)) == Block(0xc5dd9485, 0x83828550);
    assert a.Pi2(Block(0xc5dd9485, 0x83828550), 0x744470f2) == Block(0x57c75a2d, 0x83828550);
    assert a.Pi3(Block(0x57c75a2d, 0x83828550), 0xcd639d99, 0x27031e59) == Block(0x57c75a2d, 0x73856cbe);
    assert a.Pi4(Block(0x57c75a2d, 0x73856cbe), 0xea6083c0) == Block(0x82bae855, 0x73856cbe);
  }

  lemma FirstRound3()
    ensures Words(PLAIN).EncryptRound(Block(0x82bae855, 0x73856cbe), WORK) == Block(0x8e17dd4a, 0xd559dfe3)
  {
    var a := Words(PLAIN);
    assert a.Pi1(Block(0x82bae855, 0x73856cbe)) == Block(0x82bae855, 0xf13f84eb);
    assert a.Pi2(Block(0x82bae855, 0xf13f84eb), 0x043e464f) == Block(0x65559315, 0xf13f84eb);
    assert a.Pi3(Block(0x65559315, 0xf13f84eb), 0xf7b2f790, 0xd2eac680) == Block(0x65559315, 0x4b8b9d1e);
    assert a.Pi4(Block(0x65559315, 0x4b8b9d1e), 0x25583110) == Block(0x512695fd, 0x4b8b9d1e);
    assert a.Pi1(Block(0x512695fd, 0x4b8b9d1e)) == Block(0x512695fd, 0x1aad08e3);
    assert a.Pi2(Block(0x512695fd, 0x1aad08e3), 0x744470f2) == Block(0x30b42f78, 0x1aad08e3);
    assert a.Pi3(Block(0x30b42f78, 0x1aad08e3), 0xcd639d99, 0x27031e59) == Block(0x30b42f78, 0xd559dfe3);
    assert a.Pi4(Block(0x30b42f78, 0xd559dfe3), 0xea6083c0) == Block(0x8e17dd4a, 0xd559dfe3);
  }

  lemma FirstRound4()
    ensures Words(PLAIN).EncryptRound(Block(0x8e17dd4a, 0xd559dfe3), WORK) == Block(0xcc3488c9, 0xb9545c65)
  {
    var a := Words(PLAIN);
    assert a.Pi1(Block(0x8e17dd4a, 0xd559dfe3)) == Block(0x8e17dd4a, 0x5b4e02a9);
    assert a.Pi2(Block(0x8e17dd4a, 0x5b4e02a9), 0x043e464f) == Block(0x7afea9dc, 0x5b4e02a9);
    assert a.Pi3(Block(0x7afea9dc, 0x5b4e02a9), 0xf7b2f790, 0xd2eac680) == Block(0x7afea9dc, 0xde12e51f);
    assert a.Pi4(Block(0x7afea9dc, 0xde12e51f), 0x25583110) == Block(0x6be9c730, 0xde12e51f);
    assert a.Pi1(Block(0x6be9c730, 0xde12e51f)) == Block(0x6be9c730, 0xb5fb222f);
    assert a.Pi2(Block(0x6be9c730, 0xb5fb222f), 0x744470f2) == Block(0xfebce875, 0xb5fb222f);
    assert a.Pi3(Block(0xfebce875, 0xb5fb222f), 0xcd639d99, 0x27031e59) == Block(0xfebce875, 0xb9545c65);
    assert a.Pi4(Block(0xfebce875, 0xb9545c65), 0xea6083c0) == Block(0xcc3488c9, 0xb9545c65);
  }

  lemma First()
    ensures Words(PLAIN).Encrypt(Block(0x38508840, 0x18f0a8a0), WORK, 4) == Block(0xcc3488c9, 0xb9545c65)
  {
    hide Arith.EncryptRound;
    var a := Words(PLAIN);
    FirstRound1();
    FirstRound2();
    FirstRound3();
    FirstRound4();
    assert a.Encrypt(Block(0x38508840, 0x18f0a8a0), WORK, 1) == Block(0x7e81522c, 0x7a7809d1);
    assert a.Encrypt(Block(0x38508840, 0x18f0a8a0), WORK, 2) == Block(0x82bae855, 0x73856cbe);
    assert a.Encrypt(Block(0x38508840, 0x18f0a8a0), WORK, 3) == Block(0x8e17dd4a, 0xd559dfe3);
  }

  lemma SecondRound1()
    ensures Words(PLAIN).EncryptRound(Block(0xbd8e8b85, 0x2c8a7b15), WORK) == Block(0x1ac387a5, 0xe6f3ff89)
  {
    var a := Words(PLAIN);
    assert a.Pi1(Block(0xbd8e8b85, 0x2c8a7b15)) == Block(0xbd8e8b85, 0x9104f090);
    assert a.Pi2(Block(0xbd8e8b85, 0x9104f090), 0x043e464f) == Block(0xfedd66c3, 0x9104f090);
    assert a.Pi3(Block(0xfedd66c3, 0x9104f090), 0xf7b2f790, 0xd2eac680) == Block(0xfedd66c3, 0x540d5d96);
    assert a.Pi4(Block(0xfedd66c3, 0x540d5d96), 0x25583110) == Block(0xa026af83, 0x540d5d96);
    assert a.Pi1(Block(0xa026af83, 0x540d5d96)) == Block(0xa026af83, 0xf42bf215);
    assert a.Pi2(Block(0xa026af83, 0xf42bf215), 0x744470f2) == Block(0x0c6517d4, 0xf42bf215);
    assert a.Pi3(Block(0x0c6517d4, 0xf42bf215), 0xcd639d99, 0x27031e59) == Block(0x0c6517d4, 0xe6f3ff89);
    assert a.Pi4(Block(0x0c6517d4, 0xe6f3ff89), 0xea6083c0) == Block(0x1ac387a5, 0xe6f3ff89);
  }

  lemma SecondRound2()
    ensures Words(PLAIN).EncryptRound(Block(0x1ac387a5, 0xe6f3ff89), WORK) == Block(0xb96e5f3d, 0x45168140)
  {
    var a := Words(PLAIN);
    assert a.Pi1(Block(0x1ac387a5, 0xe6f3ff89)) == Block(0x1ac387a5, 0xfc30782c);
    assert a.Pi2(Block(0x1ac387a5, 0xfc30782c), 0x043e464f) == Block(0x0f4c0bd5, 0xfc30782c);
    assert a.Pi3(Block(0x0f4c0bd5, 0xfc30782c), 0xf7b2f790, 0xd2eac680) == Block(0x0f4c0bd5, 0xe2b76f27);
    assert a.Pi4(Block(0x0f4c0bd5, 0xe2b76f27), 0x25583110) == Block(0x27022ac1, 0xe2b76f27);
    assert a.Pi1(Block(0x27022ac1, 0xe2b76f27)) == Block(0x27022ac1, 0xc5b545e6);
    assert a.Pi2(Block(0x27022ac1, 0xc5b545e6), 0x744470f2) == Block(0x543d463c, 0xc5b545e6);
    assert a.Pi3(Block(0x543d463c, 0xc5b545e6), 0xcd639d99, 0x27031e59) == Block(0x543d463c, 0x45168140);
    assert a.Pi4(Block(0x543d463c, 0x45168140), 0xea6083c0) == Block(0xb96e5f3d, 0x45168140);
  }

  lemma SecondRound3()
    ensures Words(PLAIN).EncryptRound(Block(0xb96e5f3d, 0x45168140), WORK) == Block(0x507e2ca9, 0x769a3208)
  {
    var a := Words(PLAIN);
    assert a.Pi1(Block(0xb96e5f3d, 0x45168140)) == Block(0xb96e5f3d, 0xfc78de7d);
    assert a.Pi2(Block(0xb96e5f3d, 0xfc78de7d), 0x043e464f) == Block(0x991dd76e, 0xfc78de7d);
    assert a.Pi3(Block(0x991dd76e, 0xfc78de7d), 0xf7b2f790, 0xd2eac680) == Block(0x991dd76e, 0xdecbb29a);
    assert a.Pi4(Block(0x991dd76e, 0xdecbb29a), 0x25583110) == Block(0x8daea53d, 0xdecbb29a);
    assert a.Pi1(Block(0x8daea53d, 0xdecbb29a)) == Block(0x8daea53d, 0x536517a7);
    assert a.Pi2(Block(0x8daea53d, 0x536517a7), 0x744470f2) == Block(0xb49ba043, 0x536517a7);
    assert a.Pi3(Block(0xb49ba043, 0x536517a7), 0xcd639d99, 0x27031e59) == Block(0xb49ba043, 0x769a3208);
    assert a.Pi4(Block(0xb49ba043, 0x769a3208), 0xea6083c0) == Block(0x507e2ca9, 0x769a3208);
  }

  lemma SecondRound4()
    ensures Words(PLAIN).EncryptRound(Block(0x507e2ca9, 0x769a3208), WORK) == Block(0x29a7bc5f, 0xc537eab2)
  {
    var a := Words(PLAIN);
    assert a.Pi1(Block(0x507e2ca9, 0x769a3208)) == Block(0x507e2ca9, 0x26e41ea1);
    assert a.Pi2(Block(0x507e2ca9, 0x26e41ea1), 0x043e464f) == Block(0xc76bee9e, 0x26e41ea1);
    assert a.Pi3(Block(0xc76bee9e, 0x26e41ea1), 0xf7b2f790, 0xd2eac680) == Block(0xc76bee9e, 0x8cd815b1);
    assert a.Pi4(Block(0xc76bee9e, 0x8cd815b1), 0x25583110) == Block(0xbd9a8f56, 0x8cd815b1);
    assert a.Pi1(Block(0xbd9a8f56, 0x8cd815b1)) == Block(0xbd9a8f56, 0x31429ae7);
    assert a.Pi2(Block(0xbd9a8f56, 0x31429ae7), 0x744470f2) == Block(0x445d9462, 0x31429ae7);
    assert a.Pi3(Block(0x445d9462, 0x31429ae7), 0xcd639d99, 0x27031e59) == Block(0x445d9462, 0xc537eab2);
    assert a.Pi4(Block(0x445d9462, 0xc537eab2), 0xea6083c0) == Block(0x29a7bc5f, 0xc537eab2);
  }

  lemma Second()
    ensures Words(PLAIN).Encrypt(Block(0xbd8e8b85, 0x2c8a7b15), WORK, 4) == Block(0x29a7bc5f, 0xc537eab2)
  {
    hide Arith.EncryptRound;
    var a := Words(PLAIN);
    SecondRound1();
    SecondRound2();
    SecondRound3();
    SecondRound4();
    assert a.Encrypt(Block(0xbd8e8b85, 0x2c8a7b15), WORK, 1) == Block(0x1ac387a5, 0xe6f3ff89);
    assert a.Encrypt(Block(0xbd8e8b85, 0x2c8a7b15), WORK, 2) == Block(0xb96e5f3d, 0x45168140);
    assert a.Encrypt(Block(0xbd8e8b85, 0x2c8a7b15), WORK, 3) == Block(0x507e2ca9, 0x769a3208);
  }

  lemma ThirdRound1()
    ensures Words(PLAIN).EncryptRound(Block(0x29a7bc5f, 0xc537eab2), WORK) == Block(0x3fbb178a, 0x87396db1)
  {
    var a := Words(PLAIN);
    assert a.Pi1(Block(0x29a7bc5f, 0xc537eab2)) == Block(0x29a7bc5f, 0xec9056ed);
    assert a.Pi2(Block(0x29a7bc5f, 0xec9056ed), 0x043e464f) == Block(0xdd7110a6, 0xec9056ed);
    assert a.Pi3(Block(0xdd7110a6, 0xec9056ed), 0xf7b2f790, 0xd2eac680) == Block(0xdd7110a6, 0x10d237da);
    assert a.Pi4(Block(0xdd7110a6, 0x10d237da), 0x25583110) == Block(0xd3a51c35, 0x10d237da);
    assert a.Pi1(Block(0xd3a51c35, 0x10d237da)) == Block(0xd3a51c35, 0xc3772bef);
    assert a.Pi2(Block(0xd3a51c35, 0xc3772bef), 0x744470f2) == Block(0x07baa0bd, 0xc3772bef);
    assert a.Pi3(Block(0x07baa0bd, 0xc3772bef), 0xcd639d99, 0x27031e59) == Block(0x07baa0bd, 0x87396db1);
    assert a.Pi4(Block(0x07baa0bd, 0x87396db1), 0xea6083c0) == Block(0x3fbb178a, 0x87396db1);
  }

  lemma ThirdRound2()
    ensures Words(PLAIN).EncryptRound(Block(0x3fbb178a, 0x87396db1), WORK) == Block(0xc85cb13d, 0x4175b991)
  {
    var a := Words(PLAIN);
    assert a.Pi1(Block(0x3fbb178a, 0x87396db1)) == Block(0x3fbb178a, 0xb8827a3b);
    assert a.Pi2(Block(0x3fbb178a, 0xb8827a3b), 0x043e464f) == Block(0x6ddd4ff7, 0xb8827a3b);
    assert a.Pi3(Block(0x6ddd4ff7, 0xb8827a3b), 0xf7b2f790, 0xd2eac680) == Block(0x6ddd4ff7, 0xc382485b);
    assert a.Pi4(Block(0x6ddd4ff7, 0xc382485b), 0x25583110) == Block(0xe19910ec, 0xc382485b);
    assert a.Pi1(Block(0xe19910ec, 0xc382485b)) == Block(0xe19910ec, 0x221b58b7);
    assert a.Pi2(Block(0xe19910ec, 0x221b58b7), 0x744470f2) == Block(0x137383ab, 0x221b58b7);
    assert a.Pi3(Block(0x137383ab, 0x221b58b7), 0xcd639d99, 0x27031e59) == Block(0x137383ab, 0x4175b991);
    assert a.Pi4(Block(0x137383ab, 0x4175b991), 0xea6083c0) == Block(0xc85cb13d, 0x4175b991);
  }

  lemma ThirdRound3()
    ensures Words(PLAIN).EncryptRound(Block(0xc85cb13d, 0x4175b991), WORK) == Block(0x04701804, 0x9248d5fe)
  {
    var a := Words(PLAIN);
    assert a.Pi1(Block(0xc85cb13d, 0x4175b991)) == Block(0xc85cb13d, 0x892908ac);
    assert a.Pi2(Block(0xc85cb13d, 0x892908ac), 0x043e464f) == Block(0xe33792d6, 0x892908ac);
    assert a.Pi3(Block(0xe33792d6, 0x892908ac), 0xf7b2f790, 0xd2eac680) == Block(0xe33792d6, 0x12d35370);
    assert a.Pi4(Block(0xe33792d6, 0x12d35370), 0x25583110) == Block(0xfbee0457, 0x12d35370);
    assert a.Pi1(Block(0xfbee0457, 0x12d35370)) == Block(0xfbee0457, 0xe93d5727);
    assert a.Pi2(Block(0xfbee0457, 0xe93d5727), 0x744470f2) == Block(0x6b3ed8bc, 0xe93d5727);
    assert a.Pi3(Block(0x6b3ed8bc, 0xe93d5727), 0xcd639d99, 0x27031e59) == Block(0x6b3ed8bc, 0x9248d5fe);
    assert a.Pi4(Block(0x6b3ed8bc, 0x9248d5fe), 0xea6083c0) == Block(0x04701804, 0x9248d5fe);
  }

  lemma ThirdRound4()
    ensures Words(PLAIN).EncryptRound(Block(0x04701804, 0x9248d5fe), WORK) == Block(0x372a39ba, 0x212760e7)
  {
    var a := Words(PLAIN);
    assert a.Pi1(Block(0x04701804, 0x9248d5fe)) == Block(0x04701804, 0x9638cdfa);
    assert a.Pi2(Block(0x04701804, 0x9638cdfa), 0x043e464f) == Block(0x3d46e963, 0x9638cdfa);
    assert a.Pi3(Block(0x3d46e963, 0x9638cdfa), 0xf7b2f790, 0xd2eac680) == Block(0x3d46e963, 0x40079ae1);
    assert a.Pi4(Block(0x3d46e963, 0x40079ae1), 0x25583110) == Block(0xc79812d4, 0x40079ae1);
    assert a.Pi1(Block(0xc79812d4, 0x40079ae1)) == Block(0xc79812d4, 0x879f8835);
    assert a.Pi2(Block(0xc79812d4, 0x879f8835), 0x744470f2) == Block(0x0e8d4efe, 0x879f8835);
    assert a.Pi3(Block(0x0e8d4efe, 0x879f8835), 0xcd639d99, 0x27031e59) == Block(0x0e8d4efe, 0x212760e7);
    assert a.Pi4(Block(0x0e8d4efe, 0x212760e7), 0xea6083c0) == Block(0x372a39ba, 0x212760e7);
  }

  lemma Third()
    ensures Words(PLAIN).Encrypt(Block(0x29a7bc5f, 0xc537eab2), WORK, 4) == Block(0x372a39ba, 0x212760e7)
  {
    hide Arith.EncryptRound;
    var a := Words(PLAIN);
    ThirdRound1();
    ThirdRound2();
    ThirdRound3();
    ThirdRound4();
    assert a.Encrypt(Block(0x29a7bc5f, 0xc537eab2), WORK, 1) == Block(0x3fbb178a, 0x87396db1);
    assert a.Encrypt(Block(0x29a7bc5f, 0xc537eab2), WORK, 2) == Block(0xc85cb13d, 0x4175b991);
    assert a.Encrypt(Block(0x29a7bc5f, 0xc537eab2), WORK, 3) == Block(0x04701804, 0x9248d5fe);
  }

  lemma BlockBytes()
    ensures LoadBlock(PLAINTEXT, 0) == Block(0x2972bb04, 0x4d96df28)
      && LoadBlock(PLAINTEXT[8..], 0) == Block(0x71ba034c, 0x95de2770)
    ensures StoreBlock(Block(0xcc3488c9, 0xb9545c65)) == CIPHERTEXT[..8]
      && StoreBlock(Block(0x29a7bc5f, 0xc537eab2)) == CIPHERTEXT[8..16]
    ensures StoreBlock(Block(0x372a39ba, 0x212760e7)) == [0x37, 0x2a, 0x39, 0xba, 0x21, 0x27, 0x60, 0xe7]
  {
  }

  lemma BlockXors()
    ensures Xor(0x2972bb04, 0x11223344) == 0x38508840 && Xor(0x4d96df28, 0x55667788) == 0x18f0a8a0
    ensures Xor(0x71ba034c, 0xcc3488c9) == 0xbd8e8b85 && Xor(0x95de2770, 0xb9545c65) == 0x2c8a7b15
    ensures Xor8(0xb9, 0x37) == 0x8e
  {
  }

  /** The frozen ciphertext, under the key and initial value of the vector. */
  lemma KnownAnswer()
    ensures Reference(WorkKey(SYSTEM, DATA), 4).EncryptBytes(IV, PLAINTEXT) == CIPHERTEXT
    ensures Reference(WorkKey(SYSTEM, DATA), 4).DecryptBytes(IV, CIPHERTEXT) == PLAINTEXT
  {
    hide WorkKey, Arith.Encrypt, Arith.Decrypt, LoadBlock, StoreBlock, Xor, Xor8, BlockCipher.DecryptBytes;
    WorkIs();
    First();
    Second();
    Third();
    BlockBytes();
    BlockXors();
    var c := Reference(WORK, 4);
    var rest := PLAINTEXT[8..];
    var tail := rest[8..];
    assert tail == [0xb9];
    assert c.EncryptBytes(Block(0x29a7bc5f, 0xc537eab2), tail) == CIPHERTEXT[16..];
    assert c.EncryptBytes(Block(0xcc3488c9, 0xb9545c65), rest) == CIPHERTEXT[8..16] + CIPHERTEXT[16..];
    assert c.EncryptBytes(IV, PLAINTEXT) == CIPHERTEXT[..8] + (CIPHERTEXT[8..16] + CIPHERTEXT[16..]);
    ReferenceRoundTrip(WORK, 4, IV, PLAINTEXT);
  }
}
