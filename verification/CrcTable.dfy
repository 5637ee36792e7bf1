/**
 The 256-entry table of `crc32` and what its entries are: the remainders of the byte values moved to the top of a
 word. Words stand for polynomials over the field of two elements; adding is exclusive or.
 */
module CrcTable {
  import opened Bytes

  const POLYNOMIAL: word := 0x04C11DB7

  function Add(a: word, b: word): word { a ^ b }

  function TimesX(c: word): word { c << 1 }

  predicate Overflows(c: word) { c & 0x8000_0000 != 0 }

  /** One step of the division with a zero bit coming in. */
  function ZeroBit(c: word): word {
    if Overflows(c) then Add(TimesX(c), POLYNOMIAL) else TimesX(c)
  }

  /** Eight steps of the division with zero bits coming in. */
  function ZeroByte(c: word): word {
    ZeroBit(ZeroBit(ZeroBit(ZeroBit(ZeroBit(ZeroBit(ZeroBit(ZeroBit(c))))))))
  }

  /** A byte moved to the top of a word. */
  function Top(b: byte): word { b as bv32 << 24 }

  // ---- The division is linear ----

  lemma TimesXAdd(a: word, b: word)
    ensures TimesX(Add(a, b)) == Add(TimesX(a), TimesX(b))
  {
  }

  lemma OverflowsAdd(a: word, b: word)
    ensures Overflows(Add(a, b)) == (Overflows(a) != Overflows(b))
  {
  }

  lemma AddCommutes(a: word, b: word)
    ensures Add(a, b) == Add(b, a)
  {
  }

  lemma AddAssociates(a: word, b: word, c: word)
    ensures Add(Add(a, b), c) == Add(a, Add(b, c))
  {
  }

  lemma AddCancels(a: word, b: word)
    ensures Add(a, a) == 0 && Add(a, 0) == a && Add(Add(a, b), b) == a
  {
  }

  lemma ZeroBitAdd(a: word, b: word)
    ensures ZeroBit(Add(a, b)) == Add(ZeroBit(a), ZeroBit(b))
  {
    hide Add, TimesX, Overflows;
    TimesXAdd(a, b);
    OverflowsAdd(a, b);
    var x, y, p := TimesX(a), TimesX(b), POLYNOMIAL;
    AddAssociates(x, p, Add(y, p));
    AddAssociates(p, y, p);
    AddCommutes(p, y);
    AddCancels(y, p);
    AddAssociates(x, p, y);
    AddAssociates(x, y, p);
  }

  lemma ZeroByteAdd(a: word, b: word)
    ensures ZeroByte(Add(a, b)) == Add(ZeroByte(a), ZeroByte(b))
  {
    hide ZeroBit, Add;
    var a2, b2 := ZeroBit(ZeroBit(a)), ZeroBit(ZeroBit(b));
    var a4, b4 := ZeroBit(ZeroBit(a2)), ZeroBit(ZeroBit(b2));
    var a6, b6 := ZeroBit(ZeroBit(a4)), ZeroBit(ZeroBit(b4));
    ZeroBitAdd(a, b);
    ZeroBitAdd(ZeroBit(a), ZeroBit(b));
    ZeroBitAdd(a2, b2);
    ZeroBitAdd(ZeroBit(a2), ZeroBit(b2));
    ZeroBitAdd(a4, b4);
    ZeroBitAdd(ZeroBit(a4), ZeroBit(b4));
    ZeroBitAdd(a6, b6);
    ZeroBitAdd(ZeroBit(a6), ZeroBit(b6));
  }

  // ---- The table ----

  /** The table in the sixteen groups of the source. */
  function Row(r: nat): (s: seq<word>)
    requires r < 16
    ensures |s| == 16
  {
    match r
    case 0 =>
      [0x00000000, 0x04C11DB7, 0x09823B6E, 0x0D4326D9, 0x130476DC, 0x17C56B6B, 0x1A864DB2, 0x1E475005,
       0x2608EDB8, 0x22C9F00F, 0x2F8AD6D6, 0x2B4BCB61, 0x350C9B64, 0x31CD86D3, 0x3C8EA00A, 0x384FBDBD]
    case 1 =>
      [0x4C11DB70, 0x48D0C6C7, 0x4593E01E, 0x4152FDA9, 0x5F15ADAC, 0x5BD4B01B, 0x569796C2, 0x52568B75,
       0x6A1936C8, 0x6ED82B7F, 0x639B0DA6, 0x675A1011, 0x791D4014, 0x7DDC5DA3, 0x709F7B7A, 0x745E66CD]
    case 2 =>
      [0x9823B6E0, 0x9CE2AB57, 0x91A18D8E, 0x95609039, 0x8B27C03C, 0x8FE6DD8B, 0x82A5FB52, 0x8664E6E5,
       0xBE2B5B58, 0xBAEA46EF, 0xB7A96036, 0xB3687D81, 0xAD2F2D84, 0xA9EE3033, 0xA4AD16EA, 0xA06C0B5D]
    case 3 =>
      [0xD4326D90, 0xD0F37027, 0xDDB056FE, 0xD9714B49, 0xC7361B4C, 0xC3F706FB, 0xCEB42022, 0xCA753D95,
       0xF23A8028, 0xF6FB9D9F, 0xFBB8BB46, 0xFF79A6F1, 0xE13EF6F4, 0xE5FFEB43, 0xE8BCCD9A, 0xEC7DD02D]
    case 4 =>
      [0x34867077, 0x30476DC0, 0x3D044B19, 0x39C556AE, 0x278206AB, 0x23431B1C, 0x2E003DC5, 0x2AC12072,
       0x128E9DCF, 0x164F8078, 0x1B0CA6A1, 0x1FCDBB16, 0x018AEB13, 0x054BF6A4, 0x0808D07D, 0x0CC9CDCA]
    case 5 =>
      [0x7897AB07, 0x7C56B6B0, 0x71159069, 0x75D48DDE, 0x6B93DDDB, 0x6F52C06C, 0x6211E6B5, 0x66D0FB02,
       0x5E9F46BF, 0x5A5E5B08, 0x571D7DD1, 0x53DC6066, 0x4D9B3063, 0x495A2DD4, 0x44190B0D, 0x40D816BA]
    case 6 =>
      [0xACA5C697, 0xA864DB20, 0xA527FDF9, 0xA1E6E04E, 0xBFA1B04B, 0xBB60ADFC, 0xB6238B25, 0xB2E29692,
       0x8AAD2B2F, 0x8E6C3698, 0x832F1041, 0x87EE0DF6, 0x99A95DF3, 0x9D684044, 0x902B669D, 0x94EA7B2A]
    case 7 =>
      [0xE0B41DE7, 0xE4750050, 0xE9362689, 0xEDF73B3E, 0xF3B06B3B, 0xF771768C, 0xFA325055, 0xFEF34DE2,
       0xC6BCF05F, 0xC27DEDE8, 0xCF3ECB31, 0xCBFFD686, 0xD5B88683, 0xD1799B34, 0xDC3ABDED, 0xD8FBA05A]
    case 8 =>
      [0x690CE0EE, 0x6DCDFD59, 0x608EDB80, 0x644FC637, 0x7A089632, 0x7EC98B85, 0x738AAD5C, 0x774BB0EB,
       0x4F040D56, 0x4BC510E1, 0x46863638, 0x42472B8F, 0x5C007B8A, 0x58C1663D, 0x558240E4, 0x51435D53]
    case 9 =>
      [0x251D3B9E, 0x21DC2629, 0x2C9F00F0, 0x285E1D47, 0x36194D42, 0x32D850F5, 0x3F9B762C, 0x3B5A6B9B,
       0x0315D626, 0x07D4CB91, 0x0A97ED48, 0x0E56F0FF, 0x1011A0FA, 0x14D0BD4D, 0x19939B94, 0x1D528623]
    case 10 =>
      [0xF12F560E, 0xF5EE4BB9, 0xF8AD6D60, 0xFC6C70D7, 0xE22B20D2, 0xE6EA3D65, 0xEBA91BBC, 0xEF68060B,
       0xD727BBB6, 0xD3E6A601, 0xDEA580D8, 0xDA649D6F, 0xC423CD6A, 0xC0E2D0DD, 0xCDA1F604, 0xC960EBB3]
    case 11 =>
      [0xBD3E8D7E, 0xB9FF90C9, 0xB4BCB610, 0xB07DABA7, 0xAE3AFBA2, 0xAAFBE615, 0xA7B8C0CC, 0xA379DD7B,
       0x9B3660C6, 0x9FF77D71, 0x92B45BA8, 0x9675461F, 0x8832161A, 0x8CF30BAD, 0x81B02D74, 0x857130C3]
    case 12 =>
      [0x5D8A9099, 0x594B8D2E, 0x5408ABF7, 0x50C9B640, 0x4E8EE645, 0x4A4FFBF2, 0x470CDD2B, 0x43CDC09C,
       0x7B827D21, 0x7F436096, 0x7200464F, 0x76C15BF8, 0x68860BFD, 0x6C47164A, 0x61043093, 0x65C52D24]
    case 13 =>
      [0x119B4BE9, 0x155A565E, 0x18197087, 0x1CD86D30, 0x029F3D35, 0x065E2082, 0x0B1D065B, 0x0FDC1BEC,
       0x3793A651, 0x3352BBE6, 0x3E119D3F, 0x3AD08088, 0x2497D08D, 0x2056CD3A, 0x2D15EBE3, 0x29D4F654]
    case 14 =>
      [0xC5A92679, 0xC1683BCE, 0xCC2B1D17, 0xC8EA00A0, 0xD6AD50A5, 0xD26C4D12, 0xDF2F6BCB, 0xDBEE767C,
       0xE3A1CBC1, 0xE760D676, 0xEA23F0AF, 0xEEE2ED18, 0xF0A5BD1D, 0xF464A0AA, 0xF9278673, 0xFDE69BC4]
    case _ =>
      [0x89B8FD09, 0x8D79E0BE, 0x803AC667, 0x84FBDBD0, 0x9ABC8BD5, 0x9E7D9662, 0x933EB0BB, 0x97FFAD0C,
       0xAFB010B1, 0xAB710D06, 0xA6322BDF, 0xA2F33668, 0xBCB4666D, 0xB8757BDA, 0xB5365D03, 0xB1F740B4]
  }

  function Table(i: nat): word
    requires i < 256
  {
    Row(i / 16)[i % 16]
  }

  lemma Row1Splits(l: nat)
    requires l < 16
    ensures Row(1)[l] == Add(Row(1)[0], Row(0)[l])
  {
  }

  lemma Row2Splits(l: nat)
    requires l < 16
    ensures Row(2)[l] == Add(Row(2)[0], Row(0)[l])
  {
  }

  lemma Row3Splits(l: nat)
    requires l < 16
    ensures Row(3)[l] == Add(Row(3)[0], Row(0)[l])
  {
  }

  lemma Row4Splits(l: nat)
    requires l < 16
    ensures Row(4)[l] == Add(Row(4)[0], Row(0)[l])
  {
  }

  lemma Row5Splits(l: nat)
    requires l < 16
    ensures Row(5)[l] == Add(Row(5)[0], Row(0)[l])
  {
  }

  lemma Row6Splits(l: nat)
    requires l < 16
    ensures Row(6)[l] == Add(Row(6)[0], Row(0)[l])
  {
  }

  lemma Row7Splits(l: nat)
    requires l < 16
    ensures Row(7)[l] == Add(Row(7)[0], Row(0)[l])
  {
  }

  lemma Row8Splits(l: nat)
    requires l < 16
    ensures Row(8)[l] == Add(Row(8)[0], Row(0)[l])
  {
  }

  lemma Row9Splits(l: nat)
    requires l < 16
    ensures Row(9)[l] == Add(Row(9)[0], Row(0)[l])
  {
  }

  lemma Row10Splits(l: nat)
    requires l < 16
    ensures Row(10)[l] == Add(Row(10)[0], Row(0)[l])
  {
  }

  lemma Row11Splits(l: nat)
    requires l < 16
    ensures Row(11)[l] == Add(Row(11)[0], Row(0)[l])
  {
  }

  lemma Row12Splits(l: nat)
    requires l < 16
    ensures Row(12)[l] == Add(Row(12)[0], Row(0)[l])
  {
  }

  lemma Row13Splits(l: nat)
    requires l < 16
    ensures Row(13)[l] == Add(Row(13)[0], Row(0)[l])
  {
  }

  lemma Row14Splits(l: nat)
    requires l < 16
    ensures Row(14)[l] == Add(Row(14)[0], Row(0)[l])
  {
  }

  lemma Row15Splits(l: nat)
    requires l < 16
    ensures Row(15)[l] == Add(Row(15)[0], Row(0)[l])
  {
  }

  lemma FirstRowRemainders()
    ensures ZeroByte(0x0000_0000) == 0x00000000
    ensures ZeroByte(0x0100_0000) == 0x04C11DB7
    ensures ZeroByte(0x0200_0000) == 0x09823B6E
    ensures ZeroByte(0x0300_0000) == 0x0D4326D9
    ensures ZeroByte(0x0400_0000) == 0x130476DC
    ensures ZeroByte(0x0500_0000) == 0x17C56B6B
    ensures ZeroByte(0x0600_0000) == 0x1A864DB2
    ensures ZeroByte(0x0700_0000) == 0x1E475005
    ensures ZeroByte(0x0800_0000) == 0x2608EDB8
    ensures ZeroByte(0x0900_0000) == 0x22C9F00F
    ensures ZeroByte(0x0A00_0000) == 0x2F8AD6D6
    ensures ZeroByte(0x0B00_0000) == 0x2B4BCB61
    ensures ZeroByte(0x0C00_0000) == 0x350C9B64
    ensures ZeroByte(0x0D00_0000) == 0x31CD86D3
    ensures ZeroByte(0x0E00_0000) == 0x3C8EA00A
    ensures ZeroByte(0x0F00_0000) == 0x384FBDBD
  {
  }

  lemma FirstRowEntries()
    ensures Row(0)[0] == ZeroByte(0x0000_0000)
    ensures Row(0)[1] == ZeroByte(0x0100_0000)
    ensures Row(0)[2] == ZeroByte(0x0200_0000)
    ensures Row(0)[3] == ZeroByte(0x0300_0000)
    ensures Row(0)[4] == ZeroByte(0x0400_0000)
    ensures Row(0)[5] == ZeroByte(0x0500_0000)
    ensures Row(0)[6] == ZeroByte(0x0600_0000)
    ensures Row(0)[7] == ZeroByte(0x0700_0000)
    ensures Row(0)[8] == ZeroByte(0x0800_0000)
    ensures Row(0)[9] == ZeroByte(0x0900_0000)
    ensures Row(0)[10] == ZeroByte(0x0A00_0000)
    ensures Row(0)[11] == ZeroByte(0x0B00_0000)
    ensures Row(0)[12] == ZeroByte(0x0C00_0000)
    ensures Row(0)[13] == ZeroByte(0x0D00_0000)
    ensures Row(0)[14] == ZeroByte(0x0E00_0000)
    ensures Row(0)[15] == ZeroByte(0x0F00_0000)
  {
    hide ZeroByte;
    FirstRowRemainders();
  }

  lemma FirstColumnRemainders()
    ensures ZeroByte(0x0000_0000) == 0x00000000
    ensures ZeroByte(0x1000_0000) == 0x4C11DB70
    ensures ZeroByte(0x2000_0000) == 0x9823B6E0
    ensures ZeroByte(0x3000_0000) == 0xD4326D90
    ensures ZeroByte(0x4000_0000) == 0x34867077
    ensures ZeroByte(0x5000_0000) == 0x7897AB07
    ensures ZeroByte(0x6000_0000) == 0xACA5C697
    ensures ZeroByte(0x7000_0000) == 0xE0B41DE7
    ensures ZeroByte(0x8000_0000) == 0x690CE0EE
    ensures ZeroByte(0x9000_0000) == 0x251D3B9E
    ensures ZeroByte(0xA000_0000) == 0xF12F560E
    ensures ZeroByte(0xB000_0000) == 0xBD3E8D7E
    ensures ZeroByte(0xC000_0000) == 0x5D8A9099
    ensures ZeroByte(0xD000_0000) == 0x119B4BE9
    ensures ZeroByte(0xE000_0000) == 0xC5A92679
    ensures ZeroByte(0xF000_0000) == 0x89B8FD09
  {
  }

  lemma FirstColumnEntries()
    ensures Row(0)[0] == ZeroByte(0x0000_0000)
    ensures Row(1)[0] == ZeroByte(0x1000_0000)
    ensures Row(2)[0] == ZeroByte(0x2000_0000)
    ensures Row(3)[0] == ZeroByte(0x3000_0000)
    ensures Row(4)[0] == ZeroByte(0x4000_0000)
    ensures Row(5)[0] == ZeroByte(0x5000_0000)
    ensures Row(6)[0] == ZeroByte(0x6000_0000)
    ensures Row(7)[0] == ZeroByte(0x7000_0000)
    ensures Row(8)[0] == ZeroByte(0x8000_0000)
    ensures Row(9)[0] == ZeroByte(0x9000_0000)
    ensures Row(10)[0] == ZeroByte(0xA000_0000)
    ensures Row(11)[0] == ZeroByte(0xB000_0000)
    ensures Row(12)[0] == ZeroByte(0xC000_0000)
    ensures Row(13)[0] == ZeroByte(0xD000_0000)
    ensures Row(14)[0] == ZeroByte(0xE000_0000)
    ensures Row(15)[0] == ZeroByte(0xF000_0000)
  {
    hide ZeroByte;
    FirstColumnRemainders();
  }

  /** The first row holds the remainders of the low nibbles. */
  lemma LowNibble(l: bv8)
    requires l < 16
    ensures Row(0)[l as nat] == ZeroByte(Top(l))
  {
    hide Row, ZeroByte;
    FirstRowEntries();
  }

  /** The first column holds the remainders of the high nibbles. */
  lemma HighNibble(h: bv8)
    requires h < 16
    ensures Row(h as nat)[0] == ZeroByte(Top(h << 4))
  {
    hide Row, ZeroByte;
    FirstColumnEntries();
  }
}
