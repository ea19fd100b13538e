/** The first test vector of FIPS 180-1, as lsha1.c:76-78 gives it: the digest of "abc". */
module Sha1Example {
  import opened Sha1
  import opened Sha1Stream

  const ABC: seq<bv8> := [0x61, 0x62, 0x63]

  /** The only block: the message, the bit 1, zeros, and 24 bits as the length. */
  const BLOCK: seq<Word> := [0x61626380, 0, 0, 0, 0, 0, 0, 0, 0, 0, 0, 0, 0, 0, 0, 24]

  // ---------- The message schedule ----------

  ghost predicate WordIs(t: nat, w: Word) {
    W(BLOCK, t) == w
  }

  lemma Early()
    ensures WordIs(0, 0x61626380) && WordIs(15, 24) && forall t :: 0 < t < 15 ==> WordIs(t, 0)
  {
  }

  lemma Late(t: nat, a: Word, b: Word, c: Word, d: Word, w: Word)
    requires t >= 16 && WordIs(t - 3, a) && WordIs(t - 8, b) && WordIs(t - 14, c) && WordIs(t - 16, d)
    requires w == Rol1(a ^ b ^ c ^ d)
    ensures WordIs(t, w)
  {
  }

  lemma Words16()
    ensures WordIs(16, 0xC2C4C700) && WordIs(17, 0) && WordIs(18, 0x00000030) && WordIs(19, 0x85898E01)
    ensures WordIs(20, 0) && WordIs(21, 0x00000060) && WordIs(22, 0x0B131C03) && WordIs(23, 0x00000030)
    ensures WordIs(24, 0x85898EC1) && WordIs(25, 0x16263806) && WordIs(26, 0) && WordIs(27, 0x00000180)
    ensures WordIs(28, 0x2C4C700C) && WordIs(29, 0x000000F0) && WordIs(30, 0x93AFB507) && WordIs(31, 0x5898E048)
  {
    hide WordIs;
    Early();
    Late(16, 0, 0, 0, 0x61626380, 0xC2C4C700);
    Late(17, 0, 0, 0, 0, 0);
    Late(18, 0x00000018, 0, 0, 0, 0x00000030);
    Late(19, 0xC2C4C700, 0, 0, 0, 0x85898E01);
    Late(20, 0, 0, 0, 0, 0);
    Late(21, 0x00000030, 0, 0, 0, 0x00000060);
    Late(22, 0x85898E01, 0, 0, 0, 0x0B131C03);
    Late(23, 0, 0x00000018, 0, 0, 0x00000030);
    Late(24, 0x00000060, 0xC2C4C700, 0, 0, 0x85898EC1);
    Late(25, 0x0B131C03, 0, 0, 0, 0x16263806);
    Late(26, 0x00000030, 0x00000030, 0, 0, 0);
    Late(27, 0x85898EC1, 0x85898E01, 0, 0, 0x00000180);
    Late(28, 0x16263806, 0, 0, 0, 0x2C4C700C);
    Late(29, 0, 0x00000060, 0x00000018, 0, 0x000000F0);
    Late(30, 0x00000180, 0x0B131C03, 0xC2C4C700, 0, 0x93AFB507);
    Late(31, 0x2C4C700C, 0x00000030, 0, 0x00000018, 0x5898E048);
  }

  lemma Words32()
    ensures WordIs(32, 0x8E9A9202) && WordIs(33, 0x00000600) && WordIs(34, 0xB131C0F0) && WordIs(35, 0x16263BC6)
    ensures WordIs(36, 0x4EBED41E) && WordIs(37, 0x626380A1) && WordIs(38, 0x16263806) && WordIs(39, 0x000018C0)
    ensures WordIs(40, 0xD2E138C4) && WordIs(41, 0x00000F00) && WordIs(42, 0x3AFB5079) && WordIs(43, 0x898E04E5)
    ensures WordIs(44, 0xE2BA3C2B) && WordIs(45, 0x000060C0) && WordIs(46, 0x053A37CD) && WordIs(47, 0x74458547)
  {
    hide WordIs;
    Words16();
    Late(32, 0x000000F0, 0x85898EC1, 0x00000030, 0xC2C4C700, 0x8E9A9202);
    Late(33, 0x93AFB507, 0x16263806, 0x85898E01, 0, 0x00000600);
    Late(34, 0x5898E048, 0, 0, 0x00000030, 0xB131C0F0);
    Late(35, 0x8E9A9202, 0x00000180, 0x00000060, 0x85898E01, 0x16263BC6);
    Late(36, 0x00000600, 0x2C4C700C, 0x0B131C03, 0, 0x4EBED41E);
    Late(37, 0xB131C0F0, 0x000000F0, 0x00000030, 0x00000060, 0x626380A1);
    Late(38, 0x16263BC6, 0x93AFB507, 0x85898EC1, 0x0B131C03, 0x16263806);
    Late(39, 0x4EBED41E, 0x5898E048, 0x16263806, 0x00000030, 0x000018C0);
    Late(40, 0x626380A1, 0x8E9A9202, 0, 0x85898EC1, 0xD2E138C4);
    Late(41, 0x16263806, 0x00000600, 0x00000180, 0x16263806, 0x00000F00);
    Late(42, 0x000018C0, 0xB131C0F0, 0x2C4C700C, 0, 0x3AFB5079);
    Late(43, 0xD2E138C4, 0x16263BC6, 0x000000F0, 0x00000180, 0x898E04E5);
    Late(44, 0x00000F00, 0x4EBED41E, 0x93AFB507, 0x2C4C700C, 0xE2BA3C2B);
    Late(45, 0x3AFB5079, 0x626380A1, 0x5898E048, 0x000000F0, 0x000060C0);
    Late(46, 0x898E04E5, 0x16263806, 0x8E9A9202, 0x93AFB507, 0x053A37CD);
    Late(47, 0xE2BA3C2B, 0x000018C0, 0x00000600, 0x5898E048, 0x74458547);
  }

  lemma Words48()
    ensures WordIs(48, 0xDA9415ED) && WordIs(49, 0x26380A16) && WordIs(50, 0x626383A1) && WordIs(51, 0x4EBF54DE)
    ensures WordIs(52, 0x3835B44B) && WordIs(53, 0x0000F600) && WordIs(54, 0x1E84C7A3) && WordIs(55, 0x98E04D98)
    ensures WordIs(56, 0x651D16A0) && WordIs(57, 0x62658CA1) && WordIs(58, 0x458544D6) && WordIs(59, 0x44584CB7)
    ensures WordIs(60, 0x7BA06619) && WordIs(61, 0x6380AEA2) && WordIs(62, 0x0AE55269) && WordIs(63, 0x627B49A1)
  {
    hide WordIs;
    Words32();
    Late(48, 0x000060C0, 0xD2E138C4, 0xB131C0F0, 0x8E9A9202, 0xDA9415ED);
    Late(49, 0x053A37CD, 0x00000F00, 0x16263BC6, 0x00000600, 0x26380A16);
    Late(50, 0x74458547, 0x3AFB5079, 0x4EBED41E, 0xB131C0F0, 0x626383A1);
    Late(51, 0xDA9415ED, 0x898E04E5, 0x626380A1, 0x16263BC6, 0x4EBF54DE);
    Late(52, 0x26380A16, 0xE2BA3C2B, 0x16263806, 0x4EBED41E, 0x3835B44B);
    Late(53, 0x626383A1, 0x000060C0, 0x000018C0, 0x626380A1, 0x0000F600);
    Late(54, 0x4EBF54DE, 0x053A37CD, 0xD2E138C4, 0x16263806, 0x1E84C7A3);
    Late(55, 0x3835B44B, 0x74458547, 0x00000F00, 0x000018C0, 0x98E04D98);
    Late(56, 0x0000F600, 0xDA9415ED, 0x3AFB5079, 0xD2E138C4, 0x651D16A0);
    Late(57, 0x1E84C7A3, 0x26380A16, 0x898E04E5, 0x00000F00, 0x62658CA1);
    Late(58, 0x98E04D98, 0x626383A1, 0xE2BA3C2B, 0x3AFB5079, 0x458544D6);
    Late(59, 0x651D16A0, 0x4EBF54DE, 0x000060C0, 0x898E04E5, 0x44584CB7);
    Late(60, 0x62658CA1, 0x3835B44B, 0x053A37CD, 0xE2BA3C2B, 0x7BA06619);
    Late(61, 0x458544D6, 0x0000F600, 0x74458547, 0x000060C0, 0x6380AEA2);
    Late(62, 0x44584CB7, 0x1E84C7A3, 0xDA9415ED, 0x053A37CD, 0x0AE55269);
    Late(63, 0x7BA06619, 0x98E04D98, 0x26380A16, 0x74458547, 0x627B49A1);
  }

  lemma Words64()
    ensures WordIs(64, 0x7CD45C9D) && WordIs(65, 0x000F0000) && WordIs(66, 0xFB50753A) && WordIs(67, 0xEC6765E8)
    ensures WordIs(68, 0xBA3C2BE2) && WordIs(69, 0x0060C000) && WordIs(70, 0x3A37CD05) && WordIs(71, 0x458546F4)
    ensures WordIs(72, 0xB8599DD6) && WordIs(73, 0x380A1A26) && WordIs(74, 0x01E02203) && WordIs(75, 0xE7CC3456)
    ensures WordIs(76, 0xE6E60B69) && WordIs(77, 0x00F60A00) && WordIs(78, 0x5795EF4F) && WordIs(79, 0x822E0879)
  {
    hide WordIs;
    Words48();
    Late(64, 0x6380AEA2, 0x651D16A0, 0x626383A1, 0xDA9415ED, 0x7CD45C9D);
    Late(65, 0x0AE55269, 0x62658CA1, 0x4EBF54DE, 0x26380A16, 0x000F0000);
    Late(66, 0x627B49A1, 0x458544D6, 0x3835B44B, 0x626383A1, 0xFB50753A);
    Late(67, 0x7CD45C9D, 0x44584CB7, 0x0000F600, 0x4EBF54DE, 0xEC6765E8);
    Late(68, 0x000F0000, 0x7BA06619, 0x1E84C7A3, 0x3835B44B, 0xBA3C2BE2);
    Late(69, 0xFB50753A, 0x6380AEA2, 0x98E04D98, 0x0000F600, 0x0060C000);
    Late(70, 0xEC6765E8, 0x0AE55269, 0x651D16A0, 0x1E84C7A3, 0x3A37CD05);
    Late(71, 0xBA3C2BE2, 0x627B49A1, 0x62658CA1, 0x98E04D98, 0x458546F4);
    Late(72, 0x0060C000, 0x7CD45C9D, 0x458544D6, 0x651D16A0, 0xB8599DD6);
    Late(73, 0x3A37CD05, 0x000F0000, 0x44584CB7, 0x62658CA1, 0x380A1A26);
    Late(74, 0x458546F4, 0xFB50753A, 0x7BA06619, 0x458544D6, 0x01E02203);
    Late(75, 0xB8599DD6, 0xEC6765E8, 0x6380AEA2, 0x44584CB7, 0xE7CC3456);
    Late(76, 0x380A1A26, 0xBA3C2BE2, 0x0AE55269, 0x7BA06619, 0xE6E60B69);
    Late(77, 0x01E02203, 0x0060C000, 0x627B49A1, 0x6380AEA2, 0x00F60A00);
    Late(78, 0xE7CC3456, 0x3A37CD05, 0x7CD45C9D, 0x0AE55269, 0x5795EF4F);
    Late(79, 0xE6E60B69, 0x458546F4, 0x000F0000, 0x627B49A1, 0x822E0879);
  }

  // ---------- The rounds ----------

  ghost predicate StateIs(t: nat, s: Five) {
    Rounds(BLOCK, H0, t) == s
  }

  lemma Next(t: nat, s: Five, w: Word, a: Word)
    requires StateIs(t, s) && WordIs(t, w) && OneRound(t, s, w).a == a
    ensures StateIs(t + 1, Five(a, s.a, Rol30(s.b), s.c, s.d))
  {
  }

  lemma FirstState()
    ensures StateIs(0, H0)
  {
  }

  lemma States0()
    ensures StateIs(16, Five(0x20BDD62F, 0x196BEE77, 0x644A3DA5, 0x1181ED99, 0x18C623F9))
  {
    hide WordIs, StateIs;
    Early();
    FirstState();
    Next(0, Five(0x67452301, 0xEFCDAB89, 0x98BADCFE, 0x10325476, 0xC3D2E1F0), 0x61626380, 0x0116FC33);
    Next(1, Five(0x0116FC33, 0x67452301, 0x7BF36AE2, 0x98BADCFE, 0x10325476), 0, 0x8990536D);
    Next(2, Five(0x8990536D, 0x0116FC33, 0x59D148C0, 0x7BF36AE2, 0x98BADCFE), 0, 0xA1390F08);
    Next(3, Five(0xA1390F08, 0x8990536D, 0xC045BF0C, 0x59D148C0, 0x7BF36AE2), 0, 0xCDD8E11B);
    Next(4, Five(0xCDD8E11B, 0xA1390F08, 0x626414DB, 0xC045BF0C, 0x59D148C0), 0, 0xCFD499DE);
    Next(5, Five(0xCFD499DE, 0xCDD8E11B, 0x284E43C2, 0x626414DB, 0xC045BF0C), 0, 0x3FC7CA40);
    Next(6, Five(0x3FC7CA40, 0xCFD499DE, 0xF3763846, 0x284E43C2, 0x626414DB), 0, 0x993E30C1);
    Next(7, Five(0x993E30C1, 0x3FC7CA40, 0xB3F52677, 0xF3763846, 0x284E43C2), 0, 0x9E8C07D4);
    Next(8, Five(0x9E8C07D4, 0x993E30C1, 0x0FF1F290, 0xB3F52677, 0xF3763846), 0, 0x4B6AE328);
    Next(9, Five(0x4B6AE328, 0x9E8C07D4, 0x664F8C30, 0x0FF1F290, 0xB3F52677), 0, 0x8351F929);
    Next(10, Five(0x8351F929, 0x4B6AE328, 0x27A301F5, 0x664F8C30, 0x0FF1F290), 0, 0xFBDA9E89);
    Next(11, Five(0xFBDA9E89, 0x8351F929, 0x12DAB8CA, 0x27A301F5, 0x664F8C30), 0, 0x63188FE4);
    Next(12, Five(0x63188FE4, 0xFBDA9E89, 0x60D47E4A, 0x12DAB8CA, 0x27A301F5), 0, 0x4607B664);
    Next(13, Five(0x4607B664, 0x63188FE4, 0x7EF6A7A2, 0x60D47E4A, 0x12DAB8CA), 0, 0x9128F695);
    Next(14, Five(0x9128F695, 0x4607B664, 0x18C623F9, 0x7EF6A7A2, 0x60D47E4A), 0, 0x196BEE77);
    Next(15, Five(0x196BEE77, 0x9128F695, 0x1181ED99, 0x18C623F9, 0x7EF6A7A2), 0x00000018, 0x20BDD62F);
  }

  lemma States16()
    ensures StateIs(32, Five(0x3B845D33, 0x1267B407, 0x717EEBD7, 0xA0DC2D4B, 0xD2AA1365))
  {
    hide WordIs, StateIs;
    Words16();
    States0();
    Next(16, Five(0x20BDD62F, 0x196BEE77, 0x644A3DA5, 0x1181ED99, 0x18C623F9), 0xC2C4C700, 0x4E925823);
    Next(17, Five(0x4E925823, 0x20BDD62F, 0xC65AFB9D, 0x644A3DA5, 0x1181ED99), 0, 0x82AA6728);
    Next(18, Five(0x82AA6728, 0x4E925823, 0xC82F758B, 0xC65AFB9D, 0x644A3DA5), 0x00000030, 0xDC64901D);
    Next(19, Five(0xDC64901D, 0x82AA6728, 0xD3A49608, 0xC82F758B, 0xC65AFB9D), 0x85898E01, 0xFD9E1D7D);
    Next(20, Five(0xFD9E1D7D, 0xDC64901D, 0x20AA99CA, 0xD3A49608, 0xC82F758B), 0, 0x1A37B0CA);
    Next(21, Five(0x1A37B0CA, 0xFD9E1D7D, 0x77192407, 0x20AA99CA, 0xD3A49608), 0x00000060, 0x33A23BFC);
    Next(22, Five(0x33A23BFC, 0x1A37B0CA, 0x7F67875F, 0x77192407, 0x20AA99CA), 0x0B131C03, 0x21283486);
    Next(23, Five(0x21283486, 0x33A23BFC, 0x868DEC32, 0x7F67875F, 0x77192407), 0x00000030, 0xD541F12D);
    Next(24, Five(0xD541F12D, 0x21283486, 0x0CE88EFF, 0x868DEC32, 0x7F67875F), 0x85898EC1, 0xC7567DC6);
    Next(25, Five(0xC7567DC6, 0xD541F12D, 0x884A0D21, 0x0CE88EFF, 0x868DEC32), 0x16263806, 0x48413BA4);
    Next(26, Five(0x48413BA4, 0xC7567DC6, 0x75507C4B, 0x884A0D21, 0x0CE88EFF), 0, 0xBE35FBD5);
    Next(27, Five(0xBE35FBD5, 0x48413BA4, 0xB1D59F71, 0x75507C4B, 0x884A0D21), 0x00000180, 0x4AA84D97);
    Next(28, Five(0x4AA84D97, 0xBE35FBD5, 0x12104EE9, 0xB1D59F71, 0x75507C4B), 0x2C4C700C, 0x8370B52E);
    Next(29, Five(0x8370B52E, 0x4AA84D97, 0x6F8D7EF5, 0x12104EE9, 0xB1D59F71), 0x000000F0, 0xC5FBAF5D);
    Next(30, Five(0xC5FBAF5D, 0x8370B52E, 0xD2AA1365, 0x6F8D7EF5, 0x12104EE9), 0x93AFB507, 0x1267B407);
    Next(31, Five(0x1267B407, 0xC5FBAF5D, 0xA0DC2D4B, 0xD2AA1365, 0x6F8D7EF5), 0x5898E048, 0x3B845D33);
  }

  lemma States32()
    ensures StateIs(48, Five(0xBEAD02CA, 0xA01B846C, 0x8714787C, 0x503CA382, 0xFB86C6AB))
  {
    hide WordIs, StateIs;
    Words32();
    States16();
    Next(32, Five(0x3B845D33, 0x1267B407, 0x717EEBD7, 0xA0DC2D4B, 0xD2AA1365), 0x8E9A9202, 0x046FAA0A);
    Next(33, Five(0x046FAA0A, 0x3B845D33, 0xC499ED01, 0x717EEBD7, 0xA0DC2D4B), 0x00000600, 0x2C0EBC11);
    Next(34, Five(0x2C0EBC11, 0x046FAA0A, 0xCEE1174C, 0xC499ED01, 0x717EEBD7), 0xB131C0F0, 0x21796AD4);
    Next(35, Five(0x21796AD4, 0x2C0EBC11, 0x811BEA82, 0xCEE1174C, 0xC499ED01), 0x16263BC6, 0xDCBBB0CB);
    Next(36, Five(0xDCBBB0CB, 0x21796AD4, 0x4B03AF04, 0x811BEA82, 0xCEE1174C), 0x4EBED41E, 0x0F511FD8);
    Next(37, Five(0x0F511FD8, 0xDCBBB0CB, 0x085E5AB5, 0x4B03AF04, 0x811BEA82), 0x626380A1, 0xDC63973F);
    Next(38, Five(0xDC63973F, 0x0F511FD8, 0xF72EEC32, 0x085E5AB5, 0x4B03AF04), 0x16263806, 0x4C986405);
    Next(39, Five(0x4C986405, 0xDC63973F, 0x03D447F6, 0xF72EEC32, 0x085E5AB5), 0x000018C0, 0x32DE1CBA);
    Next(40, Five(0x32DE1CBA, 0x4C986405, 0xF718E5CF, 0x03D447F6, 0xF72EEC32), 0xD2E138C4, 0xFC87DEDF);
    Next(41, Five(0xFC87DEDF, 0x32DE1CBA, 0x53261901, 0xF718E5CF, 0x03D447F6), 0x00000F00, 0x970A0D5C);
    Next(42, Five(0x970A0D5C, 0xFC87DEDF, 0x8CB7872E, 0x53261901, 0xF718E5CF), 0x3AFB5079, 0x7F193DC5);
    Next(43, Five(0x7F193DC5, 0x970A0D5C, 0xFF21F7B7, 0x8CB7872E, 0x53261901), 0x898E04E5, 0xEE1B1AAF);
    Next(44, Five(0xEE1B1AAF, 0x7F193DC5, 0x25C28357, 0xFF21F7B7, 0x8CB7872E), 0xE2BA3C2B, 0x40F28E09);
    Next(45, Five(0x40F28E09, 0xEE1B1AAF, 0x5FC64F71, 0x25C28357, 0xFF21F7B7), 0x000060C0, 0x1C51E1F2);
    Next(46, Five(0x1C51E1F2, 0x40F28E09, 0xFB86C6AB, 0x5FC64F71, 0x25C28357), 0x053A37CD, 0xA01B846C);
    Next(47, Five(0xA01B846C, 0x1C51E1F2, 0x503CA382, 0xFB86C6AB, 0x5FC64F71), 0x74458547, 0xBEAD02CA);
  }

  lemma States48()
    ensures StateIs(64, Five(0x6B61C9E1, 0xB66C020B, 0x9523272C, 0xF5D5B051, 0x8FD4B796))
  {
    hide WordIs, StateIs;
    Words48();
    States32();
    Next(48, Five(0xBEAD02CA, 0xA01B846C, 0x8714787C, 0x503CA382, 0xFB86C6AB), 0xDA9415ED, 0xBAF39337);
    Next(49, Five(0xBAF39337, 0xBEAD02CA, 0x2806E11B, 0x8714787C, 0x503CA382), 0x26380A16, 0x120731C5);
    Next(50, Five(0x120731C5, 0xBAF39337, 0xAFAB40B2, 0x2806E11B, 0x8714787C), 0x626383A1, 0x641DB2CE);
    Next(51, Five(0x641DB2CE, 0x120731C5, 0xEEBCE4CD, 0xAFAB40B2, 0x2806E11B), 0x4EBF54DE, 0x3847AD66);
    Next(52, Five(0x3847AD66, 0x641DB2CE, 0x4481CC71, 0xEEBCE4CD, 0xAFAB40B2), 0x3835B44B, 0xE490436D);
    Next(53, Five(0xE490436D, 0x3847AD66, 0x99076CB3, 0x4481CC71, 0xEEBCE4CD), 0x0000F600, 0x27E9F1D8);
    Next(54, Five(0x27E9F1D8, 0xE490436D, 0x8E11EB59, 0x99076CB3, 0x4481CC71), 0x1E84C7A3, 0x7B71F76D);
    Next(55, Five(0x7B71F76D, 0x27E9F1D8, 0x792410DB, 0x8E11EB59, 0x99076CB3), 0x98E04D98, 0x5E6456AF);
    Next(56, Five(0x5E6456AF, 0x7B71F76D, 0x09FA7C76, 0x792410DB, 0x8E11EB59), 0x651D16A0, 0xC846093F);
    Next(57, Five(0xC846093F, 0x5E6456AF, 0x5EDC7DDB, 0x09FA7C76, 0x792410DB), 0x62658CA1, 0xD262FF50);
    Next(58, Five(0xD262FF50, 0xC846093F, 0xD79915AB, 0x5EDC7DDB, 0x09FA7C76), 0x458544D6, 0x09D785FD);
    Next(59, Five(0x09D785FD, 0xD262FF50, 0xF211824F, 0xD79915AB, 0x5EDC7DDB), 0x44584CB7, 0x3F52DE5A);
    Next(60, Five(0x3F52DE5A, 0x09D785FD, 0x3498BFD4, 0xF211824F, 0xD79915AB), 0x7BA06619, 0xD756C147);
    Next(61, Five(0xD756C147, 0x3F52DE5A, 0x4275E17F, 0x3498BFD4, 0xF211824F), 0x6380AEA2, 0x548C9CB2);
    Next(62, Five(0x548C9CB2, 0xD756C147, 0x8FD4B796, 0x4275E17F, 0x3498BFD4), 0x0AE55269, 0xB66C020B);
    Next(63, Five(0xB66C020B, 0x548C9CB2, 0xF5D5B051, 0x8FD4B796, 0x4275E17F), 0x627B49A1, 0x6B61C9E1);
  }

  lemma States64()
    ensures StateIs(80, Five(0x42541B35, 0x5738D5E1, 0x21834873, 0x681E6DF6, 0xD8FDF6AD))
  {
    hide WordIs, StateIs;
    Words64();
    States48();
    Next(64, Five(0x6B61C9E1, 0xB66C020B, 0x9523272C, 0xF5D5B051, 0x8FD4B796), 0x7CD45C9D, 0x19DFA7AC);
    Next(65, Five(0x19DFA7AC, 0x6B61C9E1, 0xED9B0082, 0x9523272C, 0xF5D5B051), 0x000F0000, 0x101655F9);
    Next(66, Five(0x101655F9, 0x19DFA7AC, 0x5AD87278, 0xED9B0082, 0x9523272C), 0xFB50753A, 0x0C3DF2B4);
    Next(67, Five(0x0C3DF2B4, 0x101655F9, 0x0677E9EB, 0x5AD87278, 0xED9B0082), 0xEC6765E8, 0x78DD4D2B);
    Next(68, Five(0x78DD4D2B, 0x0C3DF2B4, 0x4405957E, 0x0677E9EB, 0x5AD87278), 0xBA3C2BE2, 0x497093C0);
    Next(69, Five(0x497093C0, 0x78DD4D2B, 0x030F7CAD, 0x4405957E, 0x0677E9EB), 0x0060C000, 0x3F2588C2);
    Next(70, Five(0x3F2588C2, 0x497093C0, 0xDE37534A, 0x030F7CAD, 0x4405957E), 0x3A37CD05, 0xC199F8C7);
    Next(71, Five(0xC199F8C7, 0x3F2588C2, 0x125C24F0, 0xDE37534A, 0x030F7CAD), 0x458546F4, 0x39859DE7);
    Next(72, Five(0x39859DE7, 0xC199F8C7, 0x8FC96230, 0x125C24F0, 0xDE37534A), 0xB8599DD6, 0xEDB42DE4);
    Next(73, Five(0xEDB42DE4, 0x39859DE7, 0xF0667E31, 0x8FC96230, 0x125C24F0), 0x380A1A26, 0x11793F6F);
    Next(74, Five(0x11793F6F, 0xEDB42DE4, 0xCE616779, 0xF0667E31, 0x8FC96230), 0x01E02203, 0x5EE76897);
    Next(75, Five(0x5EE76897, 0x11793F6F, 0x3B6D0B79, 0xCE616779, 0xF0667E31), 0xE7CC3456, 0x63F7DAB7);
    Next(76, Five(0x63F7DAB7, 0x5EE76897, 0xC45E4FDB, 0x3B6D0B79, 0xCE616779), 0xE6E60B69, 0xA079B7D9);
    Next(77, Five(0xA079B7D9, 0x63F7DAB7, 0xD7B9DA25, 0xC45E4FDB, 0x3B6D0B79), 0x00F60A00, 0x860D21CC);
    Next(78, Five(0x860D21CC, 0xA079B7D9, 0xD8FDF6AD, 0xD7B9DA25, 0xC45E4FDB), 0x5795EF4F, 0x5738D5E1);
    Next(79, Five(0x5738D5E1, 0x860D21CC, 0x681E6DF6, 0xD8FDF6AD, 0xD7B9DA25), 0x822E0879, 0x42541B35);
  }

  lemma Compressed()
    ensures Plus(H0, Rounds(BLOCK, H0, 80)) == Five(0xA9993E36, 0x4706816A, 0xBA3E2571, 0x7850C26C, 0x9CD0D89D)
  {
    States64();
    hide Rounds;
  }

  // ---------- The digest ----------

  lemma LengthOf24()
    ensures LengthBytes(24) == [0, 0, 0, 0, 0, 0, 0, 24]
  {
  }

  lemma PaddedAbc()
    ensures var p := Padded(ABC);
            && |p| == 64 && p[0] == 0x61 && p[1] == 0x62 && p[2] == 0x63 && p[3] == 0x80 && p[63] == 24
            && forall i :: 4 <= i < 63 ==> p[i] == 0
  {
    var p := Padded(ABC);
    LengthOf24();
    assert PadZeros(3) == 52;
    hide LengthBytes, PadZeros;
    var l := LengthBytes(24);
    assert p == ABC + [0x80] + Zeros(52) + l;
    assert forall i :: 56 <= i < 64 ==> p[i] == l[i - 56];
  }

  lemma AbcBlock(p: seq<bv8>)
    requires |p| == 64 && p[0] == 0x61 && p[1] == 0x62 && p[2] == 0x63 && p[3] == 0x80 && p[63] == 24
    requires forall i :: 4 <= i < 63 ==> p[i] == 0
    ensures Words(p) == BLOCK
  {
    assert BigWord(0x61, 0x62, 0x63, 0x80) == 0x61626380 && BigWord(0, 0, 0, 0) == 0 && BigWord(0, 0, 0, 24) == 24;
    hide BigWord;
    forall t | 0 <= t < 16 ensures Words(p)[t] == BLOCK[t] {
      assert Words(p)[t] == BigWord(p[4 * t], p[4 * t + 1], p[4 * t + 2], p[4 * t + 3]);
    }
  }

  lemma OneBlock(p: seq<bv8>)
    requires |p| == 64
    ensures HashAll(H0, p) == Plus(H0, Rounds(Words(p), H0, 80))
    ensures p == Padded(ABC) ==> Hash(ABC) == Digest(HashAll(H0, p))
  {
    hide Rounds, Words, Padded, Digest;
    assert p[..64] == p && p[64..] == [];
    assert HashAll(H0, p) == Compress(H0, p);
  }

  lemma DigestIs()
    ensures Digest(Five(0xA9993E36, 0x4706816A, 0xBA3E2571, 0x7850C26C, 0x9CD0D89D)) ==
            [0xA9, 0x99, 0x3E, 0x36, 0x47, 0x06, 0x81, 0x6A, 0xBA, 0x3E, 0x25, 0x71, 0x78, 0x50, 0xC2, 0x6C,
             0x9C, 0xD0, 0xD8, 0x9D]
  {
  }

  /** The test vector. */
  lemma AbcDigest()
    ensures Hash(ABC) == [0xA9, 0x99, 0x3E, 0x36, 0x47, 0x06, 0x81, 0x6A, 0xBA, 0x3E, 0x25, 0x71, 0x78, 0x50, 0xC2, 0x6C,
                          0x9C, 0xD0, 0xD8, 0x9D]
  {
    var p := Padded(ABC);
    hide *;
    PaddedAbc();
    AbcBlock(p);
    Compressed();
    OneBlock(p);
    DigestIs();
  }

  /** The constants of the rounds are the square roots of 2, 3, 5 and 10, as binary fractions of 30 places. */
  lemma KIsRoot(t: nat)
    requires t < 80
    ensures var k := K(t) as nat; var n := if t < 20 then 2 else if t < 40 then 3 else if t < 60 then 5 else 10;
            k * k <= n * 0x1000_0000_0000_0000 < (k + 1) * (k + 1)
  {
  }
}
