/**
 A known answer: the digest of "abc", the first test of section 7.3 of RFC 3174. It settles
 every constant, rotation and byte order of Sha1.dfy at once.
 */
module KnownAnswer {
  import opened Bytes
  import opened Codec
  import opened Sha1

  const ABC: Str := [97, 98, 99]

  /** The one block of the padded message. */
  function Block(): (b: Str)
    ensures |b| == 64
  {
    ABC + [0x80] + Zeros(52) + [0, 0, 0, 0, 0, 0, 0, 24]
  }

  lemma PaddedAbc()
    ensures Pad(ABC) == Block()
  {
    assert PadZeros(3) == 52 && BitLength(3) == 24;
    LengthField();
  }

  lemma LengthField()
    ensures BE(24, 8) == [0, 0, 0, 0, 0, 0, 0, 24]
  {
    assert BE(0, 0) == [] && BE(0, 1) == [0] && BE(0, 2) == [0, 0] && BE(0, 3) == [0, 0, 0];
    assert BE(0, 4) == [0, 0, 0, 0] && BE(0, 5) == [0, 0, 0, 0, 0] && BE(0, 6) == [0, 0, 0, 0, 0, 0];
    assert BE(0, 7) == [0, 0, 0, 0, 0, 0, 0];
  }

  // ----- the schedule -------------------------------------------------------

  predicate Is(t: nat, w: Word) { t < 80 && W(Block(), t) == w }

  /** Eight words of the schedule. */
  predicate Row(t: nat, a: Word, b: Word, c: Word, d: Word, e: Word, f: Word, g: Word, h: Word) {
    && Is(t, a) && Is(t + 1, b) && Is(t + 2, c) && Is(t + 3, d)
    && Is(t + 4, e) && Is(t + 5, f) && Is(t + 6, g) && Is(t + 7, h)
  }

  lemma FirstWord(t: nat, p: Byte, q: Byte, r: Byte, s: Byte)
    requires t < 16 && Block()[4 * t..4 * t + 4] == [p, q, r, s]
    ensures Is(t, BigEndian(p, q, r, s))
  {
    var b := Block()[4 * t..4 * t + 4];
    assert Block()[4 * t] == b[0] && Block()[4 * t + 1] == b[1];
    assert Block()[4 * t + 2] == b[2] && Block()[4 * t + 3] == b[3];
  }

  lemma NoWord(t: nat)
    requires 0 < t < 15
    ensures Is(t, 0)
  {
    assert Block()[4 * t..4 * t + 4] == [0, 0, 0, 0];
    FirstWord(t, 0, 0, 0, 0);
    assert BigEndian(0, 0, 0, 0) == 0;
  }

  lemma Next(t: nat, x: Word, y: Word, z: Word, v: Word)
    requires 16 <= t < 80 && Is(t - 3, x) && Is(t - 8, y) && Is(t - 14, z) && Is(t - 16, v)
    ensures Is(t, Mix(x, y, z, v))
  {
  }

  lemma Words0()
    ensures Row(0, 0x61626380, 0x00000000, 0x00000000, 0x00000000, 0x00000000, 0x00000000, 0x00000000, 0x00000000)
  {
    assert Block()[0..4] == [97, 98, 99, 0x80];
    FirstWord(0, 97, 98, 99, 0x80);
    assert BigEndian(97, 98, 99, 0x80) == 0x61626380;
    NoWord(1); NoWord(2); NoWord(3); NoWord(4); NoWord(5); NoWord(6); NoWord(7);
    hide Is;
  }

  lemma Words8()
    ensures Row(8, 0x00000000, 0x00000000, 0x00000000, 0x00000000, 0x00000000, 0x00000000, 0x00000000, 0x00000018)
  {
    assert Block()[60..64] == [0, 0, 0, 24];
    FirstWord(15, 0, 0, 0, 24);
    assert BigEndian(0, 0, 0, 24) == 0x00000018;
    NoWord(8); NoWord(9); NoWord(10); NoWord(11); NoWord(12); NoWord(13); NoWord(14);
    hide Is;
  }

  lemma Words16()
    ensures Row(16, 0xC2C4C700, 0x00000000, 0x00000030, 0x85898E01, 0x00000000, 0x00000060, 0x0B131C03, 0x00000030)
  {
    hide Is;
    Words0(); Words8();
    Next(16, 0x00000000, 0x00000000, 0x00000000, 0x61626380);
    Next(17, 0x00000000, 0x00000000, 0x00000000, 0x00000000);
    Next(18, 0x00000018, 0x00000000, 0x00000000, 0x00000000);
    Next(19, 0xC2C4C700, 0x00000000, 0x00000000, 0x00000000);
    Next(20, 0x00000000, 0x00000000, 0x00000000, 0x00000000);
    Next(21, 0x00000030, 0x00000000, 0x00000000, 0x00000000);
    Next(22, 0x85898E01, 0x00000000, 0x00000000, 0x00000000);
    Next(23, 0x00000000, 0x00000018, 0x00000000, 0x00000000);
  }

  lemma Words24()
    ensures Row(24, 0x85898EC1, 0x16263806, 0x00000000, 0x00000180, 0x2C4C700C, 0x000000F0, 0x93AFB507, 0x5898E048)
  {
    hide Is;
    Words8(); Words16();
    Next(24, 0x00000060, 0xC2C4C700, 0x00000000, 0x00000000);
    Next(25, 0x0B131C03, 0x00000000, 0x00000000, 0x00000000);
    Next(26, 0x00000030, 0x00000030, 0x00000000, 0x00000000);
    Next(27, 0x85898EC1, 0x85898E01, 0x00000000, 0x00000000);
    Next(28, 0x16263806, 0x00000000, 0x00000000, 0x00000000);
    Next(29, 0x00000000, 0x00000060, 0x00000018, 0x00000000);
    Next(30, 0x00000180, 0x0B131C03, 0xC2C4C700, 0x00000000);
    Next(31, 0x2C4C700C, 0x00000030, 0x00000000, 0x00000018);
  }

  lemma Words32()
    ensures Row(32, 0x8E9A9202, 0x00000600, 0xB131C0F0, 0x16263BC6, 0x4EBED41E, 0x626380A1, 0x16263806, 0x000018C0)
  {
    hide Is;
    Words16(); Words24();
    Next(32, 0x000000F0, 0x85898EC1, 0x00000030, 0xC2C4C700);
    Next(33, 0x93AFB507, 0x16263806, 0x85898E01, 0x00000000);
    Next(34, 0x5898E048, 0x00000000, 0x00000000, 0x00000030);
    Next(35, 0x8E9A9202, 0x00000180, 0x00000060, 0x85898E01);
    Next(36, 0x00000600, 0x2C4C700C, 0x0B131C03, 0x00000000);
    Next(37, 0xB131C0F0, 0x000000F0, 0x00000030, 0x00000060);
    Next(38, 0x16263BC6, 0x93AFB507, 0x85898EC1, 0x0B131C03);
    Next(39, 0x4EBED41E, 0x5898E048, 0x16263806, 0x00000030);
  }

  lemma Words40()
    ensures Row(40, 0xD2E138C4, 0x00000F00, 0x3AFB5079, 0x898E04E5, 0xE2BA3C2B, 0x000060C0, 0x053A37CD, 0x74458547)
  {
    hide Is;
    Words24(); Words32();
    Next(40, 0x626380A1, 0x8E9A9202, 0x00000000, 0x85898EC1);
    Next(41, 0x16263806, 0x00000600, 0x00000180, 0x16263806);
    Next(42, 0x000018C0, 0xB131C0F0, 0x2C4C700C, 0x00000000);
    Next(43, 0xD2E138C4, 0x16263BC6, 0x000000F0, 0x00000180);
    Next(44, 0x00000F00, 0x4EBED41E, 0x93AFB507, 0x2C4C700C);
    Next(45, 0x3AFB5079, 0x626380A1, 0x5898E048, 0x000000F0);
    Next(46, 0x898E04E5, 0x16263806, 0x8E9A9202, 0x93AFB507);
    Next(47, 0xE2BA3C2B, 0x000018C0, 0x00000600, 0x5898E048);
  }

  lemma Words48()
    ensures Row(48, 0xDA9415ED, 0x26380A16, 0x626383A1, 0x4EBF54DE, 0x3835B44B, 0x0000F600, 0x1E84C7A3, 0x98E04D98)
  {
    hide Is;
    Words32(); Words40();
    Next(48, 0x000060C0, 0xD2E138C4, 0xB131C0F0, 0x8E9A9202);
    Next(49, 0x053A37CD, 0x00000F00, 0x16263BC6, 0x00000600);
    Next(50, 0x74458547, 0x3AFB5079, 0x4EBED41E, 0xB131C0F0);
    Next(51, 0xDA9415ED, 0x898E04E5, 0x626380A1, 0x16263BC6);
    Next(52, 0x26380A16, 0xE2BA3C2B, 0x16263806, 0x4EBED41E);
    Next(53, 0x626383A1, 0x000060C0, 0x000018C0, 0x626380A1);
    Next(54, 0x4EBF54DE, 0x053A37CD, 0xD2E138C4, 0x16263806);
    Next(55, 0x3835B44B, 0x74458547, 0x00000F00, 0x000018C0);
  }

  lemma Words56()
    ensures Row(56, 0x651D16A0, 0x62658CA1, 0x458544D6, 0x44584CB7, 0x7BA06619, 0x6380AEA2, 0x0AE55269, 0x627B49A1)
  {
    hide Is;
    Words40(); Words48();
    Next(56, 0x0000F600, 0xDA9415ED, 0x3AFB5079, 0xD2E138C4);
    Next(57, 0x1E84C7A3, 0x26380A16, 0x898E04E5, 0x00000F00);
    Next(58, 0x98E04D98, 0x626383A1, 0xE2BA3C2B, 0x3AFB5079);
    Next(59, 0x651D16A0, 0x4EBF54DE, 0x000060C0, 0x898E04E5);
    Next(60, 0x62658CA1, 0x3835B44B, 0x053A37CD, 0xE2BA3C2B);
    Next(61, 0x458544D6, 0x0000F600, 0x74458547, 0x000060C0);
    Next(62, 0x44584CB7, 0x1E84C7A3, 0xDA9415ED, 0x053A37CD);
    Next(63, 0x7BA06619, 0x98E04D98, 0x26380A16, 0x74458547);
  }

  lemma Words64()
    ensures Row(64, 0x7CD45C9D, 0x000F0000, 0xFB50753A, 0xEC6765E8, 0xBA3C2BE2, 0x0060C000, 0x3A37CD05, 0x458546F4)
  {
    hide Is;
    Words48(); Words56();
    Next(64, 0x6380AEA2, 0x651D16A0, 0x626383A1, 0xDA9415ED);
    Next(65, 0x0AE55269, 0x62658CA1, 0x4EBF54DE, 0x26380A16);
    Next(66, 0x627B49A1, 0x458544D6, 0x3835B44B, 0x626383A1);
    Next(67, 0x7CD45C9D, 0x44584CB7, 0x0000F600, 0x4EBF54DE);
    Next(68, 0x000F0000, 0x7BA06619, 0x1E84C7A3, 0x3835B44B);
    Next(69, 0xFB50753A, 0x6380AEA2, 0x98E04D98, 0x0000F600);
    Next(70, 0xEC6765E8, 0x0AE55269, 0x651D16A0, 0x1E84C7A3);
    Next(71, 0xBA3C2BE2, 0x627B49A1, 0x62658CA1, 0x98E04D98);
  }

  lemma Words72()
    ensures Row(72, 0xB8599DD6, 0x380A1A26, 0x01E02203, 0xE7CC3456, 0xE6E60B69, 0x00F60A00, 0x5795EF4F, 0x822E0879)
  {
    hide Is;
    Words56(); Words64();
    Next(72, 0x0060C000, 0x7CD45C9D, 0x458544D6, 0x651D16A0);
    Next(73, 0x3A37CD05, 0x000F0000, 0x44584CB7, 0x62658CA1);
    Next(74, 0x458546F4, 0xFB50753A, 0x7BA06619, 0x458544D6);
    Next(75, 0xB8599DD6, 0xEC6765E8, 0x6380AEA2, 0x44584CB7);
    Next(76, 0x380A1A26, 0xBA3C2BE2, 0x0AE55269, 0x7BA06619);
    Next(77, 0x01E02203, 0x0060C000, 0x627B49A1, 0x6380AEA2);
    Next(78, 0xE7CC3456, 0x3A37CD05, 0x7CD45C9D, 0x0AE55269);
    Next(79, 0xE6E60B69, 0x458546F4, 0x000F0000, 0x627B49A1);
  }

  // ----- the rounds ---------------------------------------------------------

  /** The registers before round t. */
  predicate At(t: nat, a: Word, b: Word, c: Word, d: Word, e: Word) {
    t <= 80 && Rounds(Block(), Initial, t) == Regs(a, b, c, d, e)
  }

  lemma Turn(t: nat, a: Word, b: Word, c: Word, d: Word, e: Word, w: Word)
    requires t < 80 && At(t, a, b, c, d, e) && Is(t, w)
    ensures At(t + 1, Temp(a, F(t, b, c, d), e, K(t), w), a, Rol(b, 30), c, d)
  {
    RoundsStep(Block(), Initial, t);
  }

  lemma Start()
    ensures At(0, 0x67452301, 0xEFCDAB89, 0x98BADCFE, 0x10325476, 0xC3D2E1F0)
  {
  }

  lemma Turns0()
    ensures At(8, 0x9E8C07D4, 0x993E30C1, 0x0FF1F290, 0xB3F52677, 0xF3763846)
  {
    Start();
    Words0();
    hide At, Is;
    Turn(0, 0x67452301, 0xEFCDAB89, 0x98BADCFE, 0x10325476, 0xC3D2E1F0, 0x61626380);
    Turn(1, 0x0116FC33, 0x67452301, 0x7BF36AE2, 0x98BADCFE, 0x10325476, 0x00000000);
    Turn(2, 0x8990536D, 0x0116FC33, 0x59D148C0, 0x7BF36AE2, 0x98BADCFE, 0x00000000);
    Turn(3, 0xA1390F08, 0x8990536D, 0xC045BF0C, 0x59D148C0, 0x7BF36AE2, 0x00000000);
    Turn(4, 0xCDD8E11B, 0xA1390F08, 0x626414DB, 0xC045BF0C, 0x59D148C0, 0x00000000);
    Turn(5, 0xCFD499DE, 0xCDD8E11B, 0x284E43C2, 0x626414DB, 0xC045BF0C, 0x00000000);
    Turn(6, 0x3FC7CA40, 0xCFD499DE, 0xF3763846, 0x284E43C2, 0x626414DB, 0x00000000);
    Turn(7, 0x993E30C1, 0x3FC7CA40, 0xB3F52677, 0xF3763846, 0x284E43C2, 0x00000000);
  }

  lemma Turns8()
    ensures At(16, 0x20BDD62F, 0x196BEE77, 0x644A3DA5, 0x1181ED99, 0x18C623F9)
  {
    Turns0();
    Words8();
    hide At, Is;
    Turn(8, 0x9E8C07D4, 0x993E30C1, 0x0FF1F290, 0xB3F52677, 0xF3763846, 0x00000000);
    Turn(9, 0x4B6AE328, 0x9E8C07D4, 0x664F8C30, 0x0FF1F290, 0xB3F52677, 0x00000000);
    Turn(10, 0x8351F929, 0x4B6AE328, 0x27A301F5, 0x664F8C30, 0x0FF1F290, 0x00000000);
    Turn(11, 0xFBDA9E89, 0x8351F929, 0x12DAB8CA, 0x27A301F5, 0x664F8C30, 0x00000000);
    Turn(12, 0x63188FE4, 0xFBDA9E89, 0x60D47E4A, 0x12DAB8CA, 0x27A301F5, 0x00000000);
    Turn(13, 0x4607B664, 0x63188FE4, 0x7EF6A7A2, 0x60D47E4A, 0x12DAB8CA, 0x00000000);
    Turn(14, 0x9128F695, 0x4607B664, 0x18C623F9, 0x7EF6A7A2, 0x60D47E4A, 0x00000000);
    Turn(15, 0x196BEE77, 0x9128F695, 0x1181ED99, 0x18C623F9, 0x7EF6A7A2, 0x00000018);
  }

  lemma Turns16()
    ensures At(24, 0xD541F12D, 0x21283486, 0x0CE88EFF, 0x868DEC32, 0x7F67875F)
  {
    Turns8();
    Words16();
    hide At, Is;
    Turn(16, 0x20BDD62F, 0x196BEE77, 0x644A3DA5, 0x1181ED99, 0x18C623F9, 0xC2C4C700);
    Turn(17, 0x4E925823, 0x20BDD62F, 0xC65AFB9D, 0x644A3DA5, 0x1181ED99, 0x00000000);
    Turn(18, 0x82AA6728, 0x4E925823, 0xC82F758B, 0xC65AFB9D, 0x644A3DA5, 0x00000030);
    Turn(19, 0xDC64901D, 0x82AA6728, 0xD3A49608, 0xC82F758B, 0xC65AFB9D, 0x85898E01);
    Turn(20, 0xFD9E1D7D, 0xDC64901D, 0x20AA99CA, 0xD3A49608, 0xC82F758B, 0x00000000);
    Turn(21, 0x1A37B0CA, 0xFD9E1D7D, 0x77192407, 0x20AA99CA, 0xD3A49608, 0x00000060);
    Turn(22, 0x33A23BFC, 0x1A37B0CA, 0x7F67875F, 0x77192407, 0x20AA99CA, 0x0B131C03);
    Turn(23, 0x21283486, 0x33A23BFC, 0x868DEC32, 0x7F67875F, 0x77192407, 0x00000030);
  }

  lemma Turns24()
    ensures At(32, 0x3B845D33, 0x1267B407, 0x717EEBD7, 0xA0DC2D4B, 0xD2AA1365)
  {
    Turns16();
    Words24();
    hide At, Is;
    Turn(24, 0xD541F12D, 0x21283486, 0x0CE88EFF, 0x868DEC32, 0x7F67875F, 0x85898EC1);
    Turn(25, 0xC7567DC6, 0xD541F12D, 0x884A0D21, 0x0CE88EFF, 0x868DEC32, 0x16263806);
    Turn(26, 0x48413BA4, 0xC7567DC6, 0x75507C4B, 0x884A0D21, 0x0CE88EFF, 0x00000000);
    Turn(27, 0xBE35FBD5, 0x48413BA4, 0xB1D59F71, 0x75507C4B, 0x884A0D21, 0x00000180);
    Turn(28, 0x4AA84D97, 0xBE35FBD5, 0x12104EE9, 0xB1D59F71, 0x75507C4B, 0x2C4C700C);
    Turn(29, 0x8370B52E, 0x4AA84D97, 0x6F8D7EF5, 0x12104EE9, 0xB1D59F71, 0x000000F0);
    Turn(30, 0xC5FBAF5D, 0x8370B52E, 0xD2AA1365, 0x6F8D7EF5, 0x12104EE9, 0x93AFB507);
    Turn(31, 0x1267B407, 0xC5FBAF5D, 0xA0DC2D4B, 0xD2AA1365, 0x6F8D7EF5, 0x5898E048);
  }

  lemma Turns32()
    ensures At(40, 0x32DE1CBA, 0x4C986405, 0xF718E5CF, 0x03D447F6, 0xF72EEC32)
  {
    Turns24();
    Words32();
    hide At, Is;
    Turn(32, 0x3B845D33, 0x1267B407, 0x717EEBD7, 0xA0DC2D4B, 0xD2AA1365, 0x8E9A9202);
    Turn(33, 0x046FAA0A, 0x3B845D33, 0xC499ED01, 0x717EEBD7, 0xA0DC2D4B, 0x00000600);
    Turn(34, 0x2C0EBC11, 0x046FAA0A, 0xCEE1174C, 0xC499ED01, 0x717EEBD7, 0xB131C0F0);
    Turn(35, 0x21796AD4, 0x2C0EBC11, 0x811BEA82, 0xCEE1174C, 0xC499ED01, 0x16263BC6);
    Turn(36, 0xDCBBB0CB, 0x21796AD4, 0x4B03AF04, 0x811BEA82, 0xCEE1174C, 0x4EBED41E);
    Turn(37, 0x0F511FD8, 0xDCBBB0CB, 0x085E5AB5, 0x4B03AF04, 0x811BEA82, 0x626380A1);
    Turn(38, 0xDC63973F, 0x0F511FD8, 0xF72EEC32, 0x085E5AB5, 0x4B03AF04, 0x16263806);
    Turn(39, 0x4C986405, 0xDC63973F, 0x03D447F6, 0xF72EEC32, 0x085E5AB5, 0x000018C0);
  }

  lemma Turns40()
    ensures At(48, 0xBEAD02CA, 0xA01B846C, 0x8714787C, 0x503CA382, 0xFB86C6AB)
  {
    Turns32();
    Words40();
    hide At, Is;
    Turn(40, 0x32DE1CBA, 0x4C986405, 0xF718E5CF, 0x03D447F6, 0xF72EEC32, 0xD2E138C4);
    Turn(41, 0xFC87DEDF, 0x32DE1CBA, 0x53261901, 0xF718E5CF, 0x03D447F6, 0x00000F00);
    Turn(42, 0x970A0D5C, 0xFC87DEDF, 0x8CB7872E, 0x53261901, 0xF718E5CF, 0x3AFB5079);
    Turn(43, 0x7F193DC5, 0x970A0D5C, 0xFF21F7B7, 0x8CB7872E, 0x53261901, 0x898E04E5);
    Turn(44, 0xEE1B1AAF, 0x7F193DC5, 0x25C28357, 0xFF21F7B7, 0x8CB7872E, 0xE2BA3C2B);
    Turn(45, 0x40F28E09, 0xEE1B1AAF, 0x5FC64F71, 0x25C28357, 0xFF21F7B7, 0x000060C0);
    Turn(46, 0x1C51E1F2, 0x40F28E09, 0xFB86C6AB, 0x5FC64F71, 0x25C28357, 0x053A37CD);
    Turn(47, 0xA01B846C, 0x1C51E1F2, 0x503CA382, 0xFB86C6AB, 0x5FC64F71, 0x74458547);
  }

  lemma Turns48()
    ensures At(56, 0x5E6456AF, 0x7B71F76D, 0x09FA7C76, 0x792410DB, 0x8E11EB59)
  {
    Turns40();
    Words48();
    hide At, Is;
    Turn(48, 0xBEAD02CA, 0xA01B846C, 0x8714787C, 0x503CA382, 0xFB86C6AB, 0xDA9415ED);
    Turn(49, 0xBAF39337, 0xBEAD02CA, 0x2806E11B, 0x8714787C, 0x503CA382, 0x26380A16);
    Turn(50, 0x120731C5, 0xBAF39337, 0xAFAB40B2, 0x2806E11B, 0x8714787C, 0x626383A1);
    Turn(51, 0x641DB2CE, 0x120731C5, 0xEEBCE4CD, 0xAFAB40B2, 0x2806E11B, 0x4EBF54DE);
    Turn(52, 0x3847AD66, 0x641DB2CE, 0x4481CC71, 0xEEBCE4CD, 0xAFAB40B2, 0x3835B44B);
    Turn(53, 0xE490436D, 0x3847AD66, 0x99076CB3, 0x4481CC71, 0xEEBCE4CD, 0x0000F600);
    Turn(54, 0x27E9F1D8, 0xE490436D, 0x8E11EB59, 0x99076CB3, 0x4481CC71, 0x1E84C7A3);
    Turn(55, 0x7B71F76D, 0x27E9F1D8, 0x792410DB, 0x8E11EB59, 0x99076CB3, 0x98E04D98);
  }

  lemma Turns56()
    ensures At(64, 0x6B61C9E1, 0xB66C020B, 0x9523272C, 0xF5D5B051, 0x8FD4B796)
  {
    Turns48();
    Words56();
    hide At, Is;
    Turn(56, 0x5E6456AF, 0x7B71F76D, 0x09FA7C76, 0x792410DB, 0x8E11EB59, 0x651D16A0);
    Turn(57, 0xC846093F, 0x5E6456AF, 0x5EDC7DDB, 0x09FA7C76, 0x792410DB, 0x62658CA1);
    Turn(58, 0xD262FF50, 0xC846093F, 0xD79915AB, 0x5EDC7DDB, 0x09FA7C76, 0x458544D6);
    Turn(59, 0x09D785FD, 0xD262FF50, 0xF211824F, 0xD79915AB, 0x5EDC7DDB, 0x44584CB7);
    Turn(60, 0x3F52DE5A, 0x09D785FD, 0x3498BFD4, 0xF211824F, 0xD79915AB, 0x7BA06619);
    Turn(61, 0xD756C147, 0x3F52DE5A, 0x4275E17F, 0x3498BFD4, 0xF211824F, 0x6380AEA2);
    Turn(62, 0x548C9CB2, 0xD756C147, 0x8FD4B796, 0x4275E17F, 0x3498BFD4, 0x0AE55269);
    Turn(63, 0xB66C020B, 0x548C9CB2, 0xF5D5B051, 0x8FD4B796, 0x4275E17F, 0x627B49A1);
  }

  lemma Turns64()
    ensures At(72, 0x39859DE7, 0xC199F8C7, 0x8FC96230, 0x125C24F0, 0xDE37534A)
  {
    Turns56();
    Words64();
    hide At, Is;
    Turn(64, 0x6B61C9E1, 0xB66C020B, 0x9523272C, 0xF5D5B051, 0x8FD4B796, 0x7CD45C9D);
    Turn(65, 0x19DFA7AC, 0x6B61C9E1, 0xED9B0082, 0x9523272C, 0xF5D5B051, 0x000F0000);
    Turn(66, 0x101655F9, 0x19DFA7AC, 0x5AD87278, 0xED9B0082, 0x9523272C, 0xFB50753A);
    Turn(67, 0x0C3DF2B4, 0x101655F9, 0x0677E9EB, 0x5AD87278, 0xED9B0082, 0xEC6765E8);
    Turn(68, 0x78DD4D2B, 0x0C3DF2B4, 0x4405957E, 0x0677E9EB, 0x5AD87278, 0xBA3C2BE2);
    Turn(69, 0x497093C0, 0x78DD4D2B, 0x030F7CAD, 0x4405957E, 0x0677E9EB, 0x0060C000);
    Turn(70, 0x3F2588C2, 0x497093C0, 0xDE37534A, 0x030F7CAD, 0x4405957E, 0x3A37CD05);
    Turn(71, 0xC199F8C7, 0x3F2588C2, 0x125C24F0, 0xDE37534A, 0x030F7CAD, 0x458546F4);
  }

  lemma Turns72()
    ensures At(80, 0x42541B35, 0x5738D5E1, 0x21834873, 0x681E6DF6, 0xD8FDF6AD)
  {
    Turns64();
    Words72();
    hide At, Is;
    Turn(72, 0x39859DE7, 0xC199F8C7, 0x8FC96230, 0x125C24F0, 0xDE37534A, 0xB8599DD6);
    Turn(73, 0xEDB42DE4, 0x39859DE7, 0xF0667E31, 0x8FC96230, 0x125C24F0, 0x380A1A26);
    Turn(74, 0x11793F6F, 0xEDB42DE4, 0xCE616779, 0xF0667E31, 0x8FC96230, 0x01E02203);
    Turn(75, 0x5EE76897, 0x11793F6F, 0x3B6D0B79, 0xCE616779, 0xF0667E31, 0xE7CC3456);
    Turn(76, 0x63F7DAB7, 0x5EE76897, 0xC45E4FDB, 0x3B6D0B79, 0xCE616779, 0xE6E60B69);
    Turn(77, 0xA079B7D9, 0x63F7DAB7, 0xD7B9DA25, 0xC45E4FDB, 0x3B6D0B79, 0x00F60A00);
    Turn(78, 0x860D21CC, 0xA079B7D9, 0xD8FDF6AD, 0xD7B9DA25, 0xC45E4FDB, 0x5795EF4F);
    Turn(79, 0x5738D5E1, 0x860D21CC, 0x681E6DF6, 0xD8FDF6AD, 0xD7B9DA25, 0x822E0879);
  }

  // ----- the digest ---------------------------------------------------------

  lemma OneBlock(h: Chain, b: Str)
    requires |b| == 64
    ensures FoldBlocks(h, b) == Compress(h, b)
  {
    hide Compress;
    assert b[..64] == b && b[64..] == [];
    assert FoldBlocks(Compress(h, b), []) == Compress(h, b);
  }

  lemma Summed()
    ensures FoldBlocks(Initial, Block()) == [0xA9993E36, 0x4706816A, 0xBA3E2571, 0x7850C26C, 0x9CD0D89D]
  {
    Turns72();
    OneBlock(Initial, Block());
    CompressIs(Initial, Block());
    hide FoldBlocks, Compress, Rounds;
    var r := Rounds(Block(), Initial, 80);
    assert Plus(0x67452301, 0x42541B35) == 0xA9993E36;
    assert Plus(0xEFCDAB89, 0x5738D5E1) == 0x4706816A;
    assert Plus(0x98BADCFE, 0x21834873) == 0xBA3E2571;
    assert Plus(0x10325476, 0x681E6DF6) == 0x7850C26C;
    assert Plus(0xC3D2E1F0, 0xD8FDF6AD) == 0x9CD0D89D;
  }

  /** The eight digits of one word. */
  function Digits(w: Word): Str {
    [HexDigit(Nibble(w, 0)), HexDigit(Nibble(w, 1)), HexDigit(Nibble(w, 2)), HexDigit(Nibble(w, 3)),
     HexDigit(Nibble(w, 4)), HexDigit(Nibble(w, 5)), HexDigit(Nibble(w, 6)), HexDigit(Nibble(w, 7))]
  }

  lemma PrintedAt(x: Chain, i: nat, k: nat)
    requires i < 5 && k < 8
    ensures Hex(x)[8 * i + k] == HexDigit(Nibble(x[i], k))
  {
    hide HexDigit, Nibble;
    assert (8 * i + k) / 8 == i && (8 * i + k) % 8 == k;
  }

  lemma DigitsAt(w: Word, k: nat)
    requires k < 8
    ensures Digits(w)[k] == HexDigit(Nibble(w, k))
  {
    hide HexDigit, Nibble;
  }

  lemma SliceIs(s: Str, at: nat, d: Str)
    requires at + |d| <= |s| && forall k: nat | k < |d| :: s[at + k] == d[k]
    ensures s[at..at + |d|] == d
  {
  }

  lemma Printed(x: Chain, i: nat)
    requires i < 5
    ensures Hex(x)[8 * i..8 * i + 8] == Digits(x[i])
  {
    forall k: nat | k < 8 ensures Hex(x)[8 * i + k] == Digits(x[i])[k] {
      PrintedAt(x, i, k);
      DigitsAt(x[i], k);
    }
    hide Hex, HexDigit, Nibble;
    SliceIs(Hex(x), 8 * i, Digits(x[i]));
  }

  /** The print of a word, in the codes of its characters. */
  lemma Print0()
    ensures Digits(0xA9993E36) == [97, 57, 57, 57, 51, 101, 51, 54]
  {
  }

  lemma Print1()
    ensures Digits(0x4706816A) == [52, 55, 48, 54, 56, 49, 54, 97]
  {
  }

  lemma Print2()
    ensures Digits(0xBA3E2571) == [98, 97, 51, 101, 50, 53, 55, 49]
  {
  }

  lemma Print3()
    ensures Digits(0x7850C26C) == [55, 56, 53, 48, 99, 50, 54, 99]
  {
  }

  lemma Print4()
    ensures Digits(0x9CD0D89D) == [57, 99, 100, 48, 100, 56, 57, 100]
  {
  }

  /** SHA-1 of "abc" is a9993e36 4706816a ba3e2571 7850c26c 9cd0d89d. */
  lemma DigestOfAbc()
    ensures HexDigest(ABC)[0..8] == [97, 57, 57, 57, 51, 101, 51, 54]
    ensures HexDigest(ABC)[8..16] == [52, 55, 48, 54, 56, 49, 54, 97]
    ensures HexDigest(ABC)[16..24] == [98, 97, 51, 101, 50, 53, 55, 49]
    ensures HexDigest(ABC)[24..32] == [55, 56, 53, 48, 99, 50, 54, 99]
    ensures HexDigest(ABC)[32..40] == [57, 99, 100, 48, 100, 56, 57, 100]
  {
    PaddedAbc();
    Summed();
    var x := FoldBlocks(Initial, Block());
    Print0(); Print1(); Print2(); Print3(); Print4();
    hide Hex, FoldBlocks, Digits;
    Printed(x, 0); Printed(x, 1); Printed(x, 2); Printed(x, 3); Printed(x, 4);
  }
}
