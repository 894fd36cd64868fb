/** A known digest: SHA-1 of the text "abc" (section A.1 of FIPS 180-2), step by step. */
module Sha1Example {
  import opened Bytes
  import opened Sha1

  /** The one block of the padded message. */
  function Abc(): Block { [97, 98, 99, 128] + Filled(52) + [0, 0, 0, 0, 0, 0, 0, 24] }

  lemma PaddedAbc()
    ensures Padded([97, 98, 99]) == Abc() && Chop(Padded([97, 98, 99])) == [Abc()]
  {
    LastBytes();
    var p := Padded([97, 98, 99]);
    assert p == [97, 98, 99] + [0x80] + Filled(52) + ToBytes(24, 8);
    assert p == Abc();
    assert p[..64] == p && p[64..] == [];
    assert Chop([]) == [];
  }

  lemma LastBytes()
    ensures ToBytes(24, 8) == [0, 0, 0, 0, 0, 0, 0, 24]
  {
    NoBytes(7);
    assert ToBytes(24, 8) == ToBytes(0, 7) + [24];
  }

  /** Word `t` of the schedule. */
  function W(t: nat): Word
    requires t < 80
  {
    Schedule(Abc(), 80)[t]
  }

  lemma {:induction false} Prefix(t: nat, n: nat)
    requires t <= n <= 80
    ensures Schedule(Abc(), n)[..t] == Schedule(Abc(), t)
    decreases n
  {
    hide NextWord;
    if t < n {
      Prefix(t, n - 1);
      assert Schedule(Abc(), n)[..t] == Schedule(Abc(), n - 1)[..t];
    } else {
      assert Schedule(Abc(), n)[..t] == Schedule(Abc(), n);
    }
  }

  lemma WordIs(t: nat)
    requires t < 80
    ensures W(t) == NextWord(Abc(), Schedule(Abc(), t))
    ensures 16 <= t ==> W(t) == RotL1(W(t - 3) ^ W(t - 8) ^ W(t - 14) ^ W(t - 16))
  {
    Prefix(t + 1, 80);
    Prefix(t, 80);
    hide Schedule;
    assert W(t) == Schedule(Abc(), 80)[..t + 1][t];
    NextIs(t);
    if 16 <= t {
      assert Schedule(Abc(), t)[t - 3] == W(t - 3) && Schedule(Abc(), t)[t - 8] == W(t - 8);
      assert Schedule(Abc(), t)[t - 14] == W(t - 14) && Schedule(Abc(), t)[t - 16] == W(t - 16);
    }
  }

  lemma NextIs(t: nat)
    requires t < 80
    ensures Schedule(Abc(), t + 1)[t] == NextWord(Abc(), Schedule(Abc(), t))
  {
    hide NextWord;
  }

  /** The working variables after `t` steps. */
  function After(t: nat): Digest
    requires t <= 80
  {
    Steps(INITIAL, Schedule(Abc(), 80), t)
  }

  lemma AfterIs(t: nat)
    requires t < 80
    ensures After(0) == INITIAL && After(t + 1) == Step(After(t), t, W(t))
  {
    hide Step, Schedule;
  }

  lemma WordValues()
    ensures WordOf(97, 98, 99, 128) == 0x61626380 && WordOf(0, 0, 0, 24) == 0x18 && WordOf(0, 0, 0, 0) == 0
  {
  }

  lemma BlockBytes(i: nat)
    requires i < 64
    ensures Abc()[i] == if i == 0 then 97 else if i == 1 then 98 else if i == 2 then 99 else if i == 3 then 128
                        else if i == 63 then 24 else 0
  {
  }

  lemma FirstWord(t: nat)
    requires t < 16
    ensures W(t) == WordOf(Abc()[4 * t], Abc()[4 * t + 1], Abc()[4 * t + 2], Abc()[4 * t + 3])
  {
    WordIs(t);
    hide W, WordOf, Abc;
  }

  lemma FirstWords()
    ensures W(0) == 0x61626380 && W(15) == 0x18 && forall t :: 0 < t < 15 ==> W(t) == 0
  {
    hide W, WordOf, Abc;
    WordValues();
    forall t | 0 <= t < 16
      ensures W(t) == if t == 0 then 0x61626380 else if t == 15 then 0x18 else 0
    {
      FirstWord(t);
      BlockBytes(4 * t);
      BlockBytes(4 * t + 1);
      BlockBytes(4 * t + 2);
      BlockBytes(4 * t + 3);
    }
  }

  lemma NextWordIs(t: nat, a: Word, b: Word, c: Word, d: Word)
    requires 16 <= t < 80 && W(t - 3) == a && W(t - 8) == b && W(t - 14) == c && W(t - 16) == d
    ensures W(t) == RotL1(a ^ b ^ c ^ d)
  {
    WordIs(t);
    hide W, RotL1;
  }

  lemma Words0()
    ensures W(16) == 0xc2c4c700 && W(17) == 0x00000000 && W(18) == 0x00000030 && W(19) == 0x85898e01
    ensures W(20) == 0x00000000 && W(21) == 0x00000060 && W(22) == 0x0b131c03 && W(23) == 0x00000030
    ensures W(24) == 0x85898ec1 && W(25) == 0x16263806 && W(26) == 0x00000000 && W(27) == 0x00000180
    ensures W(28) == 0x2c4c700c && W(29) == 0x000000f0 && W(30) == 0x93afb507 && W(31) == 0x5898e048
  {
    hide W;
    FirstWords();
    NextWordIs(16, 0x00000000, 0x00000000, 0x00000000, 0x61626380);
    NextWordIs(17, 0x00000000, 0x00000000, 0x00000000, 0x00000000);
    NextWordIs(18, 0x00000018, 0x00000000, 0x00000000, 0x00000000);
    NextWordIs(19, 0xc2c4c700, 0x00000000, 0x00000000, 0x00000000);
    NextWordIs(20, 0x00000000, 0x00000000, 0x00000000, 0x00000000);
    NextWordIs(21, 0x00000030, 0x00000000, 0x00000000, 0x00000000);
    NextWordIs(22, 0x85898e01, 0x00000000, 0x00000000, 0x00000000);
    NextWordIs(23, 0x00000000, 0x00000018, 0x00000000, 0x00000000);
    NextWordIs(24, 0x00000060, 0xc2c4c700, 0x00000000, 0x00000000);
    NextWordIs(25, 0x0b131c03, 0x00000000, 0x00000000, 0x00000000);
    NextWordIs(26, 0x00000030, 0x00000030, 0x00000000, 0x00000000);
    NextWordIs(27, 0x85898ec1, 0x85898e01, 0x00000000, 0x00000000);
    NextWordIs(28, 0x16263806, 0x00000000, 0x00000000, 0x00000000);
    NextWordIs(29, 0x00000000, 0x00000060, 0x00000018, 0x00000000);
    NextWordIs(30, 0x00000180, 0x0b131c03, 0xc2c4c700, 0x00000000);
    NextWordIs(31, 0x2c4c700c, 0x00000030, 0x00000000, 0x00000018);
  }

  lemma Words1()
    ensures W(32) == 0x8e9a9202 && W(33) == 0x00000600 && W(34) == 0xb131c0f0 && W(35) == 0x16263bc6
    ensures W(36) == 0x4ebed41e && W(37) == 0x626380a1 && W(38) == 0x16263806 && W(39) == 0x000018c0
    ensures W(40) == 0xd2e138c4 && W(41) == 0x00000f00 && W(42) == 0x3afb5079 && W(43) == 0x898e04e5
    ensures W(44) == 0xe2ba3c2b && W(45) == 0x000060c0 && W(46) == 0x053a37cd && W(47) == 0x74458547
  {
    hide W;
    Words0();
    NextWordIs(32, 0x000000f0, 0x85898ec1, 0x00000030, 0xc2c4c700);
    NextWordIs(33, 0x93afb507, 0x16263806, 0x85898e01, 0x00000000);
    NextWordIs(34, 0x5898e048, 0x00000000, 0x00000000, 0x00000030);
    NextWordIs(35, 0x8e9a9202, 0x00000180, 0x00000060, 0x85898e01);
    NextWordIs(36, 0x00000600, 0x2c4c700c, 0x0b131c03, 0x00000000);
    NextWordIs(37, 0xb131c0f0, 0x000000f0, 0x00000030, 0x00000060);
    NextWordIs(38, 0x16263bc6, 0x93afb507, 0x85898ec1, 0x0b131c03);
    NextWordIs(39, 0x4ebed41e, 0x5898e048, 0x16263806, 0x00000030);
    NextWordIs(40, 0x626380a1, 0x8e9a9202, 0x00000000, 0x85898ec1);
    NextWordIs(41, 0x16263806, 0x00000600, 0x00000180, 0x16263806);
    NextWordIs(42, 0x000018c0, 0xb131c0f0, 0x2c4c700c, 0x00000000);
    NextWordIs(43, 0xd2e138c4, 0x16263bc6, 0x000000f0, 0x00000180);
    NextWordIs(44, 0x00000f00, 0x4ebed41e, 0x93afb507, 0x2c4c700c);
    NextWordIs(45, 0x3afb5079, 0x626380a1, 0x5898e048, 0x000000f0);
    NextWordIs(46, 0x898e04e5, 0x16263806, 0x8e9a9202, 0x93afb507);
    NextWordIs(47, 0xe2ba3c2b, 0x000018c0, 0x00000600, 0x5898e048);
  }

  lemma Words2()
    ensures W(48) == 0xda9415ed && W(49) == 0x26380a16 && W(50) == 0x626383a1 && W(51) == 0x4ebf54de
    ensures W(52) == 0x3835b44b && W(53) == 0x0000f600 && W(54) == 0x1e84c7a3 && W(55) == 0x98e04d98
    ensures W(56) == 0x651d16a0 && W(57) == 0x62658ca1 && W(58) == 0x458544d6 && W(59) == 0x44584cb7
    ensures W(60) == 0x7ba06619 && W(61) == 0x6380aea2 && W(62) == 0x0ae55269 && W(63) == 0x627b49a1
  {
    hide W;
    Words1();
    NextWordIs(48, 0x000060c0, 0xd2e138c4, 0xb131c0f0, 0x8e9a9202);
    NextWordIs(49, 0x053a37cd, 0x00000f00, 0x16263bc6, 0x00000600);
    NextWordIs(50, 0x74458547, 0x3afb5079, 0x4ebed41e, 0xb131c0f0);
    NextWordIs(51, 0xda9415ed, 0x898e04e5, 0x626380a1, 0x16263bc6);
    NextWordIs(52, 0x26380a16, 0xe2ba3c2b, 0x16263806, 0x4ebed41e);
    NextWordIs(53, 0x626383a1, 0x000060c0, 0x000018c0, 0x626380a1);
    NextWordIs(54, 0x4ebf54de, 0x053a37cd, 0xd2e138c4, 0x16263806);
    NextWordIs(55, 0x3835b44b, 0x74458547, 0x00000f00, 0x000018c0);
    NextWordIs(56, 0x0000f600, 0xda9415ed, 0x3afb5079, 0xd2e138c4);
    NextWordIs(57, 0x1e84c7a3, 0x26380a16, 0x898e04e5, 0x00000f00);
    NextWordIs(58, 0x98e04d98, 0x626383a1, 0xe2ba3c2b, 0x3afb5079);
    NextWordIs(59, 0x651d16a0, 0x4ebf54de, 0x000060c0, 0x898e04e5);
    NextWordIs(60, 0x62658ca1, 0x3835b44b, 0x053a37cd, 0xe2ba3c2b);
    NextWordIs(61, 0x458544d6, 0x0000f600, 0x74458547, 0x000060c0);
    NextWordIs(62, 0x44584cb7, 0x1e84c7a3, 0xda9415ed, 0x053a37cd);
    NextWordIs(63, 0x7ba06619, 0x98e04d98, 0x26380a16, 0x74458547);
  }

  lemma Words3()
    ensures W(64) == 0x7cd45c9d && W(65) == 0x000f0000 && W(66) == 0xfb50753a && W(67) == 0xec6765e8
    ensures W(68) == 0xba3c2be2 && W(69) == 0x0060c000 && W(70) == 0x3a37cd05 && W(71) == 0x458546f4
    ensures W(72) == 0xb8599dd6 && W(73) == 0x380a1a26 && W(74) == 0x01e02203 && W(75) == 0xe7cc3456
    ensures W(76) == 0xe6e60b69 && W(77) == 0x00f60a00 && W(78) == 0x5795ef4f && W(79) == 0x822e0879
  {
    hide W;
    Words2();
    NextWordIs(64, 0x6380aea2, 0x651d16a0, 0x626383a1, 0xda9415ed);
    NextWordIs(65, 0x0ae55269, 0x62658ca1, 0x4ebf54de, 0x26380a16);
    NextWordIs(66, 0x627b49a1, 0x458544d6, 0x3835b44b, 0x626383a1);
    NextWordIs(67, 0x7cd45c9d, 0x44584cb7, 0x0000f600, 0x4ebf54de);
    NextWordIs(68, 0x000f0000, 0x7ba06619, 0x1e84c7a3, 0x3835b44b);
    NextWordIs(69, 0xfb50753a, 0x6380aea2, 0x98e04d98, 0x0000f600);
    NextWordIs(70, 0xec6765e8, 0x0ae55269, 0x651d16a0, 0x1e84c7a3);
    NextWordIs(71, 0xba3c2be2, 0x627b49a1, 0x62658ca1, 0x98e04d98);
    NextWordIs(72, 0x0060c000, 0x7cd45c9d, 0x458544d6, 0x651d16a0);
    NextWordIs(73, 0x3a37cd05, 0x000f0000, 0x44584cb7, 0x62658ca1);
    NextWordIs(74, 0x458546f4, 0xfb50753a, 0x7ba06619, 0x458544d6);
    NextWordIs(75, 0xb8599dd6, 0xec6765e8, 0x6380aea2, 0x44584cb7);
    NextWordIs(76, 0x380a1a26, 0xba3c2be2, 0x0ae55269, 0x7ba06619);
    NextWordIs(77, 0x01e02203, 0x0060c000, 0x627b49a1, 0x6380aea2);
    NextWordIs(78, 0xe7cc3456, 0x3a37cd05, 0x7cd45c9d, 0x0ae55269);
    NextWordIs(79, 0xe6e60b69, 0x458546f4, 0x000f0000, 0x627b49a1);
  }

  lemma Steps0()
    ensures After(10) == Digest(0x8351f929, 0x4b6ae328, 0x27a301f5, 0x664f8c30, 0x0ff1f290)
  {
    hide W, After;
    FirstWords();
    AfterIs(0);
    assert After(1) == Digest(0x0116fc33, 0x67452301, 0x7bf36ae2, 0x98badcfe, 0x10325476);
    AfterIs(1);
    assert After(2) == Digest(0x8990536d, 0x0116fc33, 0x59d148c0, 0x7bf36ae2, 0x98badcfe);
    AfterIs(2);
    assert After(3) == Digest(0xa1390f08, 0x8990536d, 0xc045bf0c, 0x59d148c0, 0x7bf36ae2);
    AfterIs(3);
    assert After(4) == Digest(0xcdd8e11b, 0xa1390f08, 0x626414db, 0xc045bf0c, 0x59d148c0);
    AfterIs(4);
    assert After(5) == Digest(0xcfd499de, 0xcdd8e11b, 0x284e43c2, 0x626414db, 0xc045bf0c);
    AfterIs(5);
    assert After(6) == Digest(0x3fc7ca40, 0xcfd499de, 0xf3763846, 0x284e43c2, 0x626414db);
    AfterIs(6);
    assert After(7) == Digest(0x993e30c1, 0x3fc7ca40, 0xb3f52677, 0xf3763846, 0x284e43c2);
    AfterIs(7);
    assert After(8) == Digest(0x9e8c07d4, 0x993e30c1, 0x0ff1f290, 0xb3f52677, 0xf3763846);
    AfterIs(8);
    assert After(9) == Digest(0x4b6ae328, 0x9e8c07d4, 0x664f8c30, 0x0ff1f290, 0xb3f52677);
    AfterIs(9);
    assert After(10) == Digest(0x8351f929, 0x4b6ae328, 0x27a301f5, 0x664f8c30, 0x0ff1f290);
  }

  lemma Steps1()
    ensures After(20) == Digest(0xfd9e1d7d, 0xdc64901d, 0x20aa99ca, 0xd3a49608, 0xc82f758b)
  {
    hide W, After;
    FirstWords();
    Words0();
    Steps0();
    AfterIs(10);
    assert After(11) == Digest(0xfbda9e89, 0x8351f929, 0x12dab8ca, 0x27a301f5, 0x664f8c30);
    AfterIs(11);
    assert After(12) == Digest(0x63188fe4, 0xfbda9e89, 0x60d47e4a, 0x12dab8ca, 0x27a301f5);
    AfterIs(12);
    assert After(13) == Digest(0x4607b664, 0x63188fe4, 0x7ef6a7a2, 0x60d47e4a, 0x12dab8ca);
    AfterIs(13);
    assert After(14) == Digest(0x9128f695, 0x4607b664, 0x18c623f9, 0x7ef6a7a2, 0x60d47e4a);
    AfterIs(14);
    assert After(15) == Digest(0x196bee77, 0x9128f695, 0x1181ed99, 0x18c623f9, 0x7ef6a7a2);
    AfterIs(15);
    assert After(16) == Digest(0x20bdd62f, 0x196bee77, 0x644a3da5, 0x1181ed99, 0x18c623f9);
    AfterIs(16);
    assert After(17) == Digest(0x4e925823, 0x20bdd62f, 0xc65afb9d, 0x644a3da5, 0x1181ed99);
    AfterIs(17);
    assert After(18) == Digest(0x82aa6728, 0x4e925823, 0xc82f758b, 0xc65afb9d, 0x644a3da5);
    AfterIs(18);
    assert After(19) == Digest(0xdc64901d, 0x82aa6728, 0xd3a49608, 0xc82f758b, 0xc65afb9d);
    AfterIs(19);
    assert After(20) == Digest(0xfd9e1d7d, 0xdc64901d, 0x20aa99ca, 0xd3a49608, 0xc82f758b);
  }

  lemma Steps2()
    ensures After(30) == Digest(0xc5fbaf5d, 0x8370b52e, 0xd2aa1365, 0x6f8d7ef5, 0x12104ee9)
  {
    hide W, After;
    Words0();
    Steps1();
    AfterIs(20);
    assert After(21) == Digest(0x1a37b0ca, 0xfd9e1d7d, 0x77192407, 0x20aa99ca, 0xd3a49608);
    AfterIs(21);
    assert After(22) == Digest(0x33a23bfc, 0x1a37b0ca, 0x7f67875f, 0x77192407, 0x20aa99ca);
    AfterIs(22);
    assert After(23) == Digest(0x21283486, 0x33a23bfc, 0x868dec32, 0x7f67875f, 0x77192407);
    AfterIs(23);
    assert After(24) == Digest(0xd541f12d, 0x21283486, 0x0ce88eff, 0x868dec32, 0x7f67875f);
    AfterIs(24);
    assert After(25) == Digest(0xc7567dc6, 0xd541f12d, 0x884a0d21, 0x0ce88eff, 0x868dec32);
    AfterIs(25);
    assert After(26) == Digest(0x48413ba4, 0xc7567dc6, 0x75507c4b, 0x884a0d21, 0x0ce88eff);
    AfterIs(26);
    assert After(27) == Digest(0xbe35fbd5, 0x48413ba4, 0xb1d59f71, 0x75507c4b, 0x884a0d21);
    AfterIs(27);
    assert After(28) == Digest(0x4aa84d97, 0xbe35fbd5, 0x12104ee9, 0xb1d59f71, 0x75507c4b);
    AfterIs(28);
    assert After(29) == Digest(0x8370b52e, 0x4aa84d97, 0x6f8d7ef5, 0x12104ee9, 0xb1d59f71);
    AfterIs(29);
    assert After(30) == Digest(0xc5fbaf5d, 0x8370b52e, 0xd2aa1365, 0x6f8d7ef5, 0x12104ee9);
  }

  lemma Steps3()
    ensures After(40) == Digest(0x32de1cba, 0x4c986405, 0xf718e5cf, 0x03d447f6, 0xf72eec32)
  {
    hide W, After;
    Words0();
    Words1();
    Steps2();
    AfterIs(30);
    assert After(31) == Digest(0x1267b407, 0xc5fbaf5d, 0xa0dc2d4b, 0xd2aa1365, 0x6f8d7ef5);
    AfterIs(31);
    assert After(32) == Digest(0x3b845d33, 0x1267b407, 0x717eebd7, 0xa0dc2d4b, 0xd2aa1365);
    AfterIs(32);
    assert After(33) == Digest(0x046faa0a, 0x3b845d33, 0xc499ed01, 0x717eebd7, 0xa0dc2d4b);
    AfterIs(33);
    assert After(34) == Digest(0x2c0ebc11, 0x046faa0a, 0xcee1174c, 0xc499ed01, 0x717eebd7);
    AfterIs(34);
    assert After(35) == Digest(0x21796ad4, 0x2c0ebc11, 0x811bea82, 0xcee1174c, 0xc499ed01);
    AfterIs(35);
    assert After(36) == Digest(0xdcbbb0cb, 0x21796ad4, 0x4b03af04, 0x811bea82, 0xcee1174c);
    AfterIs(36);
    assert After(37) == Digest(0x0f511fd8, 0xdcbbb0cb, 0x085e5ab5, 0x4b03af04, 0x811bea82);
    AfterIs(37);
    assert After(38) == Digest(0xdc63973f, 0x0f511fd8, 0xf72eec32, 0x085e5ab5, 0x4b03af04);
    AfterIs(38);
    assert After(39) == Digest(0x4c986405, 0xdc63973f, 0x03d447f6, 0xf72eec32, 0x085e5ab5);
    AfterIs(39);
    assert After(40) == Digest(0x32de1cba, 0x4c986405, 0xf718e5cf, 0x03d447f6, 0xf72eec32);
  }

  lemma Steps4()
    ensures After(50) == Digest(0x120731c5, 0xbaf39337, 0xafab40b2, 0x2806e11b, 0x8714787c)
  {
    hide W, After;
    Words1();
    Words2();
    Steps3();
    AfterIs(40);
    assert After(41) == Digest(0xfc87dedf, 0x32de1cba, 0x53261901, 0xf718e5cf, 0x03d447f6);
    AfterIs(41);
    assert After(42) == Digest(0x970a0d5c, 0xfc87dedf, 0x8cb7872e, 0x53261901, 0xf718e5cf);
    AfterIs(42);
    assert After(43) == Digest(0x7f193dc5, 0x970a0d5c, 0xff21f7b7, 0x8cb7872e, 0x53261901);
    AfterIs(43);
    assert After(44) == Digest(0xee1b1aaf, 0x7f193dc5, 0x25c28357, 0xff21f7b7, 0x8cb7872e);
    AfterIs(44);
    assert After(45) == Digest(0x40f28e09, 0xee1b1aaf, 0x5fc64f71, 0x25c28357, 0xff21f7b7);
    AfterIs(45);
    assert After(46) == Digest(0x1c51e1f2, 0x40f28e09, 0xfb86c6ab, 0x5fc64f71, 0x25c28357);
    AfterIs(46);
    assert After(47) == Digest(0xa01b846c, 0x1c51e1f2, 0x503ca382, 0xfb86c6ab, 0x5fc64f71);
    AfterIs(47);
    assert After(48) == Digest(0xbead02ca, 0xa01b846c, 0x8714787c, 0x503ca382, 0xfb86c6ab);
    AfterIs(48);
    assert After(49) == Digest(0xbaf39337, 0xbead02ca, 0x2806e11b, 0x8714787c, 0x503ca382);
    AfterIs(49);
    assert After(50) == Digest(0x120731c5, 0xbaf39337, 0xafab40b2, 0x2806e11b, 0x8714787c);
  }

  lemma Steps5()
    ensures After(60) == Digest(0x3f52de5a, 0x09d785fd, 0x3498bfd4, 0xf211824f, 0xd79915ab)
  {
    hide W, After;
    Words2();
    Steps4();
    AfterIs(50);
    assert After(51) == Digest(0x641db2ce, 0x120731c5, 0xeebce4cd, 0xafab40b2, 0x2806e11b);
    AfterIs(51);
    assert After(52) == Digest(0x3847ad66, 0x641db2ce, 0x4481cc71, 0xeebce4cd, 0xafab40b2);
    AfterIs(52);
    assert After(53) == Digest(0xe490436d, 0x3847ad66, 0x99076cb3, 0x4481cc71, 0xeebce4cd);
    AfterIs(53);
    assert After(54) == Digest(0x27e9f1d8, 0xe490436d, 0x8e11eb59, 0x99076cb3, 0x4481cc71);
    AfterIs(54);
    assert After(55) == Digest(0x7b71f76d, 0x27e9f1d8, 0x792410db, 0x8e11eb59, 0x99076cb3);
    AfterIs(55);
    assert After(56) == Digest(0x5e6456af, 0x7b71f76d, 0x09fa7c76, 0x792410db, 0x8e11eb59);
    AfterIs(56);
    assert After(57) == Digest(0xc846093f, 0x5e6456af, 0x5edc7ddb, 0x09fa7c76, 0x792410db);
    AfterIs(57);
    assert After(58) == Digest(0xd262ff50, 0xc846093f, 0xd79915ab, 0x5edc7ddb, 0x09fa7c76);
    AfterIs(58);
    assert After(59) == Digest(0x09d785fd, 0xd262ff50, 0xf211824f, 0xd79915ab, 0x5edc7ddb);
    AfterIs(59);
    assert After(60) == Digest(0x3f52de5a, 0x09d785fd, 0x3498bfd4, 0xf211824f, 0xd79915ab);
  }

  lemma Steps6()
    ensures After(70) == Digest(0x3f2588c2, 0x497093c0, 0xde37534a, 0x030f7cad, 0x4405957e)
  {
    hide W, After;
    Words2();
    Words3();
    Steps5();
    AfterIs(60);
    assert After(61) == Digest(0xd756c147, 0x3f52de5a, 0x4275e17f, 0x3498bfd4, 0xf211824f);
    AfterIs(61);
    assert After(62) == Digest(0x548c9cb2, 0xd756c147, 0x8fd4b796, 0x4275e17f, 0x3498bfd4);
    AfterIs(62);
    assert After(63) == Digest(0xb66c020b, 0x548c9cb2, 0xf5d5b051, 0x8fd4b796, 0x4275e17f);
    AfterIs(63);
    assert After(64) == Digest(0x6b61c9e1, 0xb66c020b, 0x9523272c, 0xf5d5b051, 0x8fd4b796);
    AfterIs(64);
    assert After(65) == Digest(0x19dfa7ac, 0x6b61c9e1, 0xed9b0082, 0x9523272c, 0xf5d5b051);
    AfterIs(65);
    assert After(66) == Digest(0x101655f9, 0x19dfa7ac, 0x5ad87278, 0xed9b0082, 0x9523272c);
    AfterIs(66);
    assert After(67) == Digest(0x0c3df2b4, 0x101655f9, 0x0677e9eb, 0x5ad87278, 0xed9b0082);
    AfterIs(67);
    assert After(68) == Digest(0x78dd4d2b, 0x0c3df2b4, 0x4405957e, 0x0677e9eb, 0x5ad87278);
    AfterIs(68);
    assert After(69) == Digest(0x497093c0, 0x78dd4d2b, 0x030f7cad, 0x4405957e, 0x0677e9eb);
    AfterIs(69);
    assert After(70) == Digest(0x3f2588c2, 0x497093c0, 0xde37534a, 0x030f7cad, 0x4405957e);
  }

  lemma Steps7()
    ensures After(80) == Digest(0x42541b35, 0x5738d5e1, 0x21834873, 0x681e6df6, 0xd8fdf6ad)
  {
    hide W, After;
    Words3();
    Steps6();
    AfterIs(70);
    assert After(71) == Digest(0xc199f8c7, 0x3f2588c2, 0x125c24f0, 0xde37534a, 0x030f7cad);
    AfterIs(71);
    assert After(72) == Digest(0x39859de7, 0xc199f8c7, 0x8fc96230, 0x125c24f0, 0xde37534a);
    AfterIs(72);
    assert After(73) == Digest(0xedb42de4, 0x39859de7, 0xf0667e31, 0x8fc96230, 0x125c24f0);
    AfterIs(73);
    assert After(74) == Digest(0x11793f6f, 0xedb42de4, 0xce616779, 0xf0667e31, 0x8fc96230);
    AfterIs(74);
    assert After(75) == Digest(0x5ee76897, 0x11793f6f, 0x3b6d0b79, 0xce616779, 0xf0667e31);
    AfterIs(75);
    assert After(76) == Digest(0x63f7dab7, 0x5ee76897, 0xc45e4fdb, 0x3b6d0b79, 0xce616779);
    AfterIs(76);
    assert After(77) == Digest(0xa079b7d9, 0x63f7dab7, 0xd7b9da25, 0xc45e4fdb, 0x3b6d0b79);
    AfterIs(77);
    assert After(78) == Digest(0x860d21cc, 0xa079b7d9, 0xd8fdf6ad, 0xd7b9da25, 0xc45e4fdb);
    AfterIs(78);
    assert After(79) == Digest(0x5738d5e1, 0x860d21cc, 0x681e6df6, 0xd8fdf6ad, 0xd7b9da25);
    AfterIs(79);
    assert After(80) == Digest(0x42541b35, 0x5738d5e1, 0x21834873, 0x681e6df6, 0xd8fdf6ad);
  }

  /** The digest of "abc". */
  lemma DigestOfAbc()
    ensures Hash([97, 98, 99]) == Digest(0xa9993e36, 0x4706816a, 0xba3e2571, 0x7850c26c, 0x9cd0d89d)
  {
    PaddedAbc();
    Steps7();
    hide Padded, Chop, Steps, Schedule;
    assert [Abc()][..0] == [];
    assert Fold([]) == INITIAL && Fold([Abc()]) == Compress(INITIAL, Abc());
  }
}
