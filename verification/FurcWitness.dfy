/**
 A key that moves between old shards: with 32 shards it is at shard 26, and with a thirty-third it exhausts all tries
 and goes to shard 0. The words of its chain are computed on machine words, a few at a time.
 */
module FurcWitness {
  import opened Words
  import opened Wrappers
  import opened Furc
  import opened MachineWords
  import opened HashExamples
  import Murmur

  function MovedKey(): Key {
    [0xab, 0xb1, 0x54, 0x6c, 0x0b, 0x55, 0xae, 0x2a]
  }

  /** Word `n` of the key's chain, as a machine word. */
  ghost predicate IsWord(n: nat, w: bv64) {
    Chain(MovedKey(), n) == NatOf(w)
  }

  predicate One(position: nat) {
    Bits(Some(MovedKey()))(position)
  }

  lemma KeyDigits1()
    ensures Low(0x2aae, 16) == 0x2aae
  {
    LowStep(0, 0);
    hide Low;
    Extend(0x2, 0x0, 2, 0, 0x0);
    Extend(0x2a, 0x2, 10, 4, 0x2);
    Extend(0x2aa, 0x2a, 10, 8, 0x2a);
    Extend(0x2aae, 0x2aa, 14, 12, 0x2aa);
  }

  lemma KeyDigits2()
    ensures Low(0x2aae550b, 32) == 0x2aae550b
  {
    KeyDigits1();
    hide Low;
    Extend(0x2aae5, 0x2aae, 5, 16, 0x2aae);
    Extend(0x2aae55, 0x2aae5, 5, 20, 0x2aae5);
    Extend(0x2aae550, 0x2aae55, 0, 24, 0x2aae55);
    Extend(0x2aae550b, 0x2aae550, 11, 28, 0x2aae550);
  }

  lemma KeyDigits3()
    ensures Low(0x2aae550b6c54, 48) == 0x2aae550b6c54
  {
    KeyDigits2();
    hide Low;
    Extend(0x2aae550b6, 0x2aae550b, 6, 32, 0x2aae550b);
    Extend(0x2aae550b6c, 0x2aae550b6, 12, 36, 0x2aae550b6);
    Extend(0x2aae550b6c5, 0x2aae550b6c, 5, 40, 0x2aae550b6c);
    Extend(0x2aae550b6c54, 0x2aae550b6c5, 4, 44, 0x2aae550b6c5);
  }

  lemma KeyDigits4()
    ensures Low(0x2aae550b6c54b1ab, 64) == 0x2aae550b6c54b1ab
  {
    KeyDigits3();
    hide Low;
    Extend(0x2aae550b6c54b, 0x2aae550b6c54, 11, 48, 0x2aae550b6c54);
    Extend(0x2aae550b6c54b1, 0x2aae550b6c54b, 1, 52, 0x2aae550b6c54b);
    Extend(0x2aae550b6c54b1a, 0x2aae550b6c54b1, 10, 56, 0x2aae550b6c54b1);
    Extend(0x2aae550b6c54b1ab, 0x2aae550b6c54b1a, 11, 60, 0x2aae550b6c54b1a);
  }

  lemma KeyNumberIs()
    ensures NatOf(0x2aae550b6c54b1ab) == 0x2aae550b6c54b1ab
  {
    hide Low;
    KeyDigits4();
  }

  lemma FirstByte(x: nat, n: nat)
    ensures Murmur.ToBytes(x, n + 1) == [x % 256] + Murmur.ToBytes(x / 256, n) && Murmur.ToBytes(x, 0) == []
  {
  }

  lemma KeyBytes()
    ensures Murmur.ToBytes(0x2aae550b6c54b1ab, 8) == MovedKey()
  {
    hide Murmur.ToBytes;
    FirstByte(0x2aae550b6c54b1ab, 7);
    FirstByte(0x2aae550b6c54b1, 6);
    FirstByte(0x2aae550b6c54, 5);
    FirstByte(0x2aae550b6c, 4);
    FirstByte(0x2aae550b, 3);
    FirstByte(0x2aae55, 2);
    FirstByte(0x2aae, 1);
    FirstByte(0x2a, 0);
    FirstByte(0, 0);
  }

  lemma FirstRehash()
    ensures Rehashed(0x2aae550b6c54b1ab) == 0x4aa297cebb4cf17a
  {
  }

  lemma FirstWord()
    ensures IsWord(0, 0x4aa297cebb4cf17a)
  {
    hide NatOf, Murmur.Hash, Murmur.Rehash, Murmur.ToBytes, MovedKey;
    KeyNumberIs();
    KeyBytes();
    Murmur.RehashIsHashOfBytes(0x2aae550b6c54b1ab);
    RehashedIsRehash(0x2aae550b6c54b1ab);
    FirstRehash();
  }

  lemma NextWord(n: nat, w: bv64, next: bv64)
    requires IsWord(n, w) && Rehashed(w) == next
    ensures IsWord(n + 1, next)
  {
    hide NatOf, Chain, Rehashed, MovedKey;
    NextWordOf(MovedKey(), n, w, next);
  }

  /** Digit `j` of word `n` is bit 64 * n + j of the stream. */
  lemma DigitOfStream(n: nat, w: bv64, j: nat)
    requires IsWord(n, w) && j < 64
    ensures One(64 * n + j) <==> BitOf(w, j)
  {
    hide NatOf, Chain, BitOf, Bits, MovedKey;
    DigitOfStreamOf(MovedKey(), n, w, j);
  }

  lemma Words0To2()
    ensures IsWord(2, 0x1bc546c6ddd74484)
    ensures One(5) && One(6) && One(28) && One(29) && !One(51) && One(74) && !One(97) && One(144) && One(167)
  {
    hide IsWord, One;
    FirstWord();
    DigitOfStream(0, 0x4aa297cebb4cf17a, 5);
    DigitOfStream(0, 0x4aa297cebb4cf17a, 6);
    DigitOfStream(0, 0x4aa297cebb4cf17a, 28);
    DigitOfStream(0, 0x4aa297cebb4cf17a, 29);
    DigitOfStream(0, 0x4aa297cebb4cf17a, 51);
    NextWord(0, 0x4aa297cebb4cf17a, 0xa1da36508f60cdb0);
    DigitOfStream(1, 0xa1da36508f60cdb0, 10);
    DigitOfStream(1, 0xa1da36508f60cdb0, 33);
    NextWord(1, 0xa1da36508f60cdb0, 0x1bc546c6ddd74484);
    DigitOfStream(2, 0x1bc546c6ddd74484, 16);
    DigitOfStream(2, 0x1bc546c6ddd74484, 39);
  }

  lemma Words3To5()
    ensures IsWord(5, 0xff3ae2fc287df30b)
    ensures One(282) && One(305)
  {
    hide IsWord, One;
    Words0To2();
    NextWord(2, 0x1bc546c6ddd74484, 0xbaafc8053558e9db);
    NextWord(3, 0xbaafc8053558e9db, 0x31e672229d305ace);
    DigitOfStream(4, 0x31e672229d305ace, 26);
    DigitOfStream(4, 0x31e672229d305ace, 49);
    NextWord(4, 0x31e672229d305ace, 0xff3ae2fc287df30b);
  }

  lemma Words6To8()
    ensures IsWord(8, 0xa6b5c065e2b22a00)
    ensures One(420) && One(443) && One(558)
  {
    hide IsWord, One;
    Words3To5();
    NextWord(5, 0xff3ae2fc287df30b, 0x2a2c1117565fe36c);
    DigitOfStream(6, 0x2a2c1117565fe36c, 36);
    DigitOfStream(6, 0x2a2c1117565fe36c, 59);
    NextWord(6, 0x2a2c1117565fe36c, 0x65e75a66cc5b3948);
    NextWord(7, 0x65e75a66cc5b3948, 0xa6b5c065e2b22a00);
    DigitOfStream(8, 0xa6b5c065e2b22a00, 46);
  }

  lemma Words9To11()
    ensures IsWord(11, 0xda047e6d248a0054)
    ensures One(604) && One(696) && One(742)
  {
    hide IsWord, One;
    Words6To8();
    NextWord(8, 0xa6b5c065e2b22a00, 0x5b605db9fa37fac0);
    DigitOfStream(9, 0x5b605db9fa37fac0, 28);
    NextWord(9, 0x5b605db9fa37fac0, 0xf58be69861651a3f);
    DigitOfStream(10, 0xf58be69861651a3f, 56);
    NextWord(10, 0xf58be69861651a3f, 0xda047e6d248a0054);
    DigitOfStream(11, 0xda047e6d248a0054, 38);
  }

  lemma Words12To14()
    ensures IsWord(14, 0xf509308c8d9a86b8)
    ensures One(834) && One(857)
  {
    hide IsWord, One;
    Words9To11();
    NextWord(11, 0xda047e6d248a0054, 0xdfda6d63c6d53503);
    NextWord(12, 0xdfda6d63c6d53503, 0xb8138acbb344e2ff);
    DigitOfStream(13, 0xb8138acbb344e2ff, 2);
    DigitOfStream(13, 0xb8138acbb344e2ff, 25);
    NextWord(13, 0xb8138acbb344e2ff, 0xf509308c8d9a86b8);
  }

  lemma Words15To17()
    ensures IsWord(17, 0xa3967726ddc3579b)
    ensures One(972) && One(1041) && One(1110) && One(1133)
  {
    hide IsWord, One;
    Words12To14();
    NextWord(14, 0xf509308c8d9a86b8, 0x4bdbf473bac2b352);
    DigitOfStream(15, 0x4bdbf473bac2b352, 12);
    NextWord(15, 0x4bdbf473bac2b352, 0x32d02bd423a3f479);
    DigitOfStream(16, 0x32d02bd423a3f479, 17);
    NextWord(16, 0x32d02bd423a3f479, 0xa3967726ddc3579b);
    DigitOfStream(17, 0xa3967726ddc3579b, 22);
    DigitOfStream(17, 0xa3967726ddc3579b, 45);
  }

  lemma Words18To20()
    ensures IsWord(20, 0xffdc7f07bc4f977c)
    ensures One(1248) && One(1271)
  {
    hide IsWord, One;
    Words15To17();
    NextWord(17, 0xa3967726ddc3579b, 0x04da33ebe61a0a9d);
    NextWord(18, 0x04da33ebe61a0a9d, 0xc293e759d9215238);
    DigitOfStream(19, 0xc293e759d9215238, 32);
    DigitOfStream(19, 0xc293e759d9215238, 55);
    NextWord(19, 0xc293e759d9215238, 0xffdc7f07bc4f977c);
  }

  lemma Words21To23()
    ensures IsWord(23, 0x279ee45db9ecb0cb)
    ensures One(1386) && One(1409) && One(1524)
  {
    hide IsWord, One;
    Words18To20();
    NextWord(20, 0xffdc7f07bc4f977c, 0x7e46ec272fa286e4);
    DigitOfStream(21, 0x7e46ec272fa286e4, 42);
    NextWord(21, 0x7e46ec272fa286e4, 0x12a6935c93b18f37);
    DigitOfStream(22, 0x12a6935c93b18f37, 1);
    NextWord(22, 0x12a6935c93b18f37, 0x279ee45db9ecb0cb);
    DigitOfStream(23, 0x279ee45db9ecb0cb, 52);
  }

  lemma Words24To26()
    ensures IsWord(26, 0x2127883f1300d5fb)
    ensures One(1616) && One(1662)
  {
    hide IsWord, One;
    Words21To23();
    NextWord(23, 0x279ee45db9ecb0cb, 0x85565df84f4fe7ed);
    NextWord(24, 0x85565df84f4fe7ed, 0xc48c4fced8df3770);
    DigitOfStream(25, 0xc48c4fced8df3770, 16);
    DigitOfStream(25, 0xc48c4fced8df3770, 62);
    NextWord(25, 0xc48c4fced8df3770, 0x2127883f1300d5fb);
  }

  lemma Words27To29()
    ensures IsWord(29, 0xc654a9435ad1d0de)
    ensures One(1777) && One(1800) && One(1823)
  {
    hide IsWord, One;
    Words24To26();
    NextWord(26, 0x2127883f1300d5fb, 0xb48beca4a35de427);
    DigitOfStream(27, 0xb48beca4a35de427, 49);
    NextWord(27, 0xb48beca4a35de427, 0xd73a3a27945a4b37);
    DigitOfStream(28, 0xd73a3a27945a4b37, 8);
    DigitOfStream(28, 0xd73a3a27945a4b37, 31);
    NextWord(28, 0xd73a3a27945a4b37, 0xc654a9435ad1d0de);
  }

  lemma Words30To32()
    ensures IsWord(32, 0x2535fa803b2c3c73)
    ensures One(1938) && One(1984) && One(2076)
  {
    hide IsWord, One;
    Words27To29();
    NextWord(29, 0xc654a9435ad1d0de, 0xd735a07b5644f3a9);
    DigitOfStream(30, 0xd735a07b5644f3a9, 18);
    NextWord(30, 0xd735a07b5644f3a9, 0x149403acb461ad01);
    DigitOfStream(31, 0x149403acb461ad01, 0);
    NextWord(31, 0x149403acb461ad01, 0x2535fa803b2c3c73);
    DigitOfStream(32, 0x2535fa803b2c3c73, 28);
  }

  lemma Words33To35()
    ensures IsWord(35, 0x9f31d10c844f18d5)
    ensures One(2122) && One(2214)
  {
    hide IsWord, One;
    Words30To32();
    NextWord(32, 0x2535fa803b2c3c73, 0x757935c408988738);
    DigitOfStream(33, 0x757935c408988738, 10);
    NextWord(33, 0x757935c408988738, 0x1f2a777da5f481c0);
    DigitOfStream(34, 0x1f2a777da5f481c0, 38);
    NextWord(34, 0x1f2a777da5f481c0, 0x9f31d10c844f18d5);
  }

  lemma Words36To38()
    ensures IsWord(38, 0xdcabf023dbe5285c)
    ensures One(2306) && One(2352) && One(2375) && One(2490)
  {
    hide IsWord, One;
    Words33To35();
    NextWord(35, 0x9f31d10c844f18d5, 0xed375111cded7aed);
    DigitOfStream(36, 0xed375111cded7aed, 2);
    DigitOfStream(36, 0xed375111cded7aed, 48);
    NextWord(36, 0xed375111cded7aed, 0x650389dfeeaad0a7);
    DigitOfStream(37, 0x650389dfeeaad0a7, 7);
    NextWord(37, 0x650389dfeeaad0a7, 0xdcabf023dbe5285c);
    DigitOfStream(38, 0xdcabf023dbe5285c, 58);
  }

  lemma Words39To41()
    ensures IsWord(41, 0x5f7a5572ee49f67e)
    ensures One(2513) && One(2628) && One(2651)
  {
    hide IsWord, One;
    Words36To38();
    NextWord(38, 0xdcabf023dbe5285c, 0xfea571cede9f8b56);
    DigitOfStream(39, 0xfea571cede9f8b56, 17);
    NextWord(39, 0xfea571cede9f8b56, 0xe8edf307b22c3263);
    NextWord(40, 0xe8edf307b22c3263, 0x5f7a5572ee49f67e);
    DigitOfStream(41, 0x5f7a5572ee49f67e, 4);
    DigitOfStream(41, 0x5f7a5572ee49f67e, 27);
  }

  lemma Words42To44()
    ensures IsWord(44, 0xeb122be1049df24a)
    ensures One(2766) && One(2812)
  {
    hide IsWord, One;
    Words39To41();
    NextWord(41, 0x5f7a5572ee49f67e, 0x79865043ec4221fc);
    NextWord(42, 0x79865043ec4221fc, 0xb0020550a75ede4d);
    DigitOfStream(43, 0xb0020550a75ede4d, 14);
    DigitOfStream(43, 0xb0020550a75ede4d, 60);
    NextWord(43, 0xb0020550a75ede4d, 0xeb122be1049df24a);
  }

  lemma Words45To47()
    ensures IsWord(47, 0xf5db5197dc3a0c3f)
    ensures One(2904) && One(2927) && One(3042)
  {
    hide IsWord, One;
    Words42To44();
    NextWord(44, 0xeb122be1049df24a, 0x1da1ca2967f782ba);
    DigitOfStream(45, 0x1da1ca2967f782ba, 24);
    DigitOfStream(45, 0x1da1ca2967f782ba, 47);
    NextWord(45, 0x1da1ca2967f782ba, 0xe8234d085942630c);
    NextWord(46, 0xe8234d085942630c, 0xf5db5197dc3a0c3f);
    DigitOfStream(47, 0xf5db5197dc3a0c3f, 34);
  }

  lemma Words48To50()
    ensures IsWord(50, 0x4ff61b81c40310c6)
    ensures One(3157) && One(3180) && One(3226)
  {
    hide IsWord, One;
    Words45To47();
    NextWord(47, 0xf5db5197dc3a0c3f, 0x8de1ef6239da1a8d);
    NextWord(48, 0x8de1ef6239da1a8d, 0xfa3c7dff7aee3368);
    DigitOfStream(49, 0xfa3c7dff7aee3368, 21);
    DigitOfStream(49, 0xfa3c7dff7aee3368, 44);
    NextWord(49, 0xfa3c7dff7aee3368, 0x4ff61b81c40310c6);
    DigitOfStream(50, 0x4ff61b81c40310c6, 26);
  }

  lemma Words51To53()
    ensures IsWord(53, 0x7eaa5c662cdc800a)
    ensures One(3318) && One(3364)
  {
    hide IsWord, One;
    Words48To50();
    NextWord(50, 0x4ff61b81c40310c6, 0x207475aa81651155);
    DigitOfStream(51, 0x207475aa81651155, 54);
    NextWord(51, 0x207475aa81651155, 0xea32cdbffe30976a);
    DigitOfStream(52, 0xea32cdbffe30976a, 36);
    NextWord(52, 0xea32cdbffe30976a, 0x7eaa5c662cdc800a);
  }

  lemma Words54To56()
    ensures IsWord(56, 0x10c1f11d4e101dbc)
    ensures One(3456) && One(3479) && One(3594)
  {
    hide IsWord, One;
    Words51To53();
    NextWord(53, 0x7eaa5c662cdc800a, 0x605a9b18b7ae1bf1);
    DigitOfStream(54, 0x605a9b18b7ae1bf1, 0);
    DigitOfStream(54, 0x605a9b18b7ae1bf1, 23);
    NextWord(54, 0x605a9b18b7ae1bf1, 0x25be778494c1425c);
    NextWord(55, 0x25be778494c1425c, 0x10c1f11d4e101dbc);
    DigitOfStream(56, 0x10c1f11d4e101dbc, 10);
  }

  lemma Words57To59()
    ensures IsWord(59, 0x363cc2142ee8650b)
    ensures One(3686) && One(3732) && One(3755)
  {
    hide IsWord, One;
    Words54To56();
    NextWord(56, 0x10c1f11d4e101dbc, 0x87cb7bd5fa6b5c59);
    DigitOfStream(57, 0x87cb7bd5fa6b5c59, 38);
    NextWord(57, 0x87cb7bd5fa6b5c59, 0xe60c4f751f1f439f);
    DigitOfStream(58, 0xe60c4f751f1f439f, 20);
    DigitOfStream(58, 0xe60c4f751f1f439f, 43);
    NextWord(58, 0xe60c4f751f1f439f, 0x363cc2142ee8650b);
  }

  lemma Words60To62()
    ensures IsWord(62, 0xeb6b33b6eb92c960)
    ensures One(3870) && One(3985) && One(4008) && One(4031)
  {
    hide IsWord, One;
    Words57To59();
    NextWord(59, 0x363cc2142ee8650b, 0xbd0a7353fb305acd);
    DigitOfStream(60, 0xbd0a7353fb305acd, 30);
    NextWord(60, 0xbd0a7353fb305acd, 0x50779ea51f0744b9);
    NextWord(61, 0x50779ea51f0744b9, 0xeb6b33b6eb92c960);
    DigitOfStream(62, 0xeb6b33b6eb92c960, 17);
    DigitOfStream(62, 0xeb6b33b6eb92c960, 40);
    DigitOfStream(62, 0xeb6b33b6eb92c960, 63);
  }

  lemma Words63To65()
    ensures IsWord(65, 0x1f20b14daf697aaf)
    ensures One(4146) && One(4169)
  {
    hide IsWord, One;
    Words60To62();
    NextWord(62, 0xeb6b33b6eb92c960, 0x6072486fb66aabc0);
    NextWord(63, 0x6072486fb66aabc0, 0x7cfca099af7de879);
    DigitOfStream(64, 0x7cfca099af7de879, 50);
    NextWord(64, 0x7cfca099af7de879, 0x1f20b14daf697aaf);
    DigitOfStream(65, 0x1f20b14daf697aaf, 9);
  }

  lemma Words66To67()
    ensures IsWord(67, 0xe89c933d0f398030)
    ensures One(4284) && One(4307)
  {
    hide IsWord, One;
    Words63To65();
    NextWord(65, 0x1f20b14daf697aaf, 0xddb50aa297eff61f);
    DigitOfStream(66, 0xddb50aa297eff61f, 60);
    NextWord(66, 0xddb50aa297eff61f, 0xe89c933d0f398030);
    DigitOfStream(67, 0xe89c933d0f398030, 19);
  }

  // ----- the two runs -----

  lemma {:induction false} DrawAboveZero(bits: Stream, a: nat, width: nat, i: nat)
    requires i < width && bits(a + FURC_SHIFT * i)
    ensures Draw(bits, a, width) > Pow2(width)
    decreases width
  {
    if i == width - 1 {
      DrawBounds(bits, a, width - 1);
    } else {
      DrawAboveZero(bits, a, width - 1, i);
    }
  }

  ghost predicate Fails(k: nat) {
    var bits := Bits(Some(MovedKey()));
    bits(Cursor(6, k)) && Candidate(bits, 6, k) >= 33
  }

  /** An attempt whose gate is open and whose digits are not all zero draws a number above 32. */
  lemma AttemptFails(k: nat, i: nat)
    requires 1 <= i <= 5 && One(6 + 138 * k) && One(6 + 138 * k + FURC_SHIFT * i)
    ensures Fails(k)
  {
    hide MovedKey, Draw, Bits;
    assert Cursor(6, k) == 6 + 138 * k;
    DrawAboveZero(Bits(Some(MovedKey())), Cursor(6, k) + FURC_SHIFT, 5, i - 1);
    assert Pow2(5) == 32;
  }

  lemma Attempts0To7()
    ensures forall k: nat :: 0 <= k < 8 ==> Fails(k)
  {
    hide IsWord, One, Fails;
    Words0To2();
    Words3To5();
    Words6To8();
    Words9To11();
    Words12To14();
    Words15To17();
    AttemptFails(0, 1);
    AttemptFails(1, 1);
    AttemptFails(2, 1);
    AttemptFails(3, 1);
    AttemptFails(4, 2);
    AttemptFails(5, 2);
    AttemptFails(6, 1);
    AttemptFails(7, 3);
  }

  lemma Attempts8To15()
    ensures forall k: nat :: 8 <= k < 16 ==> Fails(k)
  {
    hide IsWord, One, Fails;
    Words15To17();
    Words18To20();
    Words21To23();
    Words24To26();
    Words27To29();
    Words30To32();
    Words33To35();
    AttemptFails(8, 1);
    AttemptFails(9, 1);
    AttemptFails(10, 1);
    AttemptFails(11, 4);
    AttemptFails(12, 5);
    AttemptFails(13, 1);
    AttemptFails(14, 2);
    AttemptFails(15, 2);
  }

  lemma Attempts16To23()
    ensures forall k: nat :: 16 <= k < 24 ==> Fails(k)
  {
    hide IsWord, One, Fails;
    Words33To35();
    Words36To38();
    Words39To41();
    Words42To44();
    Words45To47();
    Words48To50();
    AttemptFails(16, 4);
    AttemptFails(17, 1);
    AttemptFails(18, 1);
    AttemptFails(19, 1);
    AttemptFails(20, 2);
    AttemptFails(21, 1);
    AttemptFails(22, 5);
    AttemptFails(23, 2);
  }

  lemma Attempts24To31()
    ensures forall k: nat :: 24 <= k < 32 ==> Fails(k)
  {
    hide IsWord, One, Fails;
    Words51To53();
    Words54To56();
    Words57To59();
    Words60To62();
    Words63To65();
    Words66To67();
    AttemptFails(24, 2);
    AttemptFails(25, 1);
    AttemptFails(26, 4);
    AttemptFails(27, 1);
    AttemptFails(28, 5);
    AttemptFails(29, 1);
    AttemptFails(30, 1);
    AttemptFails(31, 1);
  }

  lemma AllAttemptsFail()
    ensures forall k: nat :: k < MAX_TRIES ==> Fails(k)
  {
    hide Fails;
    Attempts0To7();
    Attempts8To15();
    Attempts16To23();
    Attempts24To31();
  }

  lemma WithThirtyThreeShards()
    ensures Place(Bits(Some(MovedKey())), 33) == Exhausted
  {
    hide Bits, MovedKey, Search;
    assert Pow2(5) == 32 && Pow2(6) == 64;
    LevelsUnique(33, 6);
    AllAttemptsFail();
    hide Levels, Candidate, Cursor;
    var bits := Bits(Some(MovedKey()));
    forall k: nat | k < MAX_TRIES ensures bits(Cursor(6, k)) && Candidate(bits, 6, k) >= 33 {
      assert Fails(k);
    }
    ExhaustedExactly(bits, 33);
  }

  lemma FourDigits26(bits: Stream)
    requires bits(28) && !bits(51) && bits(74) && !bits(97)
    ensures Candidate(bits, 5, 0) == 26
  {
    assert Draw(bits, 28, 1) == 3;
    assert Draw(bits, 28, 2) == 6;
    assert Draw(bits, 28, 3) == 13;
  }

  lemma WithThirtyTwoShards()
    ensures Place(Bits(Some(MovedKey())), 32) == Shard(26)
  {
    hide IsWord, MovedKey, Bits;
    Words0To2();
    var bits := Bits(Some(MovedKey()));
    assert Pow2(4) == 16 && Pow2(5) == 32;
    LevelsUnique(32, 5);
    hide Levels;
    assert Cursor(5, 0) == 5 && One(5) && One(28) && !One(51) && One(74) && !One(97);
    FourDigits26(bits);
    assert Search(bits, 32, 5, 0, MAX_TRIES) == Shard(26);
  }

  /** Minimal movement fails for an actual key: growing the pool from 32 to 33 shards takes it from 26 to 0. */
  lemma AKeyIsMoved()
    ensures ShardOf(Some(MovedKey()), 32) == 26 && ShardOf(Some(MovedKey()), 33) == 0
  {
    hide Bits, MovedKey, Place;
    WithThirtyTwoShards();
    WithThirtyThreeShards();
  }
}
