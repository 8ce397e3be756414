/**
 Two keys the programs hash, worked out: the seven bytes of "foo:key" and the twenty-nine of the router's query. Their
 hashes are computed on machine words, and so are their shards in a pool of sixteen.
 */
module HashExamples {
  import opened Words
  import opened Wrappers
  import opened Furc
  import opened MachineWords
  import Murmur

  // ----- the parts of the hash on machine words -----

  function Absorbed(h: bv64, k: bv64): bv64 {
    Scaled(Xored(h, Scaled(Folded(Scaled(k)))))
  }

  function Finished(h: bv64): bv64 {
    Folded(Scaled(Folded(h)))
  }

  lemma AbsorbedIsAbsorb(h: bv64, k: bv64)
    ensures NatOf(h) < TWO64 && NatOf(k) < TWO64
    ensures NatOf(Absorbed(h, k)) == Murmur.Absorb(NatOf(h), NatOf(k))
  {
    hide NatOf, Scaled, Folded, Xored, Murmur.Scale, Murmur.Fold, Xor;
    NatOfIsWord(h);
    NatOfIsWord(k);
    ScaledIsScale(k);
    FoldedIsFold(Scaled(k));
    ScaledIsScale(Folded(Scaled(k)));
    XoredIsXor(h, Scaled(Folded(Scaled(k))));
    ScaledIsScale(Xored(h, Scaled(Folded(Scaled(k)))));
  }

  lemma FinishedIsFinish(h: bv64)
    ensures NatOf(h) < TWO64 && NatOf(Finished(h)) == Murmur.Finish(NatOf(h))
  {
    hide NatOf, Scaled, Folded, Murmur.Scale, Murmur.Fold;
    NatOfIsWord(h);
    FoldedIsFold(h);
    ScaledIsScale(Folded(h));
    FoldedIsFold(Scaled(Folded(h)));
  }

  /** A tail enters by one exclusive-or and one multiplication. */
  lemma TailAbsorbed(h: bv64, tail: seq<Byte>, t: bv64)
    requires 0 < |tail| < 8 && NatOf(t) == Murmur.LittleEndian(tail)
    ensures NatOf(h) < TWO64 && NatOf(Scaled(Xored(h, t))) == Murmur.AbsorbTail(NatOf(h), tail)
  {
    hide NatOf, Scaled, Xored, Murmur.Scale, Xor, Murmur.LittleEndian;
    NatOfIsWord(h);
    XoredIsXor(h, t);
    ScaledIsScale(Xored(h, t));
  }

  /** One more block. */
  lemma BlockAbsorbed(start: Word, key: seq<Byte>, i: nat, end: nat, h: bv64, k: bv64, next: bv64)
    requires end == i + 8 <= |key| && Murmur.AbsorbWords(start, key[..i]) == NatOf(h)
    requires Low(k, 64) == Murmur.LittleEndian(key[i..end]) && Absorbed(h, k) == next
    ensures Murmur.AbsorbWords(start, key[..end]) == NatOf(next)
  {
    hide Low, Absorbed, Murmur.Absorb, Murmur.AbsorbWords, Murmur.LittleEndian;
    Murmur.AbsorbNext(start, key, i);
    AbsorbedIsAbsorb(h, k);
  }

  // ----- bytes and machine words -----

  /** The lowest byte of a word. */
  function ByteOf(w: bv64): nat {
    16 * Nibble(w >> 4) + Nibble(w)
  }

  lemma ExtendByte(w: bv64, rest: bv64, b: nat, n: nat, value: nat)
    requires rest == w >> 8 && b == ByteOf(w) && Low(rest, n) == value
    ensures Low(w, n + 8) == 256 * value + b
  {
    hide Low, Nibble;
    FourAndFour(w);
    Extend(w >> 4, rest, Nibble(w >> 4), n, value);
    Extend(w, w >> 4, Nibble(w), n + 4, 16 * value + Nibble(w >> 4));
  }

  /** One more byte in front. */
  lemma ByteInFront(w: bv64, rest: bv64, bytes: seq<Byte>)
    requires bytes != [] && rest == w >> 8 && bytes[0] == ByteOf(w)
    requires Low(rest, 8 * (|bytes| - 1)) == Murmur.LittleEndian(bytes[1..])
    ensures Low(w, 8 * |bytes|) == Murmur.LittleEndian(bytes)
  {
    hide Low, ByteOf, Shl;
    ExtendByte(w, rest, bytes[0], 8 * (|bytes| - 1), Murmur.LittleEndian(bytes[1..]));
    ShlByte(Murmur.LittleEndian(bytes[1..]));
  }

  lemma NoBytes()
    ensures Low(0, 0) == 0 == Murmur.LittleEndian([])
  {
    LowStep(0, 0);
    hide Low;
  }

  lemma ByteIsAll(w: bv64)
    requires w <= 0xff
    ensures w >> 8 == 0
  {
  }

  lemma NothingAbove40(w: bv64)
    requires w <= 0xff_ffff_ffff
    ensures (w >> 32) >> 8 == 0
  {
  }

  lemma FiveBytes(w: bv64)
    requires w <= 0xff_ffff_ffff
    ensures Shifted(w, 40) == 0
  {
    hide Shifted;
    ShiftedByThirtyTwo(w);
    ShiftedByEight(w >> 32);
    ShiftedTwice(w, 32, 8);
    NothingAbove40(w);
  }

  lemma NothingAbove56(w: bv64)
    requires w <= 0xff_ffff_ffff_ffff
    ensures ((w >> 32) >> 16) >> 8 == 0
  {
  }

  lemma SevenBytes(w: bv64)
    requires w <= 0xff_ffff_ffff_ffff
    ensures Shifted(w, 56) == 0
  {
    hide Shifted;
    ShiftedByThirtyTwo(w);
    ShiftedBySixteen(w >> 32);
    ShiftedByEight((w >> 32) >> 16);
    ShiftedTwice(w, 32, 16);
    ShiftedTwice(w, 48, 8);
    NothingAbove56(w);
  }

  lemma ShortWord(w: bv64)
    requires w <= 0xff
    ensures NatOf(w) == ByteOf(w)
  {
    hide Low, ByteOf, Shifted;
    NoBytes();
    ByteIsAll(w);
    ExtendByte(w, 0, ByteOf(w), 0, 0);
    ShiftedByEight(w);
    NatOfSmall(w, 8, 56);
  }

  // ----- the words of a key's chain -----

  /** Word `n` of the chain of `key`, as a machine word. */
  ghost predicate IsWordOf(key: Key, n: nat, w: bv64) {
    Chain(key, n) == NatOf(w)
  }

  lemma NextWordOf(key: Key, n: nat, w: bv64, next: bv64)
    requires IsWordOf(key, n, w) && Rehashed(w) == next
    ensures IsWordOf(key, n + 1, next)
  {
    hide NatOf, Murmur.Hash, Murmur.Rehash, Rehashed;
    ChainStep(key, n + 1);
    RehashedIsRehash(w);
  }

  /** Digit `j` of word `n` is bit 64 * n + j of the stream. */
  lemma DigitOfStreamOf(key: Key, n: nat, w: bv64, j: nat)
    requires IsWordOf(key, n, w) && j < 64
    ensures Bits(Some(key))(64 * n + j) <==> BitOf(w, j)
  {
    hide NatOf, Chain, Shr, BitOf;
    BitOfIsDigit(w, j);
    assert (64 * n + j) / 64 == n && (64 * n + j) % 64 == j;
  }

  lemma SixteenShards()
    ensures Levels(16) == 4
  {
    assert Pow2(3) == 8 && Pow2(4) == 16;
    LevelsUnique(16, 4);
  }

  // ----- seven bytes: a tail alone -----

  /** "foo:key" */
  function RouterKey(): Key {
    [0x66, 0x6f, 0x6f, 0x3a, 0x6b, 0x65, 0x79]
  }

  lemma RouterKeyTailFrom3()
    ensures Low(0x79656b3a, 32) == Murmur.LittleEndian([0x3a, 0x6b, 0x65, 0x79])
  {
    hide Low, Murmur.LittleEndian;
    NoBytes();
    assert [0x79][1..] == [];
    ByteInFront(0x79, 0x0, [0x79]);
    ByteInFront(0x7965, 0x79, [0x65, 0x79]);
    ByteInFront(0x79656b, 0x7965, [0x6b, 0x65, 0x79]);
    ByteInFront(0x79656b3a, 0x79656b, [0x3a, 0x6b, 0x65, 0x79]);
  }

  lemma RouterKeyTail()
    ensures Low(0x79656b3a6f6f66, 56) == Murmur.LittleEndian([0x66, 0x6f, 0x6f, 0x3a, 0x6b, 0x65, 0x79])
  {
    hide Low, Murmur.LittleEndian;
    RouterKeyTailFrom3();
    ByteInFront(0x79656b3a6f, 0x79656b3a, [0x6f, 0x3a, 0x6b, 0x65, 0x79]);
    ByteInFront(0x79656b3a6f6f, 0x79656b3a6f, [0x6f, 0x6f, 0x3a, 0x6b, 0x65, 0x79]);
    ByteInFront(0x79656b3a6f6f66, 0x79656b3a6f6f, [0x66, 0x6f, 0x6f, 0x3a, 0x6b, 0x65, 0x79]);
  }

  lemma RouterKeyTailWord()
    ensures NatOf(0x79656b3a6f6f66) == Murmur.LittleEndian([0x66, 0x6f, 0x6f, 0x3a, 0x6b, 0x65, 0x79])
  {
    hide Low, Shifted, Murmur.LittleEndian;
    RouterKeyTail();
    SevenBytes(0x79656b3a6f6f66);
    NatOfSmall(0x79656b3a6f6f66, 56, 8);
  }

  lemma RouterKeyBegins()
    ensures Xored(0xf9f1_98ef, Scaled(0x7)) == 0x6e8095077b4cfbfc
  {
  }

  lemma RouterKeyStart()
    ensures NatOf(0x6e8095077b4cfbfc) == Murmur.Start(7, Murmur.SEED)
  {
    hide NatOf, Xored, Scaled, Xor;
    SeedWords();
    ShortWord(0x7);
    ScaledIsMultiplication(0x7);
    XoredIsXor(0xf9f1_98ef, Scaled(0x7));
    RouterKeyBegins();
  }

  lemma RouterKeyAbsorbsTail()
    ensures Scaled(Xored(0x6e8095077b4cfbfc, 0x79656b3a6f6f66)) == 0xc2db14985bafa7a2
  {
  }

  lemma RouterKeyFinishes()
    ensures Finished(0xc2db14985bafa7a2) == 0x524404e1c7b2ad2c
  {
  }

  lemma RouterKeyValueUpper()
    ensures Low(0x524404e1, 32) == 0x524404e1
  {
    hide Low;
    NoBytes();
    ExtendByte(0x52, 0x0, 0x52, 0, 0x0);
    ExtendByte(0x5244, 0x52, 0x44, 8, 0x52);
    ExtendByte(0x524404, 0x5244, 0x4, 16, 0x5244);
    ExtendByte(0x524404e1, 0x524404, 0xe1, 24, 0x524404);
  }

  lemma RouterKeyValue()
    ensures NatOf(0x524404e1c7b2ad2c) == 0x524404e1c7b2ad2c
  {
    hide Low;
    RouterKeyValueUpper();
    ExtendByte(0x524404e1c7, 0x524404e1, 0xc7, 32, 0x524404e1);
    ExtendByte(0x524404e1c7b2, 0x524404e1c7, 0xb2, 40, 0x524404e1c7);
    ExtendByte(0x524404e1c7b2ad, 0x524404e1c7b2, 0xad, 48, 0x524404e1c7b2);
    ExtendByte(0x524404e1c7b2ad2c, 0x524404e1c7b2ad, 0x2c, 56, 0x524404e1c7b2ad);
  }

  lemma RouterKeyHash()
    ensures Murmur.Hash(RouterKey(), Murmur.SEED) == 0x524404e1c7b2ad2c == NatOf(0x524404e1c7b2ad2c)
  {
    hide NatOf, Low, Murmur.AbsorbTail, Murmur.Finish, Murmur.AbsorbWords, Murmur.Start, Murmur.LittleEndian;
    var key, start := RouterKey(), Murmur.Start(7, Murmur.SEED);
    RouterKeyStart();
    Murmur.AbsorbNothing(start);
    assert key[..0] == [] && key[0..] == key;
    RouterKeyTailWord();
    TailAbsorbed(0x6e8095077b4cfbfc, [0x66, 0x6f, 0x6f, 0x3a, 0x6b, 0x65, 0x79], 0x79656b3a6f6f66);
    RouterKeyAbsorbsTail();
    FinishedIsFinish(0xc2db14985bafa7a2);
    RouterKeyFinishes();
    RouterKeyValue();
  }

  lemma RouterKeyIsFirst()
    ensures IsWordOf(RouterKey(), 0, 0x524404e1c7b2ad2c)
  {
    hide NatOf, Murmur.Hash, RouterKey, Murmur.Rehash;
    RouterKeyHash();
    ChainStep(RouterKey(), 0);
  }

  lemma RouterKeyBits()
    ensures var bits := Bits(Some(RouterKey()));
            !bits(4) && bits(3) && bits(26) && !bits(49)
  {
    hide NatOf, Murmur.Hash, IsWordOf, RouterKey, Bits;
    RouterKeyIsFirst();
    DigitOfStreamOf(RouterKey(), 0, 0x524404e1c7b2ad2c, 4);
    DigitOfStreamOf(RouterKey(), 0, 0x524404e1c7b2ad2c, 3);
    DigitOfStreamOf(RouterKey(), 0, 0x524404e1c7b2ad2c, 26);
    DigitOfStreamOf(RouterKey(), 0, 0x524404e1c7b2ad2c, 49);
  }

  /** A closed gate, and a shard one level down. */
  lemma RouterKeyIsHashed()
    ensures Murmur.Hash(RouterKey(), Murmur.SEED) == 0x524404e1c7b2ad2c
    ensures ShardOf(Some(RouterKey()), 16) == 6
    ensures Reads(Bits(Some(RouterKey())), 16, 4, 0, 32) == [4, 3, 26, 49]
  {
    hide Bits, RouterKey, NatOf, Murmur.Hash;
    RouterKeyHash();
    RouterKeyBits();
    SixteenShards();
    hide Levels;
    var bits := Bits(Some(RouterKey()));
    assert Cursor(4, 0) == 4 && Cursor(3, 0) == 3;
    assert Draw(bits, 26, 1) == 3 && Draw(bits, 26, 2) == 6;
    assert Search(bits, 16, 3, 0, MAX_TRIES) == Shard(6);
    assert Search(bits, 16, 4, 0, MAX_TRIES) == Search(bits, 16, 3, 0, MAX_TRIES);
    hide Reads, Search;
    ReadsStep(bits, 16, 4, 0, 32);
    ReadsStep(bits, 16, 3, 0, 32);
    assert DrawReads(3, 3) == [3, 26, 49];
  }

  // ----- three words and a tail of five bytes -----

  /** "/region/cluster/foo:key|#|etc" */
  function RouterQuery(): Key {
    [0x2f, 0x72, 0x65, 0x67, 0x69, 0x6f, 0x6e, 0x2f,
     0x63, 0x6c, 0x75, 0x73, 0x74, 0x65, 0x72, 0x2f,
     0x66, 0x6f, 0x6f, 0x3a, 0x6b, 0x65, 0x79, 0x7c,
     0x23, 0x7c, 0x65, 0x74, 0x63]
  }

  lemma RouterQueryWord0From4()
    ensures Low(0x2f6e6f69, 32) == Murmur.LittleEndian([0x69, 0x6f, 0x6e, 0x2f])
  {
    hide Low, Murmur.LittleEndian;
    NoBytes();
    assert [0x2f][1..] == [];
    ByteInFront(0x2f, 0x0, [0x2f]);
    ByteInFront(0x2f6e, 0x2f, [0x6e, 0x2f]);
    ByteInFront(0x2f6e6f, 0x2f6e, [0x6f, 0x6e, 0x2f]);
    ByteInFront(0x2f6e6f69, 0x2f6e6f, [0x69, 0x6f, 0x6e, 0x2f]);
  }

  lemma RouterQueryWord0()
    ensures Low(0x2f6e6f696765722f, 64) == Murmur.LittleEndian([0x2f, 0x72, 0x65, 0x67, 0x69, 0x6f, 0x6e, 0x2f])
  {
    hide Low, Murmur.LittleEndian;
    RouterQueryWord0From4();
    ByteInFront(0x2f6e6f6967, 0x2f6e6f69, [0x67, 0x69, 0x6f, 0x6e, 0x2f]);
    ByteInFront(0x2f6e6f696765, 0x2f6e6f6967, [0x65, 0x67, 0x69, 0x6f, 0x6e, 0x2f]);
    ByteInFront(0x2f6e6f69676572, 0x2f6e6f696765, [0x72, 0x65, 0x67, 0x69, 0x6f, 0x6e, 0x2f]);
    ByteInFront(0x2f6e6f696765722f, 0x2f6e6f69676572, [0x2f, 0x72, 0x65, 0x67, 0x69, 0x6f, 0x6e, 0x2f]);
  }

  lemma RouterQueryWord1From4()
    ensures Low(0x2f726574, 32) == Murmur.LittleEndian([0x74, 0x65, 0x72, 0x2f])
  {
    hide Low, Murmur.LittleEndian;
    NoBytes();
    assert [0x2f][1..] == [];
    ByteInFront(0x2f, 0x0, [0x2f]);
    ByteInFront(0x2f72, 0x2f, [0x72, 0x2f]);
    ByteInFront(0x2f7265, 0x2f72, [0x65, 0x72, 0x2f]);
    ByteInFront(0x2f726574, 0x2f7265, [0x74, 0x65, 0x72, 0x2f]);
  }

  lemma RouterQueryWord1()
    ensures Low(0x2f72657473756c63, 64) == Murmur.LittleEndian([0x63, 0x6c, 0x75, 0x73, 0x74, 0x65, 0x72, 0x2f])
  {
    hide Low, Murmur.LittleEndian;
    RouterQueryWord1From4();
    ByteInFront(0x2f72657473, 0x2f726574, [0x73, 0x74, 0x65, 0x72, 0x2f]);
    ByteInFront(0x2f7265747375, 0x2f72657473, [0x75, 0x73, 0x74, 0x65, 0x72, 0x2f]);
    ByteInFront(0x2f72657473756c, 0x2f7265747375, [0x6c, 0x75, 0x73, 0x74, 0x65, 0x72, 0x2f]);
    ByteInFront(0x2f72657473756c63, 0x2f72657473756c, [0x63, 0x6c, 0x75, 0x73, 0x74, 0x65, 0x72, 0x2f]);
  }

  lemma RouterQueryWord2From4()
    ensures Low(0x7c79656b, 32) == Murmur.LittleEndian([0x6b, 0x65, 0x79, 0x7c])
  {
    hide Low, Murmur.LittleEndian;
    NoBytes();
    assert [0x7c][1..] == [];
    ByteInFront(0x7c, 0x0, [0x7c]);
    ByteInFront(0x7c79, 0x7c, [0x79, 0x7c]);
    ByteInFront(0x7c7965, 0x7c79, [0x65, 0x79, 0x7c]);
    ByteInFront(0x7c79656b, 0x7c7965, [0x6b, 0x65, 0x79, 0x7c]);
  }

  lemma RouterQueryWord2()
    ensures Low(0x7c79656b3a6f6f66, 64) == Murmur.LittleEndian([0x66, 0x6f, 0x6f, 0x3a, 0x6b, 0x65, 0x79, 0x7c])
  {
    hide Low, Murmur.LittleEndian;
    RouterQueryWord2From4();
    ByteInFront(0x7c79656b3a, 0x7c79656b, [0x3a, 0x6b, 0x65, 0x79, 0x7c]);
    ByteInFront(0x7c79656b3a6f, 0x7c79656b3a, [0x6f, 0x3a, 0x6b, 0x65, 0x79, 0x7c]);
    ByteInFront(0x7c79656b3a6f6f, 0x7c79656b3a6f, [0x6f, 0x6f, 0x3a, 0x6b, 0x65, 0x79, 0x7c]);
    ByteInFront(0x7c79656b3a6f6f66, 0x7c79656b3a6f6f, [0x66, 0x6f, 0x6f, 0x3a, 0x6b, 0x65, 0x79, 0x7c]);
  }

  lemma RouterQueryTailFrom1()
    ensures Low(0x6374657c, 32) == Murmur.LittleEndian([0x7c, 0x65, 0x74, 0x63])
  {
    hide Low, Murmur.LittleEndian;
    NoBytes();
    assert [0x63][1..] == [];
    ByteInFront(0x63, 0x0, [0x63]);
    ByteInFront(0x6374, 0x63, [0x74, 0x63]);
    ByteInFront(0x637465, 0x6374, [0x65, 0x74, 0x63]);
    ByteInFront(0x6374657c, 0x637465, [0x7c, 0x65, 0x74, 0x63]);
  }

  lemma RouterQueryTail()
    ensures Low(0x6374657c23, 40) == Murmur.LittleEndian([0x23, 0x7c, 0x65, 0x74, 0x63])
  {
    hide Low, Murmur.LittleEndian;
    RouterQueryTailFrom1();
    ByteInFront(0x6374657c23, 0x6374657c, [0x23, 0x7c, 0x65, 0x74, 0x63]);
  }

  lemma RouterQueryTailWord()
    ensures NatOf(0x6374657c23) == Murmur.LittleEndian([0x23, 0x7c, 0x65, 0x74, 0x63])
  {
    hide Low, Shifted, Murmur.LittleEndian;
    RouterQueryTail();
    FiveBytes(0x6374657c23);
    NatOfSmall(0x6374657c23, 40, 24);
  }

  lemma RouterQueryBegins()
    ensures Xored(0xf9f1_98ef, Scaled(0x1d)) == 0x80a6fbb19f36ed0e
  {
  }

  lemma RouterQueryStart()
    ensures NatOf(0x80a6fbb19f36ed0e) == Murmur.Start(29, Murmur.SEED)
  {
    hide NatOf, Xored, Scaled, Xor;
    SeedWords();
    ShortWord(0x1d);
    ScaledIsMultiplication(0x1d);
    XoredIsXor(0xf9f1_98ef, Scaled(0x1d));
    RouterQueryBegins();
  }

  lemma RouterQueryAbsorbs0()
    ensures Absorbed(0x80a6fbb19f36ed0e, 0x2f6e6f696765722f) == 0xf7b9263cf3f96aa7
  {
  }

  lemma RouterQueryAbsorbs1()
    ensures Absorbed(0xf7b9263cf3f96aa7, 0x2f72657473756c63) == 0x36991aa0b508e481
  {
  }

  lemma RouterQueryAbsorbs2()
    ensures Absorbed(0x36991aa0b508e481, 0x7c79656b3a6f6f66) == 0xb38c3b6e7ec80865
  {
  }

  lemma RouterQueryAbsorbsTail()
    ensures Scaled(Xored(0xb38c3b6e7ec80865, 0x6374657c23)) == 0xe41a0b71e4ee62be
  {
  }

  lemma RouterQueryFinishes()
    ensures Finished(0xe41a0b71e4ee62be) == 0x16375f2faa5ff03c
  {
  }

  lemma RouterQueryBlock0()
    ensures Murmur.AbsorbWords(Murmur.Start(29, Murmur.SEED), RouterQuery()[..0]) == NatOf(0x80a6fbb19f36ed0e)
  {
    hide NatOf, Murmur.AbsorbWords, Murmur.Start;
    RouterQueryStart();
    Murmur.AbsorbNothing(Murmur.Start(29, Murmur.SEED));
    assert RouterQuery()[..0] == [];
  }

  lemma RouterQuerySlice0()
    ensures |RouterQuery()| == 29 && RouterQuery()[0..8] == [0x2f, 0x72, 0x65, 0x67, 0x69, 0x6f, 0x6e, 0x2f]
  {
    var slice := RouterQuery()[0..8];
    assert slice[0] == 0x2f && slice[1] == 0x72 && slice[2] == 0x65 && slice[3] == 0x67;
    assert slice[4] == 0x69 && slice[5] == 0x6f && slice[6] == 0x6e && slice[7] == 0x2f;
  }

  lemma RouterQueryBlock1()
    ensures Murmur.AbsorbWords(Murmur.Start(29, Murmur.SEED), RouterQuery()[..8]) == NatOf(0xf7b9263cf3f96aa7)
  {
    hide NatOf, Low, Absorbed, Murmur.AbsorbWords, Murmur.LittleEndian, Murmur.Start, RouterQuery;
    RouterQueryBlock0();
    RouterQuerySlice0();
    RouterQueryWord0();
    RouterQueryAbsorbs0();
    BlockAbsorbed(Murmur.Start(29, Murmur.SEED), RouterQuery(), 0, 8, 0x80a6fbb19f36ed0e, 0x2f6e6f696765722f,
                  0xf7b9263cf3f96aa7);
  }

  lemma RouterQuerySlice1()
    ensures |RouterQuery()| == 29 && RouterQuery()[8..16] == [0x63, 0x6c, 0x75, 0x73, 0x74, 0x65, 0x72, 0x2f]
  {
    var slice := RouterQuery()[8..16];
    assert slice[0] == 0x63 && slice[1] == 0x6c && slice[2] == 0x75 && slice[3] == 0x73;
    assert slice[4] == 0x74 && slice[5] == 0x65 && slice[6] == 0x72 && slice[7] == 0x2f;
  }

  lemma RouterQueryBlock2()
    ensures Murmur.AbsorbWords(Murmur.Start(29, Murmur.SEED), RouterQuery()[..16]) == NatOf(0x36991aa0b508e481)
  {
    hide NatOf, Low, Absorbed, Murmur.AbsorbWords, Murmur.LittleEndian, Murmur.Start, RouterQuery;
    RouterQueryBlock1();
    RouterQuerySlice1();
    RouterQueryWord1();
    RouterQueryAbsorbs1();
    BlockAbsorbed(Murmur.Start(29, Murmur.SEED), RouterQuery(), 8, 16, 0xf7b9263cf3f96aa7, 0x2f72657473756c63,
                  0x36991aa0b508e481);
  }

  lemma RouterQuerySlice2()
    ensures |RouterQuery()| == 29 && RouterQuery()[16..24] == [0x66, 0x6f, 0x6f, 0x3a, 0x6b, 0x65, 0x79, 0x7c]
  {
    var slice := RouterQuery()[16..24];
    assert slice[0] == 0x66 && slice[1] == 0x6f && slice[2] == 0x6f && slice[3] == 0x3a;
    assert slice[4] == 0x6b && slice[5] == 0x65 && slice[6] == 0x79 && slice[7] == 0x7c;
  }

  lemma RouterQueryBlock3()
    ensures Murmur.AbsorbWords(Murmur.Start(29, Murmur.SEED), RouterQuery()[..24]) == NatOf(0xb38c3b6e7ec80865)
  {
    hide NatOf, Low, Absorbed, Murmur.AbsorbWords, Murmur.LittleEndian, Murmur.Start, RouterQuery;
    RouterQueryBlock2();
    RouterQuerySlice2();
    RouterQueryWord2();
    RouterQueryAbsorbs2();
    BlockAbsorbed(Murmur.Start(29, Murmur.SEED), RouterQuery(), 16, 24, 0x36991aa0b508e481, 0x7c79656b3a6f6f66,
                  0xb38c3b6e7ec80865);
  }

  lemma RouterQueryValueUpper()
    ensures Low(0x16375f2f, 32) == 0x16375f2f
  {
    hide Low;
    NoBytes();
    ExtendByte(0x16, 0x0, 0x16, 0, 0x0);
    ExtendByte(0x1637, 0x16, 0x37, 8, 0x16);
    ExtendByte(0x16375f, 0x1637, 0x5f, 16, 0x1637);
    ExtendByte(0x16375f2f, 0x16375f, 0x2f, 24, 0x16375f);
  }

  lemma RouterQueryValue()
    ensures NatOf(0x16375f2faa5ff03c) == 0x16375f2faa5ff03c
  {
    hide Low;
    RouterQueryValueUpper();
    ExtendByte(0x16375f2faa, 0x16375f2f, 0xaa, 32, 0x16375f2f);
    ExtendByte(0x16375f2faa5f, 0x16375f2faa, 0x5f, 40, 0x16375f2faa);
    ExtendByte(0x16375f2faa5ff0, 0x16375f2faa5f, 0xf0, 48, 0x16375f2faa5f);
    ExtendByte(0x16375f2faa5ff03c, 0x16375f2faa5ff0, 0x3c, 56, 0x16375f2faa5ff0);
  }

  lemma RouterQueryHash()
    ensures Murmur.Hash(RouterQuery(), Murmur.SEED) == 0x16375f2faa5ff03c == NatOf(0x16375f2faa5ff03c)
  {
    hide NatOf, Low, Murmur.AbsorbTail, Murmur.Finish, Murmur.AbsorbWords, Murmur.Start, Murmur.LittleEndian;
    var key, start := RouterQuery(), Murmur.Start(29, Murmur.SEED);
    RouterQueryBlock3();
    assert key[24..] == [0x23, 0x7c, 0x65, 0x74, 0x63];
    RouterQueryTailWord();
    TailAbsorbed(0xb38c3b6e7ec80865, [0x23, 0x7c, 0x65, 0x74, 0x63], 0x6374657c23);
    RouterQueryAbsorbsTail();
    FinishedIsFinish(0xe41a0b71e4ee62be);
    RouterQueryFinishes();
    RouterQueryValue();
  }

  lemma RouterQueryIsFirst()
    ensures IsWordOf(RouterQuery(), 0, 0x16375f2faa5ff03c)
  {
    hide NatOf, Murmur.Hash, RouterQuery, Murmur.Rehash;
    RouterQueryHash();
    ChainStep(RouterQuery(), 0);
  }

  lemma RouterQueryNext1()
    ensures Rehashed(0x16375f2faa5ff03c) == 0x4c43b67e9c0aa68b
  {
  }

  lemma RouterQueryBits()
    ensures var bits := Bits(Some(RouterQuery()));
            bits(4) && bits(27) && bits(50) && bits(73)
  {
    hide NatOf, Murmur.Hash, IsWordOf, RouterQuery, Bits;
    RouterQueryIsFirst();
    RouterQueryNext1();
    NextWordOf(RouterQuery(), 0, 0x16375f2faa5ff03c, 0x4c43b67e9c0aa68b);
    DigitOfStreamOf(RouterQuery(), 0, 0x16375f2faa5ff03c, 4);
    DigitOfStreamOf(RouterQuery(), 0, 0x16375f2faa5ff03c, 27);
    DigitOfStreamOf(RouterQuery(), 0, 0x16375f2faa5ff03c, 50);
    DigitOfStreamOf(RouterQuery(), 1, 0x4c43b67e9c0aa68b, 9);
  }

  /** An open gate, and the last shard. */
  lemma RouterQueryIsHashed()
    ensures Murmur.Hash(RouterQuery(), Murmur.SEED) == 0x16375f2faa5ff03c
    ensures ShardOf(Some(RouterQuery()), 16) == 15
    ensures Reads(Bits(Some(RouterQuery())), 16, 4, 0, 32) == [4, 27, 50, 73]
  {
    hide Bits, RouterQuery, NatOf, Murmur.Hash;
    RouterQueryHash();
    RouterQueryBits();
    SixteenShards();
    hide Levels;
    var bits := Bits(Some(RouterQuery()));
    assert Cursor(4, 0) == 4;
    assert Draw(bits, 27, 1) == 3 && Draw(bits, 27, 2) == 7 && Draw(bits, 27, 3) == 15;
    assert Search(bits, 16, 4, 0, MAX_TRIES) == Shard(15);
    hide Reads, Search;
    ReadsStep(bits, 16, 4, 0, 32);
    assert DrawReads(4, 4) == [4, 27, 50, 73];
  }
}
