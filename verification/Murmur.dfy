/** MurmurHash64A over byte keys and the rehash of a 64-bit word, as little-endian hosts compute them. */
module Murmur {
  import opened Words

  const SEED: Word := 4193360111

  // ----- the three invertible word operations -----

  /** `x *= m` on 64 bits. */
  function Scale(x: nat): Word {
    x * 0xc6a4_a793_5bd1_e995 % TWO64
  }

  lemma FoldBound(x: Word)
    ensures Xor(x, Shr(x, 47)) < TWO64
  {
    Pow2Values();
    ShrAtMost(x, 47);
    XorBound(x, Shr(x, 47), 64);
  }

  /** `x ^= x >> 47`. */
  function Fold(x: Word): Word {
    FoldBound(x);
    Xor(x, Shr(x, 47))
  }

  function XorWord(x: Word, y: Word): Word {
    Pow2Values();
    XorBound(x, y, 64);
    Xor(x, y)
  }

  /** Multiplication by the inverse of the constant modulo 2^64. */
  function Unscale(x: nat): Word {
    x * 0x5f7a_0ea7_e59b_19bd % TWO64
  }

  lemma ScaleInverse(x: Word)
    ensures Unscale(Scale(x)) == x
    ensures Scale(Unscale(x)) == x
  {
    var c, d := 0xc6a4_a793_5bd1_e995, 0x5f7a_0ea7_e59b_19bd;
    var q, p := x * c / TWO64, x * d / TWO64;
    ModuloAgain(x, x * 0x4a15d006d409ab6f - q * d);
    ModuloAgain(x, x * 0x4a15d006d409ab6f - p * c);
    assert Scale(x) == x * c - TWO64 * q;
    assert Scale(x) * d == x + TWO64 * (x * 0x4a15d006d409ab6f - q * d);
    assert Unscale(x) * c == x + TWO64 * (x * 0x4a15d006d409ab6f - p * c);
  }

  /** Two folds cancel, because twice 47 digits are more than a word has. */
  lemma FoldInvolution(x: Word)
    ensures Fold(Fold(x)) == x
  {
    var t := Shr(x, 47);
    XorShift(x, t, 47);
    ShrTwice(x, 47, 47);
    Pow2Values();
    Pow2Monotone(64, 94);
    ShrToZero(x, 94);
    XorZero(t);
    XorCancels(x, t);
  }

  // ----- the rehash -----

  function MixWord(k: Word): Word {
    Scale(Fold(Scale(k)))
  }

  function Absorb(h: Word, k: Word): Word {
    Scale(XorWord(h, MixWord(k)))
  }

  function Finish(h: Word): Word {
    Fold(Scale(Fold(h)))
  }

  function Start(len: nat, seed: Word): Word {
    XorWord(seed, Scale(len))
  }

  function Rehash(k: Word): Word {
    Finish(Absorb(Start(8, SEED), k))
  }

  function Unmix(k: Word): Word {
    Unscale(Fold(Unscale(k)))
  }

  function Unabsorb(h: Word, absorbed: Word): Word {
    Unmix(XorWord(Unscale(absorbed), h))
  }

  function Unfinish(h: Word): Word {
    Fold(Unscale(Fold(h)))
  }

  function Unrehash(h: Word): Word {
    Unabsorb(Start(8, SEED), Unfinish(h))
  }

  lemma MixInverse(k: Word)
    ensures Unmix(MixWord(k)) == k
    ensures MixWord(Unmix(k)) == k
  {
    ScaleInverse(k);
    ScaleInverse(Fold(Scale(k)));
    FoldInvolution(Scale(k));
    ScaleInverse(Fold(Unscale(k)));
    FoldInvolution(Unscale(k));
  }

  lemma AbsorbInverse(h: Word, k: Word)
    ensures Unabsorb(h, Absorb(h, k)) == k
    ensures Absorb(h, Unabsorb(h, k)) == k
  {
    MixInverse(k);
    ScaleInverse(XorWord(h, MixWord(k)));
    XorCommutes(h, MixWord(k));
    XorCancels(MixWord(k), h);
    var unscaled := XorWord(Unscale(k), h);
    MixInverse(unscaled);
    XorCommutes(h, unscaled);
    XorCancels(Unscale(k), h);
    ScaleInverse(k);
  }

  lemma FinishInverse(h: Word)
    ensures Unfinish(Finish(h)) == h
    ensures Finish(Unfinish(h)) == h
  {
    FoldInvolution(h);
    ScaleInverse(Fold(h));
    FoldInvolution(Scale(Fold(h)));
    FoldInvolution(Unscale(Fold(h)));
  }

  /** The rehash is a bijection on words. */
  lemma RehashInverse(x: Word)
    ensures Unrehash(Rehash(x)) == x
    ensures Rehash(Unrehash(x)) == x
  {
    var start := Start(8, SEED);
    FinishInverse(Absorb(start, x));
    AbsorbInverse(start, x);
    var h := Unfinish(x);
    FinishInverse(x);
    AbsorbInverse(start, h);
  }

  lemma RehashInjective(x: Word, y: Word)
    ensures Rehash(x) == Rehash(y) ==> x == y
  {
    hide *;
    RehashInverse(x);
    RehashInverse(y);
  }

  // ----- the hash of a byte string -----

  /** The number whose base-256 digits are `bytes`, least significant first. */
  function LittleEndian(bytes: seq<Byte>): nat {
    if bytes == [] then 0 else Shl(LittleEndian(bytes[1..]), 8) + bytes[0]
  }

  function ToBytes(x: nat, n: nat): (bytes: seq<Byte>)
    ensures |bytes| == n
    decreases n
  {
    if n == 0 then [] else [x % 256] + ToBytes(x / 256, n - 1)
  }

  lemma {:induction false} LittleEndianBound(bytes: seq<Byte>)
    ensures LittleEndian(bytes) < Pow2(8 * |bytes|)
  {
    if bytes == [] {
    } else {
      LittleEndianBound(bytes[1..]);
      ShlByte(LittleEndian(bytes[1..]));
      Pow2Byte(8 * |bytes| - 8);
    }
  }

  lemma {:induction false} LittleEndianRoundTrip(x: nat, n: nat)
    requires x < Pow2(8 * n)
    ensures LittleEndian(ToBytes(x, n)) == x
    decreases n
  {
    hide Shl;
    if n == 0 {
    } else {
      Pow2Byte(8 * n - 8);
      LittleEndianRoundTrip(x / 256, n - 1);
      ShlByte(x / 256);
      assert ToBytes(x, n)[1..] == ToBytes(x / 256, n - 1);
    }
  }

  /** The value the hash reads from eight consecutive bytes. */
  function WordAt(bytes: seq<Byte>): Word
    requires |bytes| == 8
  {
    LittleEndianBound(bytes);
    Pow2Values();
    LittleEndian(bytes)
  }

  function TailWord(tail: seq<Byte>): Word
    requires |tail| < 8
  {
    LittleEndianBound(tail);
    Pow2Monotone(8 * |tail|, 64);
    Pow2Values();
    LittleEndian(tail)
  }

  /** The whole eight-byte blocks, absorbed from the first to the last. */
  function AbsorbWords(h: Word, blocks: seq<Byte>): Word {
    if |blocks| < 8 then
      h
    else
      var n := |blocks| - 8;
      Absorb(AbsorbWords(h, blocks[..n]), WordAt(blocks[n..]))
  }

  /** The remaining bytes enter as one zero-padded word; no bytes, no change. */
  function AbsorbTail(h: Word, tail: seq<Byte>): Word
    requires |tail| < 8
  {
    if tail == [] then h else Scale(XorWord(h, TailWord(tail)))
  }

  /** A tail of bytes is one exclusive-or with their number, and one multiplication. */
  lemma TailIs(h: Word, tail: seq<Byte>)
    requires |tail| < 8
    ensures AbsorbTail(h, []) == h
    ensures tail != [] ==> AbsorbTail(h, tail) == Xor(h, LittleEndian(tail)) * 0xc6a4_a793_5bd1_e995 % TWO64
  {
    hide Xor, LittleEndian;
  }

  function Hash(key: seq<Byte>, seed: Word): Word {
    var whole := 8 * (|key| / 8);
    Finish(AbsorbTail(AbsorbWords(Start(|key|, seed), key[..whole]), key[whole..]))
  }

  /** The straight-line rehash, statement by statement. */
  method MurmurRehash64A(word: Word) returns (h: Word)
    ensures h == Rehash(word)
  {
    hide Scale, Fold, Xor;
    var k := word;
    h := XorWord(SEED, Scale(8));
    k := Scale(k);
    k := Fold(k);
    k := Scale(k);
    h := XorWord(h, k);
    h := Scale(h);
    h := Fold(h);
    h := Scale(h);
    h := Fold(h);
  }

  /** The state of the fallthrough switch once the bytes from index `j` on have been absorbed. */
  function TailSoFar(h: Word, tail: seq<Byte>, j: nat): nat
    requires j <= |tail| < 8
  {
    Xor(h, Shl(LittleEndian(tail[j..]), 8 * j))
  }

  lemma TailStep(h: Word, tail: seq<Byte>, j: nat)
    requires j < |tail| < 8
    ensures Xor(TailSoFar(h, tail, j + 1), Shl(tail[j], 8 * j)) == TailSoFar(h, tail, j)
  {
    hide Xor, Shl, Pow2;
    var rest := LittleEndian(tail[j + 1..]);
    assert tail[j..][1..] == tail[j + 1..];
    ShlTwice(rest, 8, 8 * j);
    XorAssociates(h, Shl(rest, 8 + 8 * j), Shl(tail[j], 8 * j));
    Pow2Values();
    XorDisjoint(tail[j], rest, 8);
    ShlOverXor(Shl(rest, 8), tail[j], 8 * j);
  }

  /** One case of the fallthrough switch: `h ^= (uint64_t)data2[j] << (8 * j)`. */
  method TailCase(h: Word, tail: seq<Byte>, j: nat, ghost before: Word) returns (after: Word)
    requires j < |tail| < 8 && h == TailSoFar(before, tail, j + 1)
    ensures after == TailSoFar(before, tail, j)
  {
    Pow2Values();
    ShlBound(tail[j], 8, 8 * j);
    Pow2Monotone(8 + 8 * j, 64);
    TailStep(before, tail, j);
    after := XorWord(h, Shl(tail[j], 8 * j));
  }

  lemma TailEnds(h: Word, tail: seq<Byte>)
    requires |tail| < 8
    ensures TailSoFar(h, tail, |tail|) == h
    ensures TailSoFar(h, tail, 0) == XorWord(h, TailWord(tail))
  {
    assert tail[|tail|..] == [] && tail[0..] == tail;
    ShlOfZero(8 * |tail|);
    XorZero(h);
  }

  /** The fallthrough switch over the last `len & 7` bytes. */
  method TailSwitch(start: Word, tail: seq<Byte>) returns (h: Word)
    requires |tail| < 8
    ensures h == AbsorbTail(start, tail)
    ensures tail == [] ==> h == start
    ensures tail != [] ==> h == Xor(start, LittleEndian(tail)) * 0xc6a4_a793_5bd1_e995 % TWO64
  {
    hide Scale, TailSoFar, TailWord, Xor, LittleEndian;
    TailIs(start, tail);
    h := start;
    var n := |tail|;
    TailEnds(h, tail);
    if n >= 7 {
      h := TailCase(h, tail, 6, start);
    }
    if n >= 6 {
      h := TailCase(h, tail, 5, start);
    }
    if n >= 5 {
      h := TailCase(h, tail, 4, start);
    }
    if n >= 4 {
      h := TailCase(h, tail, 3, start);
    }
    if n >= 3 {
      h := TailCase(h, tail, 2, start);
    }
    if n >= 2 {
      h := TailCase(h, tail, 1, start);
    }
    if n >= 1 {
      h := TailCase(h, tail, 0, start);
      h := Scale(h);
    }
  }

  lemma AbsorbNothing(h: Word)
    ensures AbsorbWords(h, []) == h
  {
  }

  lemma AbsorbNext(h: Word, key: seq<Byte>, i: nat)
    requires i + 8 <= |key|
    ensures AbsorbWords(h, key[..i + 8]) == Absorb(AbsorbWords(h, key[..i]), WordAt(key[i..i + 8]))
  {
    hide Absorb, WordAt;
    assert key[..i + 8][..i] == key[..i] && key[..i + 8][i..] == key[i..i + 8];
  }

  /** The 64-bit hash: whole words, the last bytes, the final mixing. */
  method MurmurHash64A(key: seq<Byte>, seed: Word) returns (h: Word)
    requires |key| < TWO64
    ensures h == Hash(key, seed)
    ensures var whole := 8 * (|key| / 8);
            var words := AbsorbWords(Start(|key|, seed), key[..whole]);
            h == Finish(if |key| % 8 == 0 then words
                        else Xor(words, LittleEndian(key[whole..])) * 0xc6a4_a793_5bd1_e995 % TWO64)
  {
    hide AbsorbWords, AbsorbTail, Scale, Fold, Xor, WordAt, LittleEndian;
    h := XorWord(seed, Scale(|key|));
    ghost var start := h;
    AbsorbNothing(start);
    assert key[..0] == [];
    var data, end := 0, |key| / 8;
    while data != end
      invariant 0 <= data <= end
      invariant h == AbsorbWords(start, key[..8 * data])
    {
      AbsorbNext(start, key, 8 * data);
      var k := WordAt(key[8 * data..8 * data + 8]);
      k := MixWord(k);
      h := XorWord(h, k);
      h := Scale(h);
      data := data + 1;
    }
    h := TailSwitch(h, key[8 * end..]);
    assert key[8 * end..] == [] <==> |key| % 8 == 0;
    h := Fold(h);
    h := Scale(h);
    h := Fold(h);
  }

  /** The rehash of a word is the hash of its eight bytes under the same seed. */
  lemma RehashIsHashOfBytes(k: Word)
    ensures |ToBytes(k, 8)| == 8 && Hash(ToBytes(k, 8), SEED) == Rehash(k)
  {
    hide Absorb, Finish, Start, LittleEndian;
    var bytes := ToBytes(k, 8);
    Pow2Values();
    LittleEndianRoundTrip(k, 8);
    assert bytes[..8] == bytes && bytes[8..] == [] && bytes[..0] == [] && bytes[0..] == bytes;
    var h := Start(8, SEED);
    assert AbsorbWords(h, []) == h;
    assert AbsorbWords(h, bytes) == Absorb(h, WordAt(bytes));
  }
}
