/**
 The natural-number words agree with 64-bit machine words: exclusive-or, right shift, addition and multiplication, one
 binary digit at a time.
 */
module MachineWords {
  import opened Division
  import opened Words
  import Murmur

  // ----- facts about single digits of machine words -----

  lemma XorOfHalves(a: bv64, b: bv64)
    ensures (a ^ b) >> 1 == (a >> 1) ^ (b >> 1)
  {
  }

  lemma XorDigitwise(a: bv64, b: bv64)
    ensures (a ^ b) & 1 == (a & 1) ^ (b & 1)
    ensures a & 1 == 0 || a & 1 == 1
    ensures b & 1 == 0 || b & 1 == 1
  {
  }

  // ----- numbers of words -----

  function Digit(w: bv64): (d: nat)
    ensures d <= 1
  {
    if w & 1 == 1 then 1 else 0
  }

  /** The number that the lowest `n` digits of `w` stand for. */
  function Low(w: bv64, n: nat): nat {
    if n == 0 then 0 else 2 * Low(w >> 1, n - 1) + Digit(w)
  }

  lemma LowStep(w: bv64, n: nat)
    ensures Low(w, n + 1) == 2 * Low(w >> 1, n) + Digit(w)
    ensures Low(w, 0) == 0
  {
    hide Digit;
  }

  function NatOf(w: bv64): nat {
    Low(w, 64)
  }

  // ----- exclusive-or -----

  lemma DigitOfXor(a: bv64, b: bv64)
    ensures Digit(a ^ b) == (Digit(a) + Digit(b)) % 2
  {
    XorDigitwise(a, b);
  }

  lemma XorStep(x: nat, y: nat, p: nat, q: nat)
    requires p <= 1 && q <= 1
    ensures Xor(2 * x + p, 2 * y + q) == 2 * Xor(x, y) + (p + q) % 2
  {
    hide Xor;
    XorDigits(2 * x + p, 2 * y + q);
    assert (2 * x + p) / 2 == x && (2 * y + q) / 2 == y;
    var z := Xor(2 * x + p, 2 * y + q);
    assert z == 2 * (z / 2) + z % 2;
  }

  lemma LowOfXor(a: bv64, b: bv64, n: nat)
    ensures Low(a ^ b, n + 1) == 2 * Low((a >> 1) ^ (b >> 1), n) + (Digit(a) + Digit(b)) % 2
  {
    hide Digit, Low;
    LowStep(a ^ b, n);
    XorOfHalves(a, b);
    DigitOfXor(a, b);
  }

  lemma XorLowStep(a: bv64, b: bv64, n: nat)
    requires Low((a >> 1) ^ (b >> 1), n) == Xor(Low(a >> 1, n), Low(b >> 1, n))
    ensures Low(a ^ b, n + 1) == Xor(Low(a, n + 1), Low(b, n + 1))
  {
    hide Xor, Digit, Low;
    LowStep(a, n);
    LowStep(b, n);
    LowOfXor(a, b, n);
    XorStep(Low(a >> 1, n), Low(b >> 1, n), Digit(a), Digit(b));
  }

  lemma XorLowNone(a: bv64, b: bv64)
    ensures Low(a ^ b, 0) == Xor(Low(a, 0), Low(b, 0))
  {
    hide Digit;
    XorZero(0);
  }

  lemma {:induction false} XorLow(a: bv64, b: bv64, n: nat)
    ensures Low(a ^ b, n) == Xor(Low(a, n), Low(b, n))
  {
    hide Xor, Digit, Low;
    if n == 0 {
      XorLowNone(a, b);
    } else {
      XorLow(a >> 1, b >> 1, n - 1);
      XorLowStep(a, b, n - 1);
    }
  }

  // ----- right shift -----

  function Shifted(w: bv64, n: nat): bv64 {
    if n == 0 then w else Shifted(w >> 1, n - 1)
  }

  lemma {:induction false} ShiftedTwice(w: bv64, m: nat, n: nat)
    ensures Shifted(Shifted(w, m), n) == Shifted(w, m + n)
    decreases m
  {
    if m == 0 {
    } else {
      ShiftedTwice(w >> 1, m - 1, n);
    }
  }

  lemma ShiftedNone(w: bv64)
    ensures Shifted(w, 0) == w
  {
  }

  lemma ShiftedStep(w: bv64, n: nat)
    ensures Shifted(w, n + 1) == Shifted(w >> 1, n)
  {
  }

  // One machine shift after another, for the amounts that are needed.

  lemma OneAndOne(w: bv64)
    ensures (w >> 1) >> 1 == w >> 2
  {
  }

  lemma TwoAndTwo(w: bv64)
    ensures (w >> 2) >> 2 == w >> 4
  {
  }

  lemma FourAndFour(w: bv64)
    ensures (w >> 4) >> 4 == w >> 8
  {
  }

  lemma EightAndFour(w: bv64)
    ensures (w >> 8) >> 4 == w >> 12
  {
  }

  lemma EightAndEight(w: bv64)
    ensures (w >> 8) >> 8 == w >> 16
  {
  }

  lemma SixteenTwice(w: bv64)
    ensures (w >> 16) >> 16 == w >> 32
  {
  }

  lemma ThirtyTwoAndTwelve(w: bv64)
    ensures (w >> 32) >> 12 == w >> 44
  {
  }

  lemma FortyFourAndTwo(w: bv64)
    ensures (w >> 44) >> 2 == w >> 46
  {
  }

  lemma FortySixAndOne(w: bv64)
    ensures (w >> 46) >> 1 == w >> 47
  {
  }

  lemma ThirtyTwoTwice(w: bv64)
    ensures (w >> 32) >> 32 == 0
  {
  }

  lemma ShiftedByOne(w: bv64)
    ensures Shifted(w, 1) == w >> 1
  {
    hide Shifted;
    ShiftedStep(w, 0);
    ShiftedNone(w >> 1);
  }

  lemma ShiftedByTwo(w: bv64)
    ensures Shifted(w, 2) == w >> 2
  {
    hide Shifted;
    ShiftedByOne(w);
    ShiftedByOne(w >> 1);
    ShiftedTwice(w, 1, 1);
    OneAndOne(w);
  }

  lemma ShiftedByFour(w: bv64)
    ensures Shifted(w, 4) == w >> 4
  {
    hide Shifted;
    ShiftedByTwo(w);
    ShiftedByTwo(w >> 2);
    ShiftedTwice(w, 2, 2);
    TwoAndTwo(w);
  }

  lemma ShiftedByEight(w: bv64)
    ensures Shifted(w, 8) == w >> 8
  {
    hide Shifted;
    ShiftedByFour(w);
    ShiftedByFour(w >> 4);
    ShiftedTwice(w, 4, 4);
    FourAndFour(w);
  }

  lemma ShiftedByTwelve(w: bv64)
    ensures Shifted(w, 12) == w >> 12
  {
    hide Shifted;
    ShiftedByEight(w);
    ShiftedByFour(w >> 8);
    ShiftedTwice(w, 8, 4);
    EightAndFour(w);
  }

  lemma ShiftedBySixteen(w: bv64)
    ensures Shifted(w, 16) == w >> 16
  {
    hide Shifted;
    ShiftedByEight(w);
    ShiftedByEight(w >> 8);
    ShiftedTwice(w, 8, 8);
    EightAndEight(w);
  }

  lemma ShiftedByThirtyTwo(w: bv64)
    ensures Shifted(w, 32) == w >> 32
  {
    hide Shifted;
    ShiftedBySixteen(w);
    ShiftedBySixteen(w >> 16);
    ShiftedTwice(w, 16, 16);
    SixteenTwice(w);
  }

  lemma ShiftedBy44(w: bv64)
    ensures Shifted(w, 44) == w >> 44
  {
    hide Shifted;
    ShiftedByThirtyTwo(w);
    ShiftedByTwelve(w >> 32);
    ShiftedTwice(w, 32, 12);
    ThirtyTwoAndTwelve(w);
  }

  lemma ShiftedBy46(w: bv64)
    ensures Shifted(w, 46) == w >> 46
  {
    hide Shifted;
    ShiftedBy44(w);
    ShiftedByTwo(w >> 44);
    ShiftedTwice(w, 44, 2);
    FortyFourAndTwo(w);
  }

  lemma ShiftedBy47(w: bv64)
    ensures Shifted(w, 47) == w >> 47
  {
    hide Shifted;
    ShiftedBy46(w);
    ShiftedByOne(w >> 46);
    ShiftedTwice(w, 46, 1);
    FortySixAndOne(w);
  }

  lemma ShiftedBySixtyFour(w: bv64)
    ensures Shifted(w, 64) == 0
  {
    hide Shifted;
    ShiftedByThirtyTwo(w);
    ShiftedByThirtyTwo(w >> 32);
    ShiftedTwice(w, 32, 32);
    ThirtyTwoTwice(w);
  }

  lemma LowOfZero()
    ensures Low(0, 1) == Low(0, 0) == 0 && Digit(0) == 0
  {
    LowStep(0, 0);
    hide Low;
  }

  /** Digits that are zero from `n` on add nothing. */
  lemma {:induction false} LowStops(w: bv64, n: nat)
    requires Shifted(w, n) == 0
    ensures Low(w, n + 1) == Low(w, n)
    decreases n
  {
    hide Low, Shifted;
    if n == 0 {
      LowOfZero();
      ShiftedNone(w);
    } else {
      ShiftedStep(w, n - 1);
      LowStops(w >> 1, n - 1);
      LowStep(w, n);
      LowStep(w, n - 1);
    }
  }

  /** A right shift by one halves the number. */
  lemma HalfOfNat(w: bv64)
    ensures NatOf(w) == 2 * NatOf(w >> 1) + Digit(w)
  {
    hide Low, Shifted, Digit;
    ShiftedBySixtyFour(w);
    ShiftedStep(w, 63);
    LowStops(w >> 1, 63);
    LowStep(w, 63);
  }

  lemma {:induction false} ShrIsShifted(w: bv64, n: nat)
    ensures Shr(NatOf(w), n) == NatOf(Shifted(w, n))
    decreases n
  {
    hide Low, Digit, NatOf, Shifted;
    if n == 0 {
      ShiftedNone(w);
    } else {
      HalfOfNat(w);
      ShiftedStep(w, n - 1);
      ShrIsShifted(w >> 1, n - 1);
    }
  }

  // ----- addition -----

  ghost predicate IsMask(mask: bv64, n: nat) {
    if n == 0 then mask == 0 else mask & 1 == 1 && IsMask(mask >> 1, n - 1)
  }

  lemma AgreeOnHalves(u: bv64, v: bv64, mask: bv64)
    requires (u ^ v) & mask == 0 && mask & 1 == 1
    ensures u & 1 == v & 1 && ((u >> 1) ^ (v >> 1)) & (mask >> 1) == 0
  {
  }

  lemma SameDigit(u: bv64, v: bv64, mask: bv64)
    requires (u ^ v) & mask == 0 && mask & 1 == 1
    ensures Digit(u) == Digit(v)
  {
    AgreeOnHalves(u, v, mask);
  }

  lemma LowAgreesStep(u: bv64, v: bv64, mask: bv64, n: nat)
    requires Low(u >> 1, n) == Low(v >> 1, n)
    requires (u ^ v) & mask == 0 && mask & 1 == 1
    ensures Low(u, n + 1) == Low(v, n + 1)
  {
    hide Low, Digit;
    SameDigit(u, v, mask);
    LowStep(u, n);
    LowStep(v, n);
  }

  /** Only the lowest `n` digits count. */
  lemma {:induction false} LowAgrees(u: bv64, v: bv64, mask: bv64, n: nat)
    requires IsMask(mask, n) && (u ^ v) & mask == 0
    ensures Low(u, n) == Low(v, n)
  {
    hide Low, Digit;
    if n == 0 {
      LowStep(u, 0);
      LowStep(v, 0);
    } else {
      AgreeOnHalves(u, v, mask);
      LowAgrees(u >> 1, v >> 1, mask >> 1, n - 1);
      LowAgreesStep(u, v, mask, n - 1);
    }
  }

  // Named operations, so that proofs can treat them as black boxes.

  function Sum(a: bv64, b: bv64, carry: bool): bv64 {
    if carry then a + b + 1 else a + b
  }

  function Half(a: bv64): bv64 {
    a >> 1
  }

  predicate Odd(a: bv64) {
    a & 1 == 1
  }

  /** The two words agree on the digits of `mask`, but perhaps for its lowest. */
  predicate AgreeAbove(mask: bv64, u: bv64, v: bv64) {
    (u ^ v) & (mask >> 1) == 0
  }

  lemma HalfAndDigit(a: bv64)
    ensures a == if Odd(a) then 2 * Half(a) + 1 else 2 * Half(a)
  {
  }

  lemma EvenPlusEven(a: bv64, b: bv64, mask: bv64)
    ensures AgreeAbove(mask, Half(Sum(2 * a, 2 * b, false)), Sum(a, b, false)) && !Odd(Sum(2 * a, 2 * b, false))
  {
  }

  lemma EvenPlusEvenPlusOne(a: bv64, b: bv64, mask: bv64)
    ensures AgreeAbove(mask, Half(Sum(2 * a, 2 * b, true)), Sum(a, b, false)) && Odd(Sum(2 * a, 2 * b, true))
  {
  }

  lemma OddPlusEven(a: bv64, b: bv64, mask: bv64)
    ensures AgreeAbove(mask, Half(Sum(2 * a + 1, 2 * b, false)), Sum(a, b, false)) && Odd(Sum(2 * a + 1, 2 * b, false))
  {
  }

  lemma OddPlusEvenPlusOne(a: bv64, b: bv64, mask: bv64)
    ensures AgreeAbove(mask, Half(Sum(2 * a + 1, 2 * b, true)), Sum(a, b, true)) && !Odd(Sum(2 * a + 1, 2 * b, true))
  {
  }

  lemma OddPlusOdd(a: bv64, b: bv64, mask: bv64)
    ensures AgreeAbove(mask, Half(Sum(2 * a + 1, 2 * b + 1, false)), Sum(a, b, true))
            && !Odd(Sum(2 * a + 1, 2 * b + 1, false))
  {
  }

  lemma OddPlusOddPlusOne(a: bv64, b: bv64, mask: bv64)
    ensures AgreeAbove(mask, Half(Sum(2 * a + 1, 2 * b + 1, true)), Sum(a, b, true))
            && Odd(Sum(2 * a + 1, 2 * b + 1, true))
  {
  }

  lemma SumCommutes(a: bv64, b: bv64, carry: bool)
    ensures Sum(a, b, carry) == Sum(b, a, carry)
  {
  }

  function BoolDigit(b: bool): nat {
    if b then 1 else 0
  }

  /** The carry out of the lowest digit. */
  predicate Majority(p: bool, q: bool, r: bool) {
    (p && q) || (p && r) || (q && r)
  }

  /** One step of the addition by hand: upper digits, carry and lowest digit. */
  ghost predicate Adds(a: bv64, b: bv64, carry: bool, mask: bv64) {
    var sum, out := Sum(a, b, carry), Majority(Odd(a), Odd(b), carry);
    && AgreeAbove(mask, Half(sum), Sum(Half(a), Half(b), out))
    && BoolDigit(Odd(a)) + BoolDigit(Odd(b)) + BoolDigit(carry) == 2 * BoolDigit(out) + BoolDigit(Odd(sum))
  }

  lemma AddsEvenPlusEven(a: bv64, b: bv64, mask: bv64)
    requires !Odd(a) && !Odd(b)
    ensures Adds(a, b, false, mask)
  {
    hide Sum, Half, Odd, AgreeAbove;
    HalfAndDigit(a);
    HalfAndDigit(b);
    EvenPlusEven(Half(a), Half(b), mask);
  }

  lemma AddsEvenPlusEvenPlusOne(a: bv64, b: bv64, mask: bv64)
    requires !Odd(a) && !Odd(b)
    ensures Adds(a, b, true, mask)
  {
    hide Sum, Half, Odd, AgreeAbove;
    HalfAndDigit(a);
    HalfAndDigit(b);
    EvenPlusEvenPlusOne(Half(a), Half(b), mask);
  }

  lemma AddsOddPlusEven(a: bv64, b: bv64, mask: bv64)
    requires Odd(a) && !Odd(b)
    ensures Adds(a, b, false, mask)
  {
    hide Sum, Half, Odd, AgreeAbove;
    HalfAndDigit(a);
    HalfAndDigit(b);
    OddPlusEven(Half(a), Half(b), mask);
  }

  lemma AddsOddPlusEvenPlusOne(a: bv64, b: bv64, mask: bv64)
    requires Odd(a) && !Odd(b)
    ensures Adds(a, b, true, mask)
  {
    hide Sum, Half, Odd, AgreeAbove;
    HalfAndDigit(a);
    HalfAndDigit(b);
    OddPlusEvenPlusOne(Half(a), Half(b), mask);
  }

  lemma AddsOddPlusOdd(a: bv64, b: bv64, mask: bv64)
    requires Odd(a) && Odd(b)
    ensures Adds(a, b, false, mask)
  {
    hide Sum, Half, Odd, AgreeAbove;
    HalfAndDigit(a);
    HalfAndDigit(b);
    OddPlusOdd(Half(a), Half(b), mask);
  }

  lemma AddsOddPlusOddPlusOne(a: bv64, b: bv64, mask: bv64)
    requires Odd(a) && Odd(b)
    ensures Adds(a, b, true, mask)
  {
    hide Sum, Half, Odd, AgreeAbove;
    HalfAndDigit(a);
    HalfAndDigit(b);
    OddPlusOddPlusOne(Half(a), Half(b), mask);
  }

  lemma AddsWithOddFirst(a: bv64, b: bv64, carry: bool, mask: bv64)
    requires Odd(b) ==> Odd(a)
    ensures Adds(a, b, carry, mask)
  {
    hide Sum, Half, Odd, AgreeAbove, Adds;
    if Odd(b) {
      if carry {
        AddsOddPlusOddPlusOne(a, b, mask);
      } else {
        AddsOddPlusOdd(a, b, mask);
      }
    } else if Odd(a) {
      if carry {
        AddsOddPlusEvenPlusOne(a, b, mask);
      } else {
        AddsOddPlusEven(a, b, mask);
      }
    } else {
      if carry {
        AddsEvenPlusEvenPlusOne(a, b, mask);
      } else {
        AddsEvenPlusEven(a, b, mask);
      }
    }
  }

  lemma AddsAlways(a: bv64, b: bv64, carry: bool, mask: bv64)
    ensures Adds(a, b, carry, mask)
  {
    hide Sum, Half, Odd, AgreeAbove;
    if Odd(b) && !Odd(a) {
      AddsWithOddFirst(b, a, carry, mask);
      SumCommutes(a, b, carry);
      SumCommutes(Half(a), Half(b), Majority(Odd(a), Odd(b), carry));
    } else {
      AddsWithOddFirst(a, b, carry, mask);
    }
  }

  lemma DoubleModulo(x: nat, d: nat, p: nat)
    requires p > 0 && d <= 1
    ensures (2 * x + d) % (2 * p) == 2 * (x % p) + d
  {
    var q, r := x / p, x % p;
    assert x == p * q + r;
    assert 2 * x + d == (2 * p) * q + (2 * r + d);
    DivisionIsUnique(2 * x + d, 2 * p, q, 2 * r + d);
  }

  lemma LowOfHalf(w: bv64, n: nat)
    ensures Low(w, n + 1) == 2 * Low(Half(w), n) + BoolDigit(Odd(w))
    ensures Low(w, 0) == 0
  {
    LowStep(w, n);
    hide Low;
  }

  lemma MaskOfHalf(mask: bv64, n: nat)
    requires IsMask(mask, n + 1)
    ensures IsMask(Half(mask), n)
  {
  }

  lemma AgreeingLow(u: bv64, v: bv64, mask: bv64, n: nat)
    requires IsMask(Half(mask), n) && AgreeAbove(mask, u, v)
    ensures Low(u, n) == Low(v, n)
  {
    LowAgrees(u, v, Half(mask), n);
  }

  lemma AddLowStep(a: bv64, b: bv64, carry: bool, mask: bv64, n: nat)
    requires Adds(a, b, carry, mask)
    requires Low(Half(Sum(a, b, carry)), n) ==
               (Low(Half(a), n) + Low(Half(b), n) + BoolDigit(Majority(Odd(a), Odd(b), carry))) % Pow2(n)
    ensures Low(Sum(a, b, carry), n + 1) == (Low(a, n + 1) + Low(b, n + 1) + BoolDigit(carry)) % Pow2(n + 1)
  {
    hide Low, Sum, Half, Odd, AgreeAbove;
    LowOfHalf(a, n);
    LowOfHalf(b, n);
    LowOfHalf(Sum(a, b, carry), n);
    DoubleModulo(Low(Half(a), n) + Low(Half(b), n) + BoolDigit(Majority(Odd(a), Odd(b), carry)),
                 BoolDigit(Odd(Sum(a, b, carry))), Pow2(n));
  }

  lemma AddLowNone(a: bv64, b: bv64, carry: bool)
    ensures Low(Sum(a, b, carry), 0) == (Low(a, 0) + Low(b, 0) + BoolDigit(carry)) % Pow2(0)
  {
    hide Sum, Half, Odd;
    LowOfHalf(a, 0);
    LowOfHalf(b, 0);
    LowOfHalf(Sum(a, b, carry), 0);
    hide Low;
  }

  lemma AddsAgrees(a: bv64, b: bv64, carry: bool, mask: bv64, n: nat)
    requires Adds(a, b, carry, mask) && IsMask(Half(mask), n)
    ensures Low(Half(Sum(a, b, carry)), n) == Low(Sum(Half(a), Half(b), Majority(Odd(a), Odd(b), carry)), n)
  {
    hide Low, Sum, Half, Odd, AgreeAbove, IsMask, Majority;
    AgreeingLow(Half(Sum(a, b, carry)), Sum(Half(a), Half(b), Majority(Odd(a), Odd(b), carry)), mask, n);
  }

  lemma {:induction false} AddLow(a: bv64, b: bv64, carry: bool, mask: bv64, n: nat)
    requires IsMask(mask, n)
    ensures Low(Sum(a, b, carry), n) == (Low(a, n) + Low(b, n) + BoolDigit(carry)) % Pow2(n)
    decreases n
  {
    hide Low, Sum, Half, Odd, AgreeAbove, IsMask, Majority, BoolDigit, Pow2, Adds;
    if n == 0 {
      AddLowNone(a, b, carry);
    } else {
      var out := Majority(Odd(a), Odd(b), carry);
      AddsAlways(a, b, carry, mask);
      MaskOfHalf(mask, n - 1);
      AddLow(Half(a), Half(b), out, Half(mask), n - 1);
      AddsAgrees(a, b, carry, mask, n - 1);
      AddLowStep(a, b, carry, mask, n - 1);
    }
  }

  function OneMoreOne(mask: bv64): bv64 {
    2 * mask + 1
  }

  lemma TopDigitFree(mask: bv64)
    requires mask <= 0x7fff_ffff_ffff_ffff
    ensures OneMoreOne(mask) >> 1 == mask && OneMoreOne(mask) & 1 == 1
  {
  }

  lemma MaskMore(mask: bv64, n: nat)
    requires IsMask(mask, n) && mask <= 0x7fff_ffff_ffff_ffff
    ensures IsMask(OneMoreOne(mask), n + 1)
  {
    TopDigitFree(mask);
  }

  lemma FourMoreOnes(mask: bv64)
    requires mask <= 0x0fff_ffff_ffff_ffff
    ensures OneMoreOne(OneMoreOne(OneMoreOne(OneMoreOne(mask)))) == 16 * mask + 15
    ensures OneMoreOne(mask) <= 0x7fff_ffff_ffff_ffff && OneMoreOne(OneMoreOne(mask)) <= 0x7fff_ffff_ffff_ffff
    ensures OneMoreOne(OneMoreOne(OneMoreOne(mask))) <= 0x7fff_ffff_ffff_ffff
  {
  }

  lemma MaskNibble(mask: bv64, n: nat)
    requires IsMask(mask, n) && mask <= 0x0fff_ffff_ffff_ffff
    ensures IsMask(16 * mask + 15, n + 4)
  {
    hide IsMask, OneMoreOne;
    FourMoreOnes(mask);
    MaskMore(mask, n);
    MaskMore(OneMoreOne(mask), n + 1);
    MaskMore(OneMoreOne(OneMoreOne(mask)), n + 2);
    MaskMore(OneMoreOne(OneMoreOne(OneMoreOne(mask))), n + 3);
  }

  lemma FullMask()
    ensures IsMask(0xffff_ffff_ffff_ffff, 64)
  {
    assert IsMask(0, 0);
    hide IsMask;
    MaskNibble(0x0, 0);
    MaskNibble(0xf, 4);
    MaskNibble(0xff, 8);
    MaskNibble(0xfff, 12);
    MaskNibble(0xffff, 16);
    MaskNibble(0xfffff, 20);
    MaskNibble(0xff_ffff, 24);
    MaskNibble(0xfffffff, 28);
    MaskNibble(0xffff_ffff, 32);
    MaskNibble(0xfffffffff, 36);
    MaskNibble(0xff_ffff_ffff, 40);
    MaskNibble(0xfffffffffff, 44);
    MaskNibble(0xffff_ffff_ffff, 48);
    MaskNibble(0xfffffffffffff, 52);
    MaskNibble(0xff_ffff_ffff_ffff, 56);
    MaskNibble(0xfffffffffffffff, 60);
  }

  /** Machine addition is addition modulo 2^64. */
  lemma SumIsAddition(a: bv64, b: bv64)
    ensures NatOf(Sum(a, b, false)) == (NatOf(a) + NatOf(b)) % TWO64
  {
    hide Low, Sum;
    FullMask();
    hide IsMask;
    AddLow(a, b, false, 0xffff_ffff_ffff_ffff, 64);
    Pow2Values();
  }

  // ----- multiplication by the constant of the hash -----

  function Scaled(a: bv64): bv64 {
    a * 0xc6a4_a793_5bd1_e995
  }

  lemma ScaledEven(y: bv64)
    ensures Scaled(2 * y) == 2 * Scaled(y)
  {
  }

  lemma ScaledZero()
    ensures Scaled(0) == 0
  {
  }

  lemma ScaledOdd(y: bv64)
    ensures Scaled(2 * y + 1) == Sum(2 * Scaled(y), 0xc6a4_a793_5bd1_e995, false)
  {
  }

  lemma Doubling(a: bv64)
    ensures 2 * a == Sum(a, a, false)
  {
  }

  lemma HalfIs(x: bv64)
    ensures Half(x) == x >> 1
  {
  }

  /** Half of a word is a word that a shorter shift empties. */
  lemma HalfShifts(x: bv64, n: nat)
    ensures Shifted(x, n + 1) == Shifted(Half(x), n) && Shifted(x, 0) == x
  {
    hide Half;
    ShiftedStep(x, n);
    assert Half(x) == x >> 1 by { HalfIs(x); }
  }

  lemma NatOfHalf(x: bv64)
    ensures NatOf(x) == 2 * NatOf(Half(x)) + BoolDigit(Odd(x))
  {
    HalfOfNat(x);
    HalfIs(x);
    hide NatOf, Half;
  }

  lemma DoubledNat(a: bv64)
    ensures NatOf(2 * a) == 2 * NatOf(a) % TWO64
  {
    hide NatOf, Sum;
    Doubling(a);
    SumIsAddition(a, a);
  }

  lemma ScaleOfDouble(y: nat, m: nat, s: nat, d: nat)
    requires s == y * m % TWO64 && d == 2 * s % TWO64
    ensures d == 2 * y * m % TWO64 && (d + m) % TWO64 == (2 * y + 1) * m % TWO64
  {
    var q := y * m / TWO64;
    assert y * m == TWO64 * q + s;
    assert 2 * y * m == TWO64 * (2 * q) + 2 * s;
    assert (2 * y + 1) * m == 2 * y * m + m;
    ModuloAgain(2 * s, 2 * q);
    var p := 2 * s / TWO64;
    assert 2 * s == TWO64 * p + d;
    ModuloAgain(d + m, p + 2 * q);
    assert (2 * y + 1) * m == (d + m) + TWO64 * (p + 2 * q);
  }

  lemma FourHalves(w: bv64)
    ensures Half(Half(Half(Half(w)))) == w >> 4
  {
  }

  lemma OddHalves(w: bv64)
    ensures Odd(Half(w)) <==> w & 2 == 2
    ensures Odd(Half(Half(w))) <==> w & 4 == 4
    ensures Odd(Half(Half(Half(w)))) <==> w & 8 == 8
  {
  }

  /** The lowest hexadecimal digit of a word. */
  function Nibble(w: bv64): nat {
    (if w & 1 == 1 then 1 else 0) + (if w & 2 == 2 then 2 else 0) + (if w & 4 == 4 then 4 else 0)
    + if w & 8 == 8 then 8 else 0
  }

  lemma FourDigits(w: bv64, n: nat)
    ensures Low(w, n + 4) ==
              16 * Low(Half(Half(Half(Half(w)))), n) + 8 * BoolDigit(Odd(Half(Half(Half(w)))))
              + 4 * BoolDigit(Odd(Half(Half(w)))) + 2 * BoolDigit(Odd(Half(w))) + BoolDigit(Odd(w))
  {
    hide Low, Half, Odd, BoolDigit;
    LowOfHalf(w, n + 3);
    LowOfHalf(Half(w), n + 2);
    LowOfHalf(Half(Half(w)), n + 1);
    LowOfHalf(Half(Half(Half(w))), n);
  }

  lemma NibbleIs(w: bv64)
    ensures Nibble(w) == 8 * BoolDigit(Odd(Half(Half(Half(w))))) + 4 * BoolDigit(Odd(Half(Half(w))))
                         + 2 * BoolDigit(Odd(Half(w))) + BoolDigit(Odd(w))
  {
    OddHalves(w);
    hide Half;
  }

  lemma LowNibble(w: bv64, rest: bv64, d: nat, n: nat)
    requires rest == w >> 4 && d == Nibble(w)
    ensures Low(w, n + 4) == 16 * Low(rest, n) + d
  {
    hide Low, Half, Odd, BoolDigit, Nibble;
    FourDigits(w, n);
    NibbleIs(w);
    FourHalves(w);
  }

  /** One more hexadecimal digit of a literal. */
  lemma Extend(w: bv64, rest: bv64, d: nat, n: nat, value: nat)
    requires rest == w >> 4 && d == Nibble(w) && Low(rest, n) == value
    ensures Low(w, n + 4) == 16 * value + d
  {
    hide Low, Nibble;
    LowNibble(w, rest, d, n);
  }

  lemma MultiplierPart1()
    ensures Low(0xc6a4, 16) == 0xc6a4
  {
    LowStep(0, 0);
    hide Low;
    Extend(0xc, 0x0, 12, 0, 0x0);
    Extend(0xc6, 0xc, 6, 4, 0xc);
    Extend(0xc6a, 0xc6, 10, 8, 0xc6);
    Extend(0xc6a4, 0xc6a, 4, 12, 0xc6a);
  }

  lemma MultiplierPart2()
    ensures Low(0xc6a4a793, 32) == 0xc6a4a793
  {
    MultiplierPart1();
    hide Low;
    Extend(0xc6a4a, 0xc6a4, 10, 16, 0xc6a4);
    Extend(0xc6a4a7, 0xc6a4a, 7, 20, 0xc6a4a);
    Extend(0xc6a4a79, 0xc6a4a7, 9, 24, 0xc6a4a7);
    Extend(0xc6a4a793, 0xc6a4a79, 3, 28, 0xc6a4a79);
  }

  lemma MultiplierPart3()
    ensures Low(0xc6a4a7935bd1, 48) == 0xc6a4a7935bd1
  {
    MultiplierPart2();
    hide Low;
    Extend(0xc6a4a7935, 0xc6a4a793, 5, 32, 0xc6a4a793);
    Extend(0xc6a4a7935b, 0xc6a4a7935, 11, 36, 0xc6a4a7935);
    Extend(0xc6a4a7935bd, 0xc6a4a7935b, 13, 40, 0xc6a4a7935b);
    Extend(0xc6a4a7935bd1, 0xc6a4a7935bd, 1, 44, 0xc6a4a7935bd);
  }

  lemma MultiplierPart4()
    ensures Low(0xc6a4a7935bd1e995, 64) == 0xc6a4a7935bd1e995
  {
    MultiplierPart3();
    hide Low;
    Extend(0xc6a4a7935bd1e, 0xc6a4a7935bd1, 14, 48, 0xc6a4a7935bd1);
    Extend(0xc6a4a7935bd1e9, 0xc6a4a7935bd1e, 9, 52, 0xc6a4a7935bd1e);
    Extend(0xc6a4a7935bd1e99, 0xc6a4a7935bd1e9, 9, 56, 0xc6a4a7935bd1e9);
    Extend(0xc6a4a7935bd1e995, 0xc6a4a7935bd1e99, 5, 60, 0xc6a4a7935bd1e99);
  }

  lemma MultiplierIs()
    ensures NatOf(0xc6a4_a793_5bd1_e995) == 0xc6a4_a793_5bd1_e995
  {
    hide Low;
    MultiplierPart4();
  }

  lemma NatOfZero()
    ensures NatOf(0) == 0
  {
    NatOfHalf(0);
    HalfIs(0);
    hide NatOf;
  }

  lemma ScaledOfEven(x: bv64)
    requires !Odd(x)
    ensures Scaled(x) == 2 * Scaled(Half(x))
  {
    hide Scaled, Half, Sum, Odd;
    HalfAndDigit(x);
    ScaledEven(Half(x));
  }

  lemma ScaledOfOdd(x: bv64)
    requires Odd(x)
    ensures Scaled(x) == Sum(2 * Scaled(Half(x)), 0xc6a4_a793_5bd1_e995, false)
  {
    hide Scaled, Half, Sum, Odd;
    HalfAndDigit(x);
    ScaledOdd(Half(x));
  }

  lemma ScaledStep(x: bv64)
    requires NatOf(Scaled(Half(x))) == NatOf(Half(x)) * 0xc6a4_a793_5bd1_e995 % TWO64
    ensures NatOf(Scaled(x)) == NatOf(x) * 0xc6a4_a793_5bd1_e995 % TWO64
  {
    hide NatOf, Scaled, Half, Sum;
    NatOfHalf(x);
    if Odd(x) {
      ScaledOfOdd(x);
    } else {
      ScaledOfEven(x);
    }
    hide Odd;
    DoubledNat(Scaled(Half(x)));
    SumIsAddition(2 * Scaled(Half(x)), 0xc6a4_a793_5bd1_e995);
    MultiplierIs();
    ScaleOfDouble(NatOf(Half(x)), 0xc6a4_a793_5bd1_e995, NatOf(Scaled(Half(x))), NatOf(2 * Scaled(Half(x))));
  }

  lemma {:induction false} ScaledLow(x: bv64, n: nat)
    requires Shifted(x, n) == 0
    ensures NatOf(Scaled(x)) == NatOf(x) * 0xc6a4_a793_5bd1_e995 % TWO64
    decreases n
  {
    hide NatOf, Scaled, Half, Odd, Shifted;
    HalfShifts(x, 0);
    if n == 0 {
      ScaledZero();
      NatOfZero();
    } else {
      HalfShifts(x, n - 1);
      ScaledLow(Half(x), n - 1);
      ScaledStep(x);
    }
  }

  /** Machine multiplication by the constant is multiplication modulo 2^64. */
  lemma ScaledIsMultiplication(x: bv64)
    ensures NatOf(Scaled(x)) == NatOf(x) * 0xc6a4_a793_5bd1_e995 % TWO64
  {
    hide NatOf, Scaled;
    ShiftedBySixtyFour(x);
    ScaledLow(x, 64);
  }

  // ----- the rehash -----

  lemma {:induction false} LowBound(w: bv64, n: nat)
    ensures Low(w, n) < Pow2(n)
  {
    hide Digit;
    if n == 0 {
    } else {
      LowBound(w >> 1, n - 1);
    }
  }

  lemma NatOfIsWord(w: bv64)
    ensures NatOf(w) < TWO64
  {
    hide Low;
    LowBound(w, 64);
    Pow2Values();
  }

  function Xored(a: bv64, b: bv64): bv64 {
    a ^ b
  }

  function Shift(w: bv64): bv64 {
    w >> 47
  }

  function Folded(w: bv64): bv64 {
    Xored(w, Shift(w))
  }

  lemma XoredIsXor(a: bv64, b: bv64)
    ensures NatOf(Xored(a, b)) == Xor(NatOf(a), NatOf(b))
  {
    hide Low, Xor;
    XorLow(a, b, 64);
  }

  lemma ShiftIsShr(w: bv64)
    ensures NatOf(Shift(w)) == Shr(NatOf(w), 47)
  {
    hide NatOf, Shr, Shifted;
    ShiftedBy47(w);
    ShrIsShifted(w, 47);
  }

  lemma FoldedIsFold(w: bv64)
    ensures NatOf(w) < TWO64 && NatOf(Folded(w)) == Murmur.Fold(NatOf(w))
  {
    hide NatOf, Shr, Xor, Xored, Shift;
    NatOfIsWord(w);
    ShiftIsShr(w);
    XoredIsXor(w, Shift(w));
  }

  lemma SeedIs()
    ensures Low(0xf9f198ef, 32) == 0xf9f198ef && Low(0x8, 4) == 8
  {
    LowStep(0, 0);
    hide Low;
    Extend(0xf, 0x0, 15, 0, 0x0);
    Extend(0xf9, 0xf, 9, 4, 0xf);
    Extend(0xf9f, 0xf9, 15, 8, 0xf9);
    Extend(0xf9f1, 0xf9f, 1, 12, 0xf9f);
    Extend(0xf9f19, 0xf9f1, 9, 16, 0xf9f1);
    Extend(0xf9f198, 0xf9f19, 8, 20, 0xf9f19);
    Extend(0xf9f198e, 0xf9f198, 14, 24, 0xf9f198);
    Extend(0xf9f198ef, 0xf9f198e, 15, 28, 0xf9f198e);
    Extend(0x8, 0x0, 8, 0, 0x0);
  }

  lemma ZeroHalf()
    ensures (0 as bv64) >> 1 == 0
  {
  }

  lemma {:induction false} ShiftedZero(n: nat)
    ensures Shifted(0, n) == 0
  {
    if n == 0 {
    } else {
      ZeroHalf();
      ShiftedZero(n - 1);
    }
  }

  lemma NatOfSmall(w: bv64, n: nat, m: nat)
    requires Shifted(w, n) == 0
    ensures Low(w, n + m) == Low(w, n)
    decreases m
  {
    hide Low, Shifted;
    if m == 0 {
    } else {
      NatOfSmall(w, n, m - 1);
      ShiftedTwice(w, n, m - 1);
      ShiftedZero(m - 1);
      LowStops(w, n + m - 1);
    }
  }

  lemma StartLiteral()
    ensures Xored(0xf9f1_98ef, Scaled(8)) == 0x3525_3c9a_277e_d447
  {
  }

  lemma SeedIsSmall()
    ensures Shifted(0xf9f1_98ef, 32) == 0 && Shifted(8, 4) == 0
  {
    hide Shifted;
    ShiftedByThirtyTwo(0xf9f1_98ef);
    ShiftedByFour(8);
  }

  lemma SeedWords()
    ensures NatOf(0xf9f1_98ef) == Murmur.SEED && NatOf(8) == 8
  {
    SeedIs();
    hide Low;
    SeedIsSmall();
    NatOfSmall(0xf9f1_98ef, 32, 32);
    NatOfSmall(8, 4, 60);
  }

  /** The state before the word is absorbed, as the machine computes it. */
  lemma StartIs()
    ensures NatOf(0x3525_3c9a_277e_d447) == Murmur.Start(8, Murmur.SEED)
  {
    hide NatOf, Xored, Scaled, Xor;
    SeedWords();
    ScaledIsMultiplication(8);
    XoredIsXor(0xf9f1_98ef, Scaled(8));
    StartLiteral();
  }

  /** murmur_rehash_64A on machine words. */
  function Rehashed(k: bv64): bv64 {
    var mixed := Scaled(Folded(Scaled(k)));
    var h := Scaled(Xored(0x3525_3c9a_277e_d447, mixed));
    Folded(Scaled(Folded(h)))
  }

  lemma ScaledIsScale(x: bv64)
    ensures NatOf(Scaled(x)) == Murmur.Scale(NatOf(x))
  {
    hide NatOf, Scaled;
    ScaledIsMultiplication(x);
  }

  /** The rehash on machine words is the rehash of their numbers. */
  lemma RehashedIsRehash(k: bv64)
    ensures NatOf(k) < TWO64 && NatOf(Rehashed(k)) == Murmur.Rehash(NatOf(k))
  {
    hide NatOf, Scaled, Folded, Xored, Murmur.Scale, Murmur.Fold, Xor, Murmur.Start;
    NatOfIsWord(k);
    var k1 := Scaled(k);
    ScaledIsScale(k);
    FoldedIsFold(k1);
    ScaledIsScale(Folded(k1));
    StartIs();
    XoredIsXor(0x3525_3c9a_277e_d447, Scaled(Folded(k1)));
    var h := Xored(0x3525_3c9a_277e_d447, Scaled(Folded(k1)));
    ScaledIsScale(h);
    FoldedIsFold(Scaled(h));
    ScaledIsScale(Folded(Scaled(h)));
    FoldedIsFold(Scaled(Folded(Scaled(h))));
  }

  // ----- single digits -----

  function FewHexShift(w: bv64, q: nat): bv64
    requires q < 4
  {
    if q == 0 then w else if q == 1 then w >> 4 else if q == 2 then w >> 8 else w >> 12
  }

  function LowHexShift(w: bv64, q: nat): bv64
    requires q < 8
  {
    if q < 4 then FewHexShift(w, q) else FewHexShift(w >> 16, q - 4)
  }

  /** The word shifted right by `q` hexadecimal digits. */
  function HexShift(w: bv64, q: nat): bv64
    requires q < 16
  {
    if q < 8 then LowHexShift(w, q) else LowHexShift(w >> 32, q - 8)
  }

  lemma FewHexShiftIsShifted(w: bv64, q: nat)
    requires q < 4
    ensures Shifted(w, 4 * q) == FewHexShift(w, q)
  {
    hide Shifted;
    ShiftedNone(w);
    ShiftedByFour(w);
    ShiftedByEight(w);
    ShiftedByTwelve(w);
  }

  lemma LowHexShiftIsShifted(w: bv64, q: nat)
    requires q < 8
    ensures Shifted(w, 4 * q) == LowHexShift(w, q)
  {
    hide Shifted, FewHexShift;
    if q < 4 {
      FewHexShiftIsShifted(w, q);
    } else {
      ShiftedBySixteen(w);
      FewHexShiftIsShifted(w >> 16, q - 4);
      ShiftedTwice(w, 16, 4 * (q - 4));
    }
  }

  lemma HexShiftIsShifted(w: bv64, q: nat)
    requires q < 16
    ensures Shifted(w, 4 * q) == HexShift(w, q)
  {
    hide Shifted, LowHexShift;
    if q < 8 {
      LowHexShiftIsShifted(w, q);
    } else {
      ShiftedByThirtyTwo(w);
      LowHexShiftIsShifted(w >> 32, q - 8);
      ShiftedTwice(w, 32, 4 * (q - 8));
    }
  }

  /** Digit `j` of a word. */
  predicate BitOf(w: bv64, j: nat)
    requires j < 64
  {
    var x := HexShift(w, j / 4);
    match j % 4
    case 0 => x & 1 == 1
    case 1 => x & 2 == 2
    case 2 => x & 4 == 4
    case _ => x & 8 == 8
  }

  lemma OddShifted(x: bv64, r: nat)
    requires r < 4
    ensures r == 0 ==> Shifted(x, r) == x
    ensures r == 1 ==> Shifted(x, r) == Half(x)
    ensures r == 2 ==> Shifted(x, r) == Half(Half(x))
    ensures r == 3 ==> Shifted(x, r) == Half(Half(Half(x)))
  {
    hide Shifted, Half;
    HalfShifts(x, 0);
    HalfShifts(x, 1);
    HalfShifts(x, 2);
    HalfShifts(Half(x), 0);
    HalfShifts(Half(x), 1);
    HalfShifts(Half(x), 1);
    HalfShifts(Half(Half(x)), 0);
    ShiftedNone(Half(Half(Half(x))));
  }

  lemma OddIs(x: bv64)
    ensures Odd(x) <==> x & 1 == 1
  {
  }

  lemma DigitOfShifted(x: bv64, r: nat)
    requires r < 4
    ensures Odd(Shifted(x, r)) <==>
              if r == 0 then x & 1 == 1 else if r == 1 then x & 2 == 2 else if r == 2 then x & 4 == 4 else x & 8 == 8
  {
    hide Shifted, Half, Odd;
    OddShifted(x, r);
    OddHalves(x);
    OddIs(x);
  }

  lemma ParityOfNat(x: bv64)
    ensures NatOf(x) % 2 == if Odd(x) then 1 else 0
  {
    hide NatOf, Half, Odd;
    NatOfHalf(x);
  }

  lemma BitOfIsDigit(w: bv64, j: nat)
    requires j < 64
    ensures Shr(NatOf(w), j) % 2 == if BitOf(w, j) then 1 else 0
  {
    hide NatOf, Shr, Shifted, HexShift, Half, Odd;
    ShrIsShifted(w, j);
    HexShiftIsShifted(w, j / 4);
    ShiftedTwice(w, 4 * (j / 4), j % 4);
    assert 4 * (j / 4) + j % 4 == j;
    DigitOfShifted(HexShift(w, j / 4), j % 4);
    ParityOfNat(Shifted(w, j));
    assert Shifted(w, j) == Shifted(HexShift(w, j / 4), j % 4);
    assert Odd(Shifted(w, j)) <==> BitOf(w, j);
  }
}
