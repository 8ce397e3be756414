/**
 Machine words as natural numbers. Shifts halve and double, and exclusive-or is addition without
 carries, one binary digit at a time.
 */
module Words {
  const TWO64: nat := 0x1_0000_0000_0000_0000

  type Byte = x: nat | x < 256
  type Word = x: nat | x < TWO64

  function Pow2(n: nat): (p: nat)
    ensures p >= 1
  {
    if n == 0 then 1 else 2 * Pow2(n - 1)
  }

  function Shr(x: nat, n: nat): nat
    decreases n
  {
    if n == 0 then x else Shr(x / 2, n - 1)
  }

  function Shl(x: nat, n: nat): nat
    decreases n
  {
    if n == 0 then x else 2 * Shl(x, n - 1)
  }

  function Xor(a: nat, b: nat): nat
    decreases a + b
  {
    if a == 0 && b == 0 then 0 else 2 * Xor(a / 2, b / 2) + (a + b) % 2
  }

  /** Multiples of 2^64 do not show in a word. */
  lemma ModuloAgain(x: int, k: int)
    ensures (x + TWO64 * k) % TWO64 == x % TWO64
  {
  }

  // ----- shifts -----

  lemma {:induction false} Pow2Monotone(m: nat, n: nat)
    requires m <= n
    ensures Pow2(m) <= Pow2(n)
    decreases n
  {
    if m == n {
    } else {
      Pow2Monotone(m, n - 1);
    }
  }

  lemma {:induction false} ShrTwice(x: nat, m: nat, n: nat)
    ensures Shr(Shr(x, m), n) == Shr(x, m + n)
    decreases m
  {
    if m == 0 {
    } else {
      ShrTwice(x / 2, m - 1, n);
    }
  }

  lemma {:induction false} ShrToZero(x: nat, n: nat)
    requires x < Pow2(n)
    ensures Shr(x, n) == 0
    decreases n
  {
    if n == 0 {
    } else {
      ShrToZero(x / 2, n - 1);
    }
  }

  lemma {:induction false} ShrAtMost(x: nat, n: nat)
    ensures Shr(x, n) <= x
    decreases n
  {
    if n == 0 {
    } else {
      ShrAtMost(x / 2, n - 1);
    }
  }

  lemma {:induction false} ShlTwice(x: nat, m: nat, n: nat)
    ensures Shl(Shl(x, m), n) == Shl(x, m + n)
    decreases n
  {
    if n == 0 {
    } else {
      ShlTwice(x, m, n - 1);
    }
  }

  lemma Pow2Byte(n: nat)
    ensures Pow2(n + 8) == 256 * Pow2(n)
  {
    assert Pow2(n + 2) == 4 * Pow2(n);
    assert Pow2(n + 4) == 16 * Pow2(n);
    assert Pow2(n + 6) == 64 * Pow2(n);
  }

  lemma ShlByte(x: nat)
    ensures Shl(x, 8) == 256 * x
  {
    assert Shl(x, 2) == 4 * x;
    assert Shl(x, 4) == 16 * x;
    assert Shl(x, 6) == 64 * x;
  }

  // ----- the algebra of exclusive-or -----

  lemma XorDigits(a: nat, b: nat)
    ensures Xor(a, b) / 2 == Xor(a / 2, b / 2)
    ensures Xor(a, b) % 2 == (a + b) % 2
  {
  }

  lemma {:induction false} XorZero(a: nat)
    ensures Xor(a, 0) == a && Xor(0, a) == a
    decreases a
  {
    if a == 0 {
    } else {
      XorZero(a / 2);
    }
  }

  lemma {:induction false} XorCommutes(a: nat, b: nat)
    ensures Xor(a, b) == Xor(b, a)
    decreases a + b
  {
    if a + b == 0 {
    } else {
      XorCommutes(a / 2, b / 2);
    }
  }

  lemma ParityAdds(x: nat, y: nat, z: nat)
    requires x % 2 == y % 2
    ensures (x + z) % 2 == (y + z) % 2
  {
  }

  /** Two numbers with the same half and the same last digit are equal. */
  lemma SameDigits(x: nat, y: nat)
    requires x / 2 == y / 2 && x % 2 == y % 2
    ensures x == y
  {
  }

  lemma XorParity(a: nat, b: nat, c: nat)
    ensures Xor(Xor(a, b), c) % 2 == (a + b + c) % 2
    ensures Xor(c, Xor(a, b)) % 2 == (a + b + c) % 2
  {
    hide Xor;
    var ab := Xor(a, b);
    XorDigits(a, b);
    XorDigits(ab, c);
    XorDigits(c, ab);
    ParityAdds(ab, a + b, c);
  }

  lemma XorAssociatesStep(a: nat, b: nat, c: nat)
    requires Xor(Xor(a / 2, b / 2), c / 2) == Xor(a / 2, Xor(b / 2, c / 2))
    ensures Xor(Xor(a, b), c) == Xor(a, Xor(b, c))
  {
    hide Xor;
    var ab, bc := Xor(a, b), Xor(b, c);
    XorDigits(a, b);
    XorDigits(b, c);
    XorDigits(ab, c);
    XorDigits(a, bc);
    XorParity(a, b, c);
    XorParity(b, c, a);
    SameDigits(Xor(ab, c), Xor(a, bc));
  }

  lemma {:induction false} XorAssociates(a: nat, b: nat, c: nat)
    ensures Xor(Xor(a, b), c) == Xor(a, Xor(b, c))
    decreases a + b + c
  {
    hide Xor;
    if a + b + c == 0 {
      XorZero(0);
    } else {
      XorAssociates(a / 2, b / 2, c / 2);
      XorAssociatesStep(a, b, c);
    }
  }

  lemma {:induction false} XorSelf(a: nat)
    ensures Xor(a, a) == 0
    decreases a
  {
    if a == 0 {
    } else {
      XorSelf(a / 2);
    }
  }

  /** A second exclusive-or with the same operand undoes the first. */
  lemma XorCancels(a: nat, b: nat)
    ensures Xor(Xor(a, b), b) == a
  {
    XorAssociates(a, b, b);
    XorSelf(b);
    XorZero(a);
  }

  lemma {:induction false} XorBound(a: nat, b: nat, n: nat)
    requires a < Pow2(n) && b < Pow2(n)
    ensures Xor(a, b) < Pow2(n)
    decreases n
  {
    if n == 0 || a + b == 0 {
    } else {
      XorBound(a / 2, b / 2, n - 1);
    }
  }

  /** A right shift distributes over exclusive-or. */
  lemma {:induction false} XorShift(a: nat, b: nat, n: nat)
    ensures Shr(Xor(a, b), n) == Xor(Shr(a, n), Shr(b, n))
    decreases n
  {
    if n == 0 {
    } else {
      hide Xor;
      XorDigits(a, b);
      XorShift(a / 2, b / 2, n - 1);
    }
  }

  lemma XorDouble(h: nat, low: nat)
    ensures Xor(2 * h, low) == 2 * Xor(h, low / 2) + low % 2
  {
    hide Xor;
    assert (2 * h) / 2 == h && (2 * h + low) % 2 == low % 2;
    XorDigits(2 * h, low);
    var x := Xor(2 * h, low);
    assert x == 2 * (x / 2) + x % 2;
  }

  /** Exclusive-or of words with no common digit is addition. */
  lemma {:induction false} XorDisjoint(low: nat, high: nat, n: nat)
    requires low < Pow2(n)
    ensures Xor(Shl(high, n), low) == Shl(high, n) + low
    decreases n
  {
    hide Xor;
    if n == 0 {
      XorZero(high);
    } else {
      XorDouble(Shl(high, n - 1), low);
      XorDisjoint(low / 2, high, n - 1);
    }
  }

  lemma ShlStep(x: nat, n: nat)
    ensures Shl(x, 0) == x && Shl(x, n + 1) == 2 * Shl(x, n)
  {
  }

  lemma {:induction false} ShlOverXor(x: nat, y: nat, n: nat)
    ensures Xor(Shl(x, n), Shl(y, n)) == Shl(Xor(x, y), n)
    decreases n
  {
    hide Xor, Shl;
    if n == 0 {
      ShlStep(x, 0);
      ShlStep(y, 0);
      ShlStep(Xor(x, y), 0);
    } else {
      ShlOverXor(x, y, n - 1);
      ShlStep(x, n - 1);
      ShlStep(y, n - 1);
      ShlStep(Xor(x, y), n - 1);
      XorDouble(Shl(x, n - 1), 2 * Shl(y, n - 1));
    }
  }

  lemma {:induction false} ShlOfZero(n: nat)
    ensures Shl(0, n) == 0
  {
    if n == 0 {
    } else {
      ShlOfZero(n - 1);
    }
  }

  lemma {:induction false} ShlBound(x: nat, m: nat, n: nat)
    requires x < Pow2(m)
    ensures Shl(x, n) < Pow2(m + n)
    decreases n
  {
    if n == 0 {
    } else {
      ShlBound(x, m, n - 1);
    }
  }

  lemma Pow2Values()
    ensures Pow2(8) == 256 && Pow2(23) == 0x80_0000 && Pow2(24) == 0x100_0000
    ensures Pow2(32) == 0x1_0000_0000 && Pow2(64) == TWO64
  {
    assert Pow2(4) == 16;
    assert Pow2(8) == 256;
    assert Pow2(16) == 0x1_0000;
    assert Pow2(24) == 0x100_0000;
    assert Pow2(32) == 0x1_0000_0000;
    assert Pow2(40) == 0x100_0000_0000;
    assert Pow2(48) == 0x1_0000_0000_0000;
    assert Pow2(56) == 0x100_0000_0000_0000;
  }
}
