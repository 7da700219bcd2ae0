/** Bitwise operators on natural numbers. Shifts are multiplications and divisions by powers
    of two. */
module Bitwise {

  function Xor(a: nat, b: nat): nat {
    if a == 0 && b == 0 then 0
    else (if a % 2 == b % 2 then 0 else 1) + 2 * Xor(a / 2, b / 2)
  }

  function Pow2(n: nat): (p: nat)
    ensures p >= 1
  {
    if n == 0 then 1 else 2 * Pow2(n - 1)
  }

  lemma XorHalf(a: nat, b: nat)
    ensures Xor(a, b) / 2 == Xor(a / 2, b / 2)
    ensures Xor(a, b) % 2 == if a % 2 == b % 2 then 0 else 1
  {
    if a == 0 && b == 0 {
      assert Xor(a / 2, b / 2) == 0;
    }
  }

  lemma {:induction false} XorCommutes(a: nat, b: nat)
    ensures Xor(a, b) == Xor(b, a)
  {
    if a != 0 || b != 0 {
      XorCommutes(a / 2, b / 2);
    }
  }

  lemma {:induction false} XorZero(a: nat)
    ensures Xor(a, 0) == a
  {
    if a != 0 {
      XorZero(a / 2);
    }
  }

  lemma {:induction false} XorSelf(a: nat)
    ensures Xor(a, a) == 0
  {
    if a != 0 {
      XorSelf(a / 2);
    }
  }

  lemma {:induction false} XorAssociates(a: nat, b: nat, c: nat)
    ensures Xor(a, Xor(b, c)) == Xor(Xor(a, b), c)
    decreases a + b + c
  {
    if a != 0 || b != 0 || c != 0 {
      XorHalf(b, c);
      XorHalf(a, b);
      XorHalf(a, Xor(b, c));
      XorHalf(Xor(a, b), c);
      XorAssociates(a / 2, b / 2, c / 2);
    }
  }

  lemma XorTwice(a: nat, b: nat)
    ensures Xor(Xor(a, b), b) == a
  {
    XorAssociates(a, b, b);
    XorSelf(b);
    XorZero(a);
  }

  lemma XorNonzero(a: nat, b: nat)
    ensures Xor(a, b) == 0 <==> a == b
  {
    XorSelf(a);
    XorTwice(a, b);
    XorCommutes(0, b);
    XorZero(b);
  }

  /** A left shift, without overflow. */
  function Shl(q: nat, n: nat): nat {
    if n == 0 then q else 2 * Shl(q, n - 1)
  }

  lemma {:induction false} ShlIsTimes(q: nat, n: nat)
    ensures Shl(q, n) == q * Pow2(n)
  {
    if n > 0 {
      ShlIsTimes(q, n - 1);
    }
  }

  lemma {:induction false} XorShl(low: nat, high: nat, n: nat)
    requires low < Pow2(n)
    ensures Xor(low, Shl(high, n)) == low + Shl(high, n)
    decreases n
  {
    if n == 0 {
      XorCommutes(0, high);
      XorZero(high);
    } else {
      var half, rest := low / 2, Shl(high, n - 1);
      XorShl(half, high, n - 1);
      XorDouble(half, low % 2, rest, half + rest);
    }
  }

  lemma XorDouble(a: nat, bit: nat, b: nat, c: nat)
    requires bit < 2 && Xor(a, b) == c
    ensures Xor(2 * a + bit, 2 * b) == 2 * c + bit
  {
    XorHalf(2 * a + bit, 2 * b);
  }

  /** Bits that do not overlap add up. */
  lemma XorDisjoint(low: nat, high: nat, n: nat)
    requires low < Pow2(n)
    ensures Xor(low, high * Pow2(n)) == low + high * Pow2(n)
  {
    XorShl(low, high, n);
    ShlIsTimes(high, n);
  }

  lemma {:induction false} XorBound(a: nat, b: nat, n: nat)
    requires a < Pow2(n) && b < Pow2(n)
    ensures Xor(a, b) < Pow2(n)
    decreases n
  {
    if n > 0 {
      XorBound(a / 2, b / 2, n - 1);
      XorHalf(a, b);
    }
  }

  // ----- And, or -----

  function And(a: nat, b: nat): nat {
    if a == 0 || b == 0 then 0
    else (if a % 2 == 1 && b % 2 == 1 then 1 else 0) + 2 * And(a / 2, b / 2)
  }

  function Or(a: nat, b: nat): nat {
    if a == 0 && b == 0 then 0
    else (if a % 2 == 1 || b % 2 == 1 then 1 else 0) + 2 * Or(a / 2, b / 2)
  }

  lemma {:induction false} OrZero(a: nat)
    ensures Or(a, 0) == a && Or(0, a) == a
  {
    if a != 0 {
      OrZero(a / 2);
    }
  }

  /** Or with a shifted number leaves the low bits alone. */
  lemma {:induction false} OrHigh(high: nat, low: nat, q: nat, n: nat)
    requires low < Pow2(n)
    ensures Or(Shl(high, n) + low, Shl(q, n)) == Shl(Or(high, q), n) + low
  {
    if n > 0 {
      OrHigh(high, low / 2, q, n - 1);
      OrDouble(Shl(high, n - 1) + low / 2, low % 2, Shl(q, n - 1));
    }
  }

  lemma OrDouble(a: nat, bit: nat, b: nat)
    requires bit < 2
    ensures Or(2 * a + bit, 2 * b) == 2 * Or(a, b) + bit
  {
    if a == 0 && b == 0 {
      assert Or(a, b) == 0;
    }
  }

  /** A number and a shifted one have no bit in common if the shift is long enough. */
  lemma OrDisjoint(low: nat, q: nat, n: nat)
    requires low < Pow2(n)
    ensures Or(low, Shl(q, n)) == Shl(q, n) + low
  {
    OrHigh(0, low, q, n);
    OrZero(q);
    ShlIsTimes(0, n);
  }

  /** A mask of low bits is a remainder. */
  lemma {:induction false} AndLow(a: nat, n: nat)
    ensures And(a, Pow2(n) - 1) == a % Pow2(n)
  {
    if n == 0 {
      assert Pow2(0) - 1 == 0;
    } else {
      AndLow(a / 2, n - 1);
      assert (Pow2(n) - 1) / 2 == Pow2(n - 1) - 1;
      RemainderHalved(a, Pow2(n - 1));
    }
  }

  lemma RemainderHalved(a: nat, p: nat)
    requires p > 0
    ensures a % (2 * p) == 2 * (a / 2 % p) + a % 2 && a / (2 * p) == a / 2 / p
  {
    var q, r := a / 2 / p, a / 2 % p;
    assert a == 2 * (q * p + r) + a % 2;
    assert a == q * (2 * p) + (2 * r + a % 2);
    QuotientRemainder(a, 2 * p, q, 2 * r + a % 2);
  }

  lemma RemainderAtMost(a: nat, d: nat)
    requires d > 0
    ensures a % d <= a
  {
    if a < d {
      QuotientRemainder(a, d, 0, a);
    }
  }

  lemma QuotientRemainder(a: nat, d: nat, q: nat, r: nat)
    requires d > 0 && r < d && a == q * d + r
    ensures a / d == q && a % d == r
  {
    SameQuotient(d, q, r, a / d, a % d);
  }

  lemma SameQuotient(d: nat, q: nat, r: nat, q': nat, r': nat)
    requires r < d && r' < d && q * d + r == q' * d + r'
    ensures q == q' && r == r'
  {
    if q < q' {
      TimesMonotone(q + 1, q', d);
    } else if q' < q {
      TimesMonotone(q' + 1, q, d);
    }
  }

  lemma TimesMonotone(a: nat, b: nat, d: nat)
    requires a <= b
    ensures a * d <= b * d
  {
  }

  lemma {:induction false} ShlAdds(a: nat, b: nat, n: nat)
    ensures Shl(a + b, n) == Shl(a, n) + Shl(b, n)
  {
    if n > 0 {
      ShlAdds(a, b, n - 1);
    }
  }

  lemma {:induction false} ShlFurther(q: nat, m: nat, n: nat)
    ensures Shl(q, m + n) == Shl(Shl(q, m), n)
  {
    if n > 0 {
      ShlFurther(q, m, n - 1);
    }
  }

  lemma DoubleRemainder(a: nat, p: nat)
    requires p > 0
    ensures 2 * a % (2 * p) == 2 * (a % p)
  {
    RemainderHalved(2 * a, p);
  }

  /** What a left shift keeps in a word of m + n bits. */
  lemma {:induction false} ShlWraps(q: nat, m: nat, n: nat)
    ensures Shl(q, n) % Pow2(m + n) == Shl(q % Pow2(m), n)
  {
    if n > 0 {
      ShlWraps(q, m, n - 1);
      DoubleRemainder(Shl(q, n - 1), Pow2(m + (n - 1)));
      assert Pow2(m + n) == 2 * Pow2(m + (n - 1));
    }
  }

  lemma {:induction false} Pow2Adds(m: nat, n: nat)
    ensures Pow2(m + n) == Shl(Pow2(m), n)
  {
    if n > 0 {
      Pow2Adds(m, n - 1);
    }
  }

  lemma {:induction false} Pow2Monotone(m: nat, n: nat)
    requires m <= n
    ensures Pow2(m) <= Pow2(n)
  {
    if m < n {
      Pow2Monotone(m, n - 1);
    }
  }

  lemma ThirtyTwo()
    ensures Pow2(32) == 0x1_0000_0000
  {
    Sixteen(0, 1);
    Sixteen(16, 0x1_0000);
  }

  lemma SixtyFour()
    ensures Pow2(64) == 0x1_0000_0000_0000_0000
  {
    ThirtyTwo();
    Sixteen(32, 0x1_0000_0000);
    Sixteen(48, 0x1_0000_0000_0000);
  }

  lemma Sixteen(n: nat, p: nat)
    requires Pow2(n) == p
    ensures Pow2(n + 16) == 0x1_0000 * p
  {
    Four(n, p);
    Four(n + 4, 0x10 * p);
    Four(n + 8, 0x100 * p);
    Four(n + 12, 0x1000 * p);
  }

  lemma Four(n: nat, p: nat)
    requires Pow2(n) == p
    ensures Pow2(n + 4) == 0x10 * p
  {
    assert Pow2(n + 1) == 2 * p;
    assert Pow2(n + 2) == 4 * p;
    assert Pow2(n + 3) == 8 * p;
  }

  lemma {:induction false} OnesSplit(m: nat, k: nat)
    ensures Shl(Pow2(m) - 1, k) + (Pow2(k) - 1) == Pow2(m + k) - 1
  {
    if k > 0 {
      OnesSplit(m, k - 1);
    }
  }

  lemma ShlRemainder(q: nat, r: nat, k: nat)
    requires r < Pow2(k)
    ensures (Shl(q, k) + r) % Pow2(k) == r
  {
    ShlIsTimes(q, k);
    QuotientRemainder(Shl(q, k) + r, Pow2(k), q, r);
  }

  lemma OnesRemainder(n: nat, k: nat)
    requires k <= n
    ensures (Pow2(n) - 1) % Pow2(k) == Pow2(k) - 1
  {
    OnesSplit(n - k, k);
    ShlRemainder(Pow2(n - k) - 1, Pow2(k) - 1, k);
  }
}
