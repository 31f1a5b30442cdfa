/**
 * The 7-smoothness test behind the grid-size advisories of SetMesh: an axis
 * whose cell count has a prime factor greater than 7 draws a warning.
 */
module Smoothness {

  /** True when n has no prime factor other than 2, 3, 5 and 7. */
  function Smooth7(n: int): (r: bool)
    requires n >= 1
    decreases n
  {
    if n == 1 then true
    else if n % 2 == 0 then Smooth7(n / 2)
    else if n % 3 == 0 then Smooth7(n / 3)
    else if n % 5 == 0 then Smooth7(n / 5)
    else if n % 7 == 0 then Smooth7(n / 7)
    else false
  }

  ghost predicate IsPrime(p: int) {
    p >= 2 && forall d :: 2 <= d < p ==> p % d != 0
  }

  /** The source's criterion: the largest prime factor of n is greater than 7. */
  ghost predicate HasPrimeFactorAbove7(n: int) {
    exists p :: IsPrime(p) && p > 7 && n % p == 0
  }

  /** Smooth7 is exactly the absence of a prime factor greater than 7. */
  lemma Smooth7Exact(n: int)
    requires n >= 1
    ensures Smooth7(n) <==> !HasPrimeFactorAbove7(n)
  {
    if Smooth7(n) {
      SmoothHasNoLargeFactor(n);
    } else {
      LargeFactorUnlessSmooth(n);
    }
  }

  // ---------------------------------------------------------------------------
  // The two directions

  lemma {:induction false} SmoothHasNoLargeFactor(n: int)
    requires n >= 1 && Smooth7(n)
    ensures !HasPrimeFactorAbove7(n)
    decreases n
  {
    if n == 1 {
      forall p | IsPrime(p) && p > 7
        ensures n % p != 0
      {
        SmallMod(1, p);
      }
    } else {
      var k := if n % 2 == 0 then 2 else if n % 3 == 0 then 3 else if n % 5 == 0 then 5 else 7;
      var m := n / k;
      assert n == k * m && m >= 1 && Smooth7(m);
      SmoothHasNoLargeFactor(m);
      forall p | IsPrime(p) && p > 7
        ensures n % p != 0
      {
        if n % p == 0 {
          Cofactor(m, k, p);
        }
      }
    }
  }

  lemma {:induction false} LargeFactorUnlessSmooth(n: int)
    requires n >= 1 && !Smooth7(n)
    ensures HasPrimeFactorAbove7(n)
    decreases n
  {
    if n % 2 == 0 || n % 3 == 0 || n % 5 == 0 || n % 7 == 0 {
      var k := if n % 2 == 0 then 2 else if n % 3 == 0 then 3 else if n % 5 == 0 then 5 else 7;
      var m := n / k;
      assert n == k * m && m >= 1 && !Smooth7(m);
      LargeFactorUnlessSmooth(m);
      var p :| IsPrime(p) && p > 7 && m % p == 0;
      MultipleOfFactor(m, k, p);
    } else {
      forall e | 2 <= e < 8
        ensures n % e != 0
      {
        if e == 4 {
          assert n % 4 != 0;
        } else if e == 6 {
          assert n % 6 != 0;
        }
      }
      if n >= 8 {
        LeastDivisor(n, 8);
      }
    }
  }

  /** The least divisor of n that is at least d is a prime. */
  lemma {:induction false} LeastDivisor(n: int, d: int)
    requires 2 <= d <= n
    requires forall e :: 2 <= e < d ==> n % e != 0
    ensures exists p :: IsPrime(p) && p >= d && n % p == 0
    decreases n - d
  {
    if n % d == 0 {
      forall e | 2 <= e < d
        ensures d % e != 0
      {
        if d % e == 0 {
          DivTransitive(n, d, e);
        }
      }
      assert IsPrime(d);
    } else {
      if d == n {
        MultipleMod(n, 1);
      }
      LeastDivisor(n, d + 1);
    }
  }

  // ---------------------------------------------------------------------------
  // Divisibility

  lemma SmallMod(a: int, p: int)
    requires 0 <= a < p
    ensures a % p == a
  {
    var q := a / p;
    assert a == q * p + a % p;
    if q >= 1 {
      MulAtLeast(p, q);
    } else if q <= -1 {
      MulAtLeast(p, -q);
    }
  }

  lemma {:induction false} MulAtLeast(c: int, d: int)
    requires c >= 1 && d >= 1
    ensures c * d >= c
    decreases d
  {
    if d > 1 {
      MulAtLeast(c, d - 1);
      assert c * d == c * (d - 1) + c;
    }
  }

  /** A multiple of c leaves no remainder. */
  lemma MultipleMod(c: int, k: int)
    requires c >= 1
    ensures (c * k) % c == 0
  {
    var n := c * k;
    var q := n / c;
    var r := n % c;
    assert n == q * c + r && 0 <= r < c;
    assert c * (k - q) == r;
    if k - q >= 1 {
      MulAtLeast(c, k - q);
    } else if k - q <= -1 {
      MulAtLeast(c, q - k);
    }
  }

  lemma Exact(n: int, d: int)
    requires d >= 1 && n % d == 0
    ensures n == d * (n / d)
  {
  }

  lemma DivTransitive(a: int, b: int, c: int)
    requires b >= 1 && c >= 1 && a % b == 0 && b % c == 0
    ensures a % c == 0
  {
    Exact(a, b);
    Exact(b, c);
    var i, j := a / b, b / c;
    assert a == c * (j * i);
    MultipleMod(c, j * i);
  }

  lemma MultipleOfFactor(m: int, k: int, p: int)
    requires p >= 1 && m % p == 0
    ensures (k * m) % p == 0
  {
    Exact(m, p);
    var j := m / p;
    assert k * m == p * (k * j);
    MultipleMod(p, k * j);
  }

  /**
   * A prime p > 7 that divides k * m, for k one of 2, 3, 5, 7, divides m
   * (Euclid's lemma for the four small primes).
   */
  lemma Cofactor(m: int, k: int, p: int)
    requires k == 2 || k == 3 || k == 5 || k == 7
    requires IsPrime(p) && p > 7 && m >= 0 && (k * m) % p == 0
    ensures m % p == 0
  {
    assert p % k != 0;
    Exact(k * m, p);
    var a, b, r := (k * m) / p, m / p, m % p;
    var c := a - k * b;
    RemainderRelation(k, m, p, a, b, r);
    CoefficientBound(k, r, p, c);
    if c >= 1 {
      NoSmallMultiple(k, c, r, p);
    }
    assert k * r == 0;
  }

  lemma RemainderRelation(k: int, m: int, p: int, a: int, b: int, r: int)
    requires k * m == p * a && m == p * b + r
    ensures k * r == p * (a - k * b)
  {
    assert k * m == k * (p * b) + k * r;
    assert k * (p * b) == p * (k * b);
  }

  /** From k * r == p * c with 0 <= r < p follows 0 <= c < k. */
  lemma CoefficientBound(k: int, r: int, p: int, c: int)
    requires k >= 1 && p >= 1 && 0 <= r < p && k * r == p * c
    ensures 0 <= c < k
  {
    if c < 0 {
      MulAtLeast(p, -c);
    } else if c >= k {
      MulMonotoneNat(p, c, k);
    }
  }

  lemma MulMonotoneNat(p: int, c: int, k: int)
    requires p >= 0 && c >= k
    ensures p * c >= p * k
  {
    assert p * c - p * k == p * (c - k);
  }

  /** For a small prime k and 1 <= c < k, k * r == p * c forces k to divide p. */
  lemma NoSmallMultiple(k: int, c: int, r: int, p: int)
    requires k == 2 || k == 3 || k == 5 || k == 7
    requires 1 <= c < k && k * r == p * c
    ensures p % k == 0
  {
    // u * c == 1 + k * t: u is the inverse of c modulo k
    if k == 2 && c == 1 {
      InverseMultiple(k, c, r, p, 1, 0);
    } else if k == 3 && c == 1 {
      InverseMultiple(k, c, r, p, 1, 0);
    } else if k == 3 && c == 2 {
      InverseMultiple(k, c, r, p, 2, 1);
    } else if k == 5 && c == 1 {
      InverseMultiple(k, c, r, p, 1, 0);
    } else if k == 5 && c == 2 {
      InverseMultiple(k, c, r, p, 3, 1);
    } else if k == 5 && c == 3 {
      InverseMultiple(k, c, r, p, 2, 1);
    } else if k == 5 && c == 4 {
      InverseMultiple(k, c, r, p, 4, 3);
    } else if k == 7 && c == 1 {
      InverseMultiple(k, c, r, p, 1, 0);
    } else if k == 7 && c == 2 {
      InverseMultiple(k, c, r, p, 4, 1);
    } else if k == 7 && c == 3 {
      InverseMultiple(k, c, r, p, 5, 2);
    } else if k == 7 && c == 4 {
      InverseMultiple(k, c, r, p, 2, 1);
    } else if k == 7 && c == 5 {
      InverseMultiple(k, c, r, p, 3, 2);
    } else {
      assert k == 7 && c == 6;
      InverseMultiple(k, c, r, p, 6, 5);
    }
  }

  /** If u * c == 1 + k * t then k * r == c * p makes p a multiple of k. */
  lemma InverseMultiple(k: int, c: int, r: int, p: int, u: int, t: int)
    requires k >= 1 && k * r == p * c && u * c == 1 + k * t
    ensures p % k == 0
  {
    assert p == u * (c * p) - k * t * p;
    assert p == k * (u * r - t * p);
    MultipleMod(k, u * r - t * p);
  }
}
