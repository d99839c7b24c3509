/** Which integers a double can tell from all others. */
module Doubles {
  import opened Codec

  /** n shares its double with another integer: from 2^53 on, except for the numbers
      2 mod 4 below 2^54, whose neighbours are both rounded away from them. */
  predicate Ambiguous(n: nat)
  {
    n >= 9_007_199_254_740_992 && !(n < 18_014_398_509_481_984 && n % 4 == 2)
  }

  lemma MulGrows(d: int, v: int)
    requires d >= 1 && v >= 1
    ensures d * v >= v
  {
  }

  lemma LargeMultiple(d: int, v: int)
    requires v >= 1 && d != 0
    ensures d * v >= v || d * v <= -v
  {
    if d >= 1 {
      MulGrows(d, v);
    } else {
      MulGrows(-d, v);
      assert (-d) * v == -(d * v);
    }
  }

  lemma Twice(q: nat, v: nat)
    ensures q * (2 * v) == 2 * (q * v)
  {
  }

  lemma DivUnique(n: nat, v: nat, q: nat, r: nat)
    requires r < v && n == q * v + r
    ensures n / v == q && n % v == r
  {
    var k := n / v;
    assert n == k * v + n % v;
    assert (q - k) * v == q * v - k * v;
    if q != k {
      LargeMultiple(q - k, v);
    }
  }

  lemma Halves(n: nat, v: nat)
    requires v >= 1
    ensures n / (2 * v) == (n / 2) / v
  {
    var k := n / 2;
    var q, r := k / v, k % v;
    assert k == q * v + r;
    Twice(q, v);
    DivUnique(n, 2 * v, q, 2 * r + n % 2);
  }

  // ---------------------------------------------------------------- spacing

  /** From 2^53 on the spacing is even; from 2^54 on it is at least 4. */
  lemma {:induction false} Spacing(n: nat)
    requires n >= TWO53
    ensures Ulp(n) == 2 * Ulp(n / 2)
    ensures if n < 2 * TWO53 then Ulp(n) == 2 else Ulp(n) >= 4
  {
    if n >= 2 * TWO53 {
      Spacing(n / 2);
    }
  }

  /** And it leaves a quotient of 53 bits. */
  lemma {:induction false} Quotient(n: nat)
    requires n >= TWO53
    ensures TWO53 / 2 <= n / Ulp(n) < TWO53
  {
    var v := Ulp(n / 2);
    Spacing(n);
    Halves(n, v);
    if n >= 2 * TWO53 {
      Quotient(n / 2);
    } else {
      assert v == 1;
    }
  }

  /** The spacing at every multiple with a quotient of 53 bits is the same. */
  lemma {:induction false} SameSpacing(n: nat, q: nat)
    requires n >= TWO53 && TWO53 / 2 <= q <= TWO53
    ensures q * Ulp(n) >= TWO53
    ensures Ulp(q * Ulp(n)) == if q < TWO53 then Ulp(n) else 2 * Ulp(n)
  {
    var v := Ulp(n / 2);
    Spacing(n);
    Twice(q, v);
    if n >= 2 * TWO53 {
      SameSpacing(n / 2, q);
    } else {
      assert v == 1 && q * v == q;
    }
  }

  // ---------------------------------------------------------------- rounding

  lemma AtLeast(q: nat, a: nat, u: nat, b: nat)
    requires q >= a && u >= b
    ensures q * u >= a * b
  {
    assert q * u >= a * u >= a * b;
  }

  /** Rounding, from any way to write n as a multiple of its spacing and a rest. */
  lemma Rounding(n: nat, q: nat, r: nat)
    requires r < Ulp(n) && n == q * Ulp(n) + r
    ensures var u := Ulp(n);
            ToDouble(n) == q * u + (if 2 * r < u || (2 * r == u && q % 2 == 0) then 0 else u)
  {
    DivUnique(n, Ulp(n), q, r);
    Distribute(q, Ulp(n));
  }

  lemma Distribute(q: nat, u: nat)
    ensures (q + 1) * u == q * u + u
  {
  }

  lemma Split(n: nat, u: nat) returns (q: nat, r: nat)
    requires u >= 1
    ensures r < u && n == q * u + r && q == n / u
  {
    q, r := n / u, n % u;
  }

  /** Rounding gives one of the two neighbouring multiples of the spacing. */
  lemma Rounded(n: nat) returns (q: nat, r: nat)
    requires n >= TWO53
    ensures r < Ulp(n) && n == q * Ulp(n) + r && TWO53 / 2 <= q < TWO53
    ensures ToDouble(n) == q * Ulp(n) || ToDouble(n) == (q + 1) * Ulp(n)
    ensures r == 0 ==> ToDouble(n) == n
    ensures ToDouble(n) >= if n < 2 * TWO53 then TWO53 else 2 * TWO53
  {
    q, r := Split(n, Ulp(n));
    Quotient(n);
    Rounding(n, q, r);
    Distribute(q, Ulp(n));
    Spacing(n);
    AtLeast(q, TWO53 / 2, Ulp(n), if n < 2 * TWO53 then 2 else 4);
  }

  /** A multiple of the spacing is its own double. */
  lemma MultipleExact(n: nat, q: nat)
    requires n >= TWO53 && TWO53 / 2 <= q <= TWO53
    ensures ToDouble(q * Ulp(n)) == q * Ulp(n)
  {
    var u := Ulp(n);
    SameSpacing(n, q);
    if q < TWO53 {
      Rounding(q * u, q, 0);
    } else {
      Regroup(u);
      Rounding(q * u, TWO53 / 2, 0);
    }
  }

  lemma Regroup(u: nat)
    ensures TWO53 * u == (TWO53 / 2) * (2 * u)
  {
  }

  lemma DoubleExact(n: nat)
    requires n >= TWO53
    ensures ToDouble(ToDouble(n)) == ToDouble(n)
  {
    var q, r := Rounded(n);
    MultipleExact(n, q);
    MultipleExact(n, q + 1);
  }

  /** A multiple of the spacing is even, and one of a spacing of 2 is twice its quotient. */
  lemma EvenMultiple(n: nat, q: nat)
    requires n >= TWO53 && n == q * Ulp(n)
    ensures n % 2 == 0 && (n < 2 * TWO53 ==> n == 2 * q)
  {
    var v := Ulp(n / 2);
    Spacing(n);
    Twice(q, v);
    IsEven(n, q * v);
  }

  lemma IsEven(n: nat, x: nat)
    requires n == 2 * x
    ensures n % 2 == 0
  {
  }

  lemma NextSpacing(n: nat)
    requires n >= TWO53 && n % 2 == 0
    ensures Ulp(n + 1) == Ulp(n)
  {
    assert (n + 1) / 2 == n / 2;
    Spacing(n);
    Spacing(n + 1);
  }

  lemma HalfEven(n: nat, q: nat)
    requires n == 2 * q && n % 4 != 2
    ensures q % 2 == 0
  {
  }

  /** The number after a multiple of the spacing is rounded down to it, unless it is a tie
      and the multiple is odd. */
  lemma RoundsDown(n: nat, q: nat)
    requires Ambiguous(n) && n == q * Ulp(n)
    ensures ToDouble(n + 1) == n
  {
    EvenMultiple(n, q);
    NextSpacing(n);
    Spacing(n);
    if n < 2 * TWO53 {
      HalfEven(n, q);
    }
    Rounding(n + 1, q, 1);
  }

  lemma Shares(n: nat) returns (m: nat)
    requires Ambiguous(n)
    ensures m != n && ToDouble(m) == ToDouble(n)
  {
    var q, r := Rounded(n);
    if r == 0 {
      RoundsDown(n, q);
      m := n + 1;
    } else {
      DoubleExact(n);
      NotBetween(n, Ulp(n), q, r);
      m := ToDouble(n);
    }
  }

  lemma NotBetween(n: nat, u: nat, q: nat, r: nat)
    requires 0 < r < u && n == q * u + r
    ensures n != q * u && n != (q + 1) * u
  {
    Distribute(q, u);
  }

  /** Between 2^53 and 2^54 an odd number is a tie and goes to a multiple of 4. */
  lemma OddGoesToFour(n: nat)
    requires TWO53 <= n < 2 * TWO53
    ensures if n % 2 == 0 then ToDouble(n) == n else ToDouble(n) % 4 == 0
  {
    Spacing(n);
  }

  lemma Alone(n: nat, m: nat)
    requires !Ambiguous(n) && ToDouble(m) == ToDouble(n)
    ensures m == n
  {
    if n >= TWO53 {
      OddGoesToFour(n);
    }
    if m >= TWO53 {
      var q, r := Rounded(m);
      if m < 2 * TWO53 {
        OddGoesToFour(m);
      }
    }
  }

  /** An integer shares its double with another one exactly when it is ambiguous. */
  lemma SharedExactly(n: nat)
    ensures (exists m: nat :: m != n && ToDouble(m) == ToDouble(n)) <==> Ambiguous(n)
  {
    if Ambiguous(n) {
      var m := Shares(n);
    } else {
      forall m: nat | ToDouble(m) == ToDouble(n)
        ensures m == n
      {
        Alone(n, m);
      }
    }
  }

  /** For example 2^53 + 2, which is above 2^53 and still told from every other integer. */
  lemma AloneAbove(m: nat)
    requires ToDouble(m) == ToDouble(TWO53 + 2)
    ensures m == TWO53 + 2
  {
    Alone(TWO53 + 2, m);
  }
}
