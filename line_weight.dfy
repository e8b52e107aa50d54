/** The grid-line weight rule shared by both copies of `calcLineWidth`: a line
    at a nonzero integer `i` has weight 3^k, where 5^k is the largest power of
    five dividing `i`; the line at zero has weight 3^3. The drawn width is
    0.005 times the weight. */
module LineWeight {

  function Pow(b: nat, e: nat): (r: nat)
    ensures b > 0 ==> r >= 1
  {
    if e == 0 then 1 else b * Pow(b, e - 1)
  }

  function Abs(i: int): nat
  {
    if i < 0 then -i else i
  }

  /** JavaScript's `a % m` for a positive modulus: the remainder takes the
      sign of the dividend. */
  function JsRem(a: int, m: nat): (r: int)
    requires m > 0
    ensures a >= 0 ==> 0 <= r < m
    ensures a < 0 ==> -(m as int) < r <= 0
    ensures r == 0 <==> Abs(a) % m == 0
  {
    if a >= 0 then a % m else -((-a) % m)
  }

  /** The exponent of 5 in the factorisation of a positive `n`. */
  function FiveExponent(n: nat): nat
    requires n > 0
  {
    if n % 5 == 0 then 1 + FiveExponent(n / 5) else 0
  }

  /** The weight of the grid line at `i`. */
  function Weight(i: int): nat
  {
    if i == 0 then Pow(3, 3) else Pow(3, FiveExponent(Abs(i)))
  }

  lemma {:induction false} PowMonotone(b: nat, e: nat, f: nat)
    requires b > 0
    requires e <= f
    ensures Pow(b, e) <= Pow(b, f)
  {
    if e < f {
      PowMonotone(b, e, f - 1);
    }
  }

  /** A multiple of `m` that is positive is at least `m`. */
  lemma DivisorBound(n: nat, m: nat)
    requires n > 0 && m > 0 && n % m == 0
    ensures m <= n
  {
    var q := n / m;
    assert n == m * q;
    assert q >= 1;
  }

  /** A multiple of `m` leaves no remainder. */
  lemma MultipleMod(m: nat, q: nat)
    requires m > 0
    ensures (m * q) % m == 0
  {
    var d, r := (m * q) / m, (m * q) % m;
    assert m * q == m * d + r && 0 <= r < m;
    var e := q - d;
    assert m * e == r;
  }

  /** Dividing by 5 * m: divide by 5 first, then by m. */
  lemma DividesStep(n: nat, m: nat)
    requires m > 0
    ensures n % (5 * m) == 0 <==> n % 5 == 0 && (n / 5) % m == 0
  {
    if n % (5 * m) == 0 {
      var q := n / (5 * m);
      assert n == (5 * m) * q;
      var t := m * q;
      assert n == 5 * t;
      assert n / 5 == t;
      MultipleMod(m, q);
    }
    if n % 5 == 0 && (n / 5) % m == 0 {
      var t := n / 5;
      assert n == 5 * t;
      var q := t / m;
      assert t == m * q;
      assert n == (5 * m) * q;
      MultipleMod(5 * m, q);
    }
  }

  /** 5^k divides `n` and 5^(k+1) does not exactly when k is the exponent
      of 5 in `n`. */
  lemma {:induction false} FiveExponentUnique(n: nat, k: nat)
    requires n > 0
    ensures (n % Pow(5, k) == 0 && n % Pow(5, k + 1) != 0) <==> k == FiveExponent(n)
  {
    DividesStep(n, Pow(5, k));
    if k == 0 {
      assert Pow(5, 1) == 5;
    } else {
      DividesStep(n, Pow(5, k - 1));
      if n % 5 == 0 {
        assert n / 5 > 0;
        FiveExponentUnique(n / 5, k - 1);
      }
    }
  }

  /** The defining pair of facts about the exponent. */
  lemma FiveExponentDivides(n: nat)
    requires n > 0
    ensures n % Pow(5, FiveExponent(n)) == 0
    ensures n % Pow(5, FiveExponent(n) + 1) != 0
  {
    FiveExponentUnique(n, FiveExponent(n));
  }

  /** Every weight is a positive power of three; hence every width is at
      least 0.005. */
  lemma WeightIsPowerOfThree(i: int)
    ensures exists k: nat :: Weight(i) == Pow(3, k)
    ensures Weight(i) >= 1
  {
    if i == 0 {
      assert Weight(i) == Pow(3, 3);
    } else {
      assert Weight(i) == Pow(3, FiveExponent(Abs(i)));
    }
  }

  /** The weight only depends on divisibility, so it is the same at `-i`. */
  lemma WeightSymmetric(i: int)
    ensures Weight(-i) == Weight(i)
  {
  }

  /** A line not at a multiple of 5 has weight 1 (width 0.005); one at a
      multiple of 25 but not of 125 has weight 9 (width 0.045). */
  lemma WeightExamples(i: int)
    ensures i % 5 != 0 ==> Weight(i) == 1
    ensures i % 25 == 0 && i % 125 != 0 ==> Weight(i) == 9
  {
    if i != 0 {
      var n := Abs(i);
      assert n % 5 == 0 <==> i % 5 == 0;
      assert n % 25 == 0 <==> i % 25 == 0;
      assert n % 125 == 0 <==> i % 125 == 0;
      if i % 25 == 0 && i % 125 != 0 {
        assert Pow(5, 2) == 25 && Pow(5, 3) == 125;
        FiveExponentUnique(n, 2);
      }
    }
  }

  /** Each further factor of five triples the weight. */
  lemma WeightTimesFive(i: int)
    requires i != 0
    ensures Weight(5 * i) == 3 * Weight(i)
  {
    assert Abs(5 * i) == 5 * Abs(i);
    assert (5 * Abs(i)) / 5 == Abs(i);
  }

  /** The line at zero is the heaviest of the lines strictly between -625 and
      625, but not of all lines: the one at 625 is heavier. */
  lemma ZeroHeaviestNearOrigin(i: int)
    requires -625 < i < 625
    ensures Weight(i) <= Weight(0)
    ensures Weight(625) > Weight(0)
  {
    if i != 0 {
      var n := Abs(i);
      var k := FiveExponent(n);
      FiveExponentDivides(n);
      DivisorBound(n, Pow(5, k));
      assert Pow(5, 4) == 625;
      if k >= 4 {
        PowMonotone(5, 4, k);
        assert false;
      }
      assert k <= 3;
      PowMonotone(3, k, 3);
    }
    assert FiveExponent(625) == 4 by {
      assert 625 / 5 == 125 && 125 / 5 == 25 && 25 / 5 == 5 && 5 / 5 == 1;
    }
    assert Weight(625) == Pow(3, 4) == 81;
  }
}
