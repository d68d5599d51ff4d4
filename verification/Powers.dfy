/** Natural powers, and the few facts about division by a radix that index arithmetic on n-ary trees needs. */
module Powers {

  function Pow(b: nat, e: nat): (p: nat)
    ensures b >= 1 ==> p >= 1
  {
    if e == 0 then 1 else b * Pow(b, e - 1)
  }

  lemma {:induction false} PowAdd(b: nat, e: nat, f: nat)
    ensures Pow(b, e + f) == Pow(b, e) * Pow(b, f)
  {
    if e == 0 {
    } else {
      PowAdd(b, e - 1, f);
      assert e + f - 1 == e - 1 + f;
      MulAssoc(b, Pow(b, e - 1), Pow(b, f));
    }
  }

  lemma {:induction false} PowMonotonic(b: nat, e: nat, f: nat)
    requires b >= 1 && e <= f
    ensures Pow(b, e) <= Pow(b, f)
    decreases f - e
  {
    if e < f {
      PowMonotonic(b, e + 1, f);
      MulAtLeast(b, Pow(b, e));
    }
  }

  lemma {:induction false} PowStrict(b: nat, e: nat, f: nat)
    requires b >= 2 && e < f
    ensures Pow(b, e) < Pow(b, f)
  {
    PowMonotonic(b, e + 1, f);
    MulStrict(b, Pow(b, e));
  }

  lemma MulAssoc(a: int, b: int, c: int)
    ensures (a * b) * c == a * (b * c)
  {
  }

  lemma MulAtLeast(b: nat, x: nat)
    requires b >= 1
    ensures b * x >= x
  {
    assert b * x == x + (b - 1) * x;
  }

  lemma MulStrict(b: nat, x: nat)
    requires b >= 2 && x >= 1
    ensures b * x > x
  {
    assert b * x == x + (b - 1) * x;
    MulAtLeast(b - 1, x);
  }

  /** The quotient of something below b * m is below m. */
  lemma DivBelow(x: nat, b: nat, m: nat)
    requires b >= 1 && x < b * m
    ensures x / b < m
  {
    if x / b >= m {
      MulMonotonic(b, m, x / b);
      assert false;
    }
  }

  lemma MulMonotonic(b: nat, x: nat, y: nat)
    requires x <= y
    ensures b * x <= b * y
  {
    assert b * y == b * x + b * (y - x);
  }

  /** Digit c of group g is below b * m whenever g is below m. */
  lemma DigitBelow(g: nat, c: nat, b: nat, m: nat)
    requires c < b && g < m
    ensures g * b + c < m * b
    ensures g * b + c < b * m
  {
    MulMonotonic(b, g + 1, m);
    assert b * (g + 1) == g * b + b;
  }

  /** Rounding down to a multiple of the radix. */
  lemma RoundDown(x: nat, b: nat)
    requires b >= 1
    ensures x / b >= 0 && 0 <= x % b < b && x % b <= x
    ensures x - x % b == x / b * b
  {
  }

  /** Division undoes "group times radix plus digit". */
  lemma DivDigit(g: nat, c: nat, b: nat)
    requires c < b
    ensures (g * b + c) / b == g && (g * b + c) % b == c
  {
    var x := g * b + c;
    var q := x / b;
    if q < g {
      MulMonotonic(b, q + 1, g);
      assert false;
    } else if q > g {
      MulMonotonic(b, g + 1, q);
      assert false;
    }
  }
}
