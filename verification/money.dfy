/**
 * Money over exact reals: JavaScript's `Math.round`, rounding to whole cents,
 * integer powers and sums of sequences.
 */
module Money {

  /** `Math.round(x)`: the nearest integer, a half rounded towards +infinity. */
  function Round(x: real): (r: int)
    ensures x - 0.5 < r as real <= x + 0.5
  {
    (x + 0.5).Floor
  }

  /** A whole number of cents. */
  predicate IsWholeCents(c: real) {
    (c * 100.0).Floor as real == c * 100.0
  }

  /** `Math.round(x * 100) / 100`: x rounded to the nearest cent. */
  function Cents(x: real): (c: real)
    ensures IsWholeCents(c)
    ensures -0.005 < c - x <= 0.005
  {
    var r := Round(x * 100.0);
    assert (r as real / 100.0) * 100.0 == r as real;
    r as real / 100.0
  }

  /** Rounding an amount that is already in whole cents leaves it unchanged. */
  lemma CentsIdempotent(x: real)
    ensures Cents(Cents(x)) == Cents(x)
  {
    var c := Cents(x);
    var k := (c * 100.0).Floor;
    assert k as real == c * 100.0;
    assert Round(c * 100.0) == k;
  }

  /** Rounding preserves order (not strict order). */
  lemma CentsMonotonic(a: real, b: real)
    requires a <= b
    ensures Cents(a) <= Cents(b)
  {
    assert (a * 100.0 + 0.5) <= (b * 100.0 + 0.5);
    assert Round(a * 100.0) <= Round(b * 100.0);
  }

  /**
   * Rounding two parts independently and rounding their sum differ by at most
   * one cent: three errors of less than half a cent each add up to less than a
   * cent and a half, and the difference is itself a whole number of cents.
   */
  lemma CentsOfSumWithinACent(a: real, b: real, c: real)
    requires c == a + b
    ensures -0.01 <= Cents(c) - (Cents(a) + Cents(b)) <= 0.01
  {
    var ra, rb, rs := Round(a * 100.0), Round(b * 100.0), Round(c * 100.0);
    var k := rs - ra - rb;
    assert c * 100.0 == a * 100.0 + b * 100.0;
    assert -1.5 < k as real < 1.5;
    assert -1 <= k <= 1;
    assert Cents(c) - (Cents(a) + Cents(b)) == k as real / 100.0;
  }

  /**
   * `Math.pow(x, n)` for a natural exponent. The recursion is in `PowRec`;
   * formulas refer to this name, so that the same power is the same term
   * wherever it occurs.
   */
  function Pow(x: real, n: nat): real
  {
    PowRec(x, n)
  }

  /** x multiplied by itself n times. */
  function PowRec(x: real, n: nat): real
  {
    if n == 0 then 1.0 else x * PowRec(x, n - 1)
  }

  /** One more factor. */
  lemma PowStep(x: real, n: nat)
    requires n >= 1
    ensures Pow(x, n) == x * Pow(x, n - 1)
  {
  }

  /** Powers of a positive base are positive. */
  lemma {:induction false} PowPositive(x: real, n: nat)
    requires x > 0.0
    ensures Pow(x, n) > 0.0
  {
    if n > 0 {
      PowPositive(x, n - 1);
      PowStep(x, n);
    }
  }

  /**
   * A positive base other than one never has a positive power equal to one:
   * above one the powers grow past one, below one they stay under it.
   */
  lemma {:induction false} PowNotOne(x: real, n: nat)
    requires x > 0.0 && x != 1.0 && n >= 1
    ensures x > 1.0 ==> Pow(x, n) > 1.0
    ensures x < 1.0 ==> Pow(x, n) < 1.0
  {
    PowStep(x, n);
    if n > 1 {
      PowNotOne(x, n - 1);
      PowPositive(x, n - 1);
      if x > 1.0 {
        assert x * Pow(x, n - 1) > 1.0 * Pow(x, n - 1);
      } else {
        assert x * Pow(x, n - 1) < 1.0 * 1.0;
      }
    }
  }

  /** Sum of a sequence of amounts, accumulated from the left as a loop does. */
  function Sum(s: seq<real>): real
  {
    if s == [] then 0.0 else Sum(s[..|s| - 1]) + s[|s| - 1]
  }
}
