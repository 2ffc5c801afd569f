/**
 * Round-half-to-even ("banker's rounding") to a fixed number of fractional
 * digits: Math.Round(x, d, MidpointRounding.ToEven), and decimal.Round(x, d)
 * and Math.Round(x, d), whose default midpoint rule is also ties-to-even.
 * Values are exact reals; the code uses 2, 4 and 6 digits, each written out
 * with its own literal scale.
 */
module Rounding {

  /** The integer nearest to q; when q lies exactly halfway between two integers, the even one. */
  function NearestEven(q: real): (k: int)
    ensures -0.5 <= q - k as real <= 0.5
    ensures q - k as real == 0.5 || q - k as real == -0.5 ==> k % 2 == 0
  {
    var f := q.Floor;
    var frac := q - f as real;
    if frac < 0.5 then f
    else if frac > 0.5 then f + 1
    else if f % 2 == 0 then f
    else f + 1
  }

  /** The two postconditions of NearestEven determine its result. */
  lemma NearestEvenUnique(q: real, k: int)
    requires -0.5 <= q - k as real <= 0.5
    requires q - k as real == 0.5 || q - k as real == -0.5 ==> k % 2 == 0
    ensures k == NearestEven(q)
  {
  }

  /** NearestEven never reverses the order of its arguments. */
  lemma NearestEvenMonotone(p: real, q: real)
    requires p <= q
    ensures NearestEven(p) <= NearestEven(q)
  {
  }

  // ---------------------------------------------------------------------
  // Two fractional digits (money)
  // ---------------------------------------------------------------------

  /** x has at most two fractional digits. */
  predicate Cents(x: real)
  {
    (x * 100.0).Floor as real == x * 100.0
  }

  /** x rounded half-to-even to two fractional digits. */
  function Round2(x: real): (r: real)
    ensures Cents(r)
    ensures -0.005 <= x - r <= 0.005
    ensures x - r == 0.005 || x - r == -0.005 ==> (r * 100.0).Floor % 2 == 0
  {
    NearestEven(x * 100.0) as real / 100.0
  }

  /** The postconditions of Round2 determine it: a two-digit value within half
      a cent of x, even on a tie, is Round2(x). */
  lemma Round2Unique(x: real, r: real)
    requires Cents(r)
    requires -0.005 <= x - r <= 0.005
    requires x - r == 0.005 || x - r == -0.005 ==> (r * 100.0).Floor % 2 == 0
    ensures r == Round2(x)
  {
    NearestEvenUnique(x * 100.0, (r * 100.0).Floor);
  }

  /** A value that already has two digits is left unchanged; so Round2 is idempotent. */
  lemma Round2Fixes(x: real)
    requires Cents(x)
    ensures Round2(x) == x
  {
    Round2Unique(x, x);
  }

  /** Round2 never reverses the order of its arguments. */
  lemma Round2Monotone(x: real, y: real)
    requires x <= y
    ensures Round2(x) <= Round2(y)
  {
    NearestEvenMonotone(x * 100.0, y * 100.0);
  }

  /** Rounding a sum and summing the roundings differ by at most one cent. */
  lemma Round2SumWithinCent(a: real, b: real)
    ensures -0.01 <= Round2(a + b) - (Round2(a) + Round2(b)) <= 0.01
  {
    var ka, kb, kab := NearestEven(a * 100.0), NearestEven(b * 100.0), NearestEven((a + b) * 100.0);
    assert -1.5 <= (kab - ka - kb) as real <= 1.5;
  }

  /** Ties go to the even neighbour, not away from zero. */
  lemma Round2TiesToEven()
    ensures Round2(2.345) == 2.34 && Round2(2.355) == 2.36
    ensures Round2(-2.345) == -2.34 && Round2(0.125) == 0.12
  {
    Round2Unique(2.345, 2.34);
    Round2Unique(2.355, 2.36);
    Round2Unique(-2.345, -2.34);
    Round2Unique(0.125, 0.12);
  }

  // ---------------------------------------------------------------------
  // Four fractional digits (ratios)
  // ---------------------------------------------------------------------

  /** x rounded half-to-even to four fractional digits. */
  function Round4(x: real): (r: real)
    ensures (r * 10000.0).Floor as real == r * 10000.0
    ensures -0.00005 <= x - r <= 0.00005
    ensures x - r == 0.00005 || x - r == -0.00005 ==> (r * 10000.0).Floor % 2 == 0
  {
    NearestEven(x * 10000.0) as real / 10000.0
  }

  /** Round4 keeps a value of the closed unit interval inside it. */
  lemma Round4UnitInterval(x: real)
    requires 0.0 <= x <= 1.0
    ensures 0.0 <= Round4(x) <= 1.0
  {
    NearestEvenMonotone(0.0, x * 10000.0);
    NearestEvenMonotone(x * 10000.0, 10000.0);
    NearestEvenUnique(0.0, 0);
    NearestEvenUnique(10000.0, 10000);
  }

  // ---------------------------------------------------------------------
  // Six fractional digits (interest rates)
  // ---------------------------------------------------------------------

  /** x has at most six fractional digits. */
  predicate Micros(x: real)
  {
    (x * 1000000.0).Floor as real == x * 1000000.0
  }

  /** x rounded half-to-even to six fractional digits. */
  function Round6(x: real): (r: real)
    ensures Micros(r)
    ensures -0.0000005 <= x - r <= 0.0000005
    ensures x - r == 0.0000005 || x - r == -0.0000005 ==> (r * 1000000.0).Floor % 2 == 0
  {
    NearestEven(x * 1000000.0) as real / 1000000.0
  }

  /** A rate that already has six digits is left unchanged. */
  lemma Round6Fixes(x: real)
    requires Micros(x)
    ensures Round6(x) == x
  {
    NearestEvenUnique(x * 1000000.0, (x * 1000000.0).Floor);
  }
}
