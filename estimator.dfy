/**
 The closed-form statistics shared by both analysis scripts: ratios of
 weighted counts (efficiency, purity), their uncertainty, and the cross
 section with its uncertainty propagated in quadrature.

 Uncertainties are carried SQUARED: the square root has no closed form
 over `real`, and every formula here only uses the square of an
 uncertainty, never its sign. `(sqrt(n))**2` is written `n`.
 */
module Estimator {

  /** Integrated luminosity in pb^-1 and its uncertainty (5 %). */
  const Luminosity: real := 50.0
  const LuminosityUncertainty: real := 0.05 * Luminosity

  /** Literature value of the ttbar production cross section in pb. */
  const LiteratureCrossSection: real := 173.0

  /** A product kept as one term, so that facts proved about it are reused as they are. */
  function Mul(a: real, b: real): real
  {
    a * b
  }

  /** `x**2` */
  function Pow2(x: real): real
  {
    Mul(x, x)
  }

  /** `x**3` */
  function Pow3(x: real): real
  {
    Mul(Pow2(x), x)
  }

  function Abs(x: real): (r: real)
    ensures r >= 0.0 && (r == x || r == -x)
  {
    if x < 0.0 then -x else x
  }

  // ---------------------------------------------------------------------
  // Arithmetic facts over real numbers
  // ---------------------------------------------------------------------

  lemma MulPositive(a: real, b: real)
    requires (a > 0.0 && b > 0.0) || (a < 0.0 && b < 0.0)
    ensures Mul(a, b) > 0.0
  {
  }

  lemma ProductNonNeg(a: real, b: real)
    requires a >= 0.0 && b >= 0.0
    ensures a * b >= 0.0
  {
  }

  lemma MulNegative(a: real, b: real)
    requires a > 0.0 && b < 0.0
    ensures Mul(a, b) < 0.0
  {
  }

  lemma Pow2Positive(x: real)
    requires x != 0.0
    ensures Pow2(x) > 0.0
  {
    MulPositive(x, x);
  }

  lemma Pow2NonNeg(x: real)
    ensures Pow2(x) >= 0.0
  {
    if x != 0.0 {
      Pow2Positive(x);
    }
  }

  lemma Pow3Positive(x: real)
    requires x > 0.0
    ensures Pow3(x) > 0.0
  {
    Pow2Positive(x);
    MulPositive(Pow2(x), x);
  }

  lemma Pow3NonZero(x: real)
    requires x != 0.0
    ensures Pow3(x) != 0.0
  {
    Pow2Positive(x);
    if x > 0.0 {
      MulPositive(Pow2(x), x);
    } else {
      MulNegative(Pow2(x), x);
    }
  }

  lemma Pow2OfNegation(x: real)
    ensures Pow2(-x) == Pow2(x)
  {
  }

  lemma Pow2OfProduct(a: real, b: real)
    ensures Pow2(a * b) == Pow2(a) * Pow2(b)
  {
  }

  lemma Pow2OfQuotient(a: real, b: real)
    requires b != 0.0
    ensures Pow2(b) != 0.0 && Pow2(a / b) == Pow2(a) / Pow2(b)
  {
    var q := a / b;
    assert q * b == a;
    Pow2OfProduct(q, b);
    Pow2Positive(b);
  }

  lemma QuotientNonNeg(x: real, y: real)
    requires x >= 0.0 && y > 0.0
    ensures x / y >= 0.0
  {
    var q := x / y;
    assert q * y == x;
  }

  lemma QuotientSum(x: real, z: real, y: real)
    requires y != 0.0
    ensures x / y + z / y == (x + z) / y
  {
    var p, q := x / y, z / y;
    assert p * y == x && q * y == z;
    assert (p + q) * y == x + z;
  }

  /** Two values whose products with the same non-zero factor agree are equal. */
  lemma Cancel(a: real, b: real, m: real)
    requires m != 0.0
    requires a * m == b * m
    ensures a == b
  {
    assert (a - b) * m == 0.0;
  }

  // ---------------------------------------------------------------------
  // Efficiency and purity
  // ---------------------------------------------------------------------

  /**
   The share of `whole` that `part` is: the efficiency when `whole` is the
   generated signal, the purity when it is all selected simulation.
   */
  function Fraction(part: real, whole: real): (f: real)
    requires whole != 0.0
    ensures f * whole == part
    ensures 0.0 < whole && 0.0 <= part <= whole ==> 0.0 <= f <= 1.0
    ensures part == whole ==> f == 1.0
  {
    part / whole
  }

  /**
   Squared uncertainty of the ratio n/d, as the scripts write it before
   taking the root: n/d^2 + n^2/d^3.
   */
  function RatioUncertaintySq(n: real, d: real): real
    requires d != 0.0
  {
    Pow2Positive(d);
    Pow3NonZero(d);
    n / Pow2(d) + Pow2(n) / Pow3(d)
  }

  /** n / d^2 is the fraction divided once more by d. */
  lemma QuotientOfPow2(n: real, d: real)
    requires d != 0.0
    ensures Pow2(d) != 0.0 && n / Pow2(d) == Fraction(n, d) / d
  {
    Pow2Positive(d);
    var f := Fraction(n, d);
    var a := n / Pow2(d);
    assert a * Pow2(d) == n;
    assert Mul(a * d, d) == a * Pow2(d);
    assert Mul(f, d) == n;
    Cancel(a * d, f, d);
  }

  /**
   The squared ratio uncertainty is the binomial-like f * (1 + f) / d with
   f = n / d the ratio itself.
   */
  lemma RatioUncertaintySqIsBinomial(n: real, d: real)
    requires d != 0.0
    ensures var f := Fraction(n, d);
      RatioUncertaintySq(n, d) * d == f * (1.0 + f)
  {
    QuotientOfPow2(n, d);
  }

  /**
   A ratio of a count to itself is exactly 1, with squared uncertainty
   2 / d.
   */
  lemma RatioOfWhole(d: real)
    requires d != 0.0
    ensures Fraction(d, d) == 1.0
    ensures RatioUncertaintySq(d, d) == 2.0 / d
  {
    var f := Fraction(d, d);
    RatioUncertaintySqIsBinomial(d, d);
    assert f * (1.0 + f) == 2.0;
  }

  /** A ratio of nothing is 0. */
  lemma RatioOfNothing(d: real)
    requires d != 0.0
    ensures Fraction(0.0, d) == 0.0
  {
  }

  /** Over a positive denominator, a smaller count is a smaller fraction. */
  lemma FractionOrdered(a: real, b: real, d: real)
    requires d > 0.0 && a <= b
    ensures Fraction(a, d) <= Fraction(b, d)
  {
    var fa, fb := Fraction(a, d), Fraction(b, d);
    if fa > fb {
      MulPositive(fa - fb, d);
    }
  }

  /** A non-negative count over a positive denominator has a non-negative squared uncertainty. */
  lemma RatioUncertaintySqNonNeg(n: real, d: real)
    requires d > 0.0 && n >= 0.0
    ensures RatioUncertaintySq(n, d) >= 0.0
  {
    Pow2Positive(d);
    Pow3Positive(d);
    Pow2NonNeg(n);
    QuotientNonNeg(n, Pow2(d));
    QuotientNonNeg(Pow2(n), Pow3(d));
  }

  // ---------------------------------------------------------------------
  // Cross section
  // ---------------------------------------------------------------------

  /** Cross section: background-subtracted data over luminosity times efficiency. */
  function CrossSection(nData: real, nBkg: real, lumi: real, e: real): (xs: real)
    requires lumi != 0.0 && e != 0.0
    ensures xs * (lumi * e) == nData - nBkg
    ensures xs == 0.0 <==> nData == nBkg
    ensures lumi * e > 0.0 ==> (xs > 0.0 <==> nData > nBkg)
  {
    var xs := (nData - nBkg) / (lumi * e);
    assert lumi * e > 0.0 ==> (xs > 0.0 <==> nData > nBkg) by {
      if lumi * e > 0.0 {
        if xs > 0.0 {
          assert xs * (lumi * e) > 0.0;
        } else {
          assert xs * (lumi * e) <= 0.0;
        }
      }
    }
    xs
  }

  /**
   Squared uncertainty of the cross section as the scripts write it: the
   Poisson terms of data and background, the efficiency term and the
   luminosity term, added in quadrature. `delESq` is the squared efficiency
   uncertainty, so the efficiency term is (diff / (L e^2))^2 * delESq.
   */
  function CrossSectionUncertaintySq(nData: real, nBkg: real, lumi: real, delLumi: real, e: real, delESq: real): real
    requires lumi != 0.0 && e != 0.0
  {
    Pow2Positive(e * lumi);
    Pow2Positive(e);
    Pow2Positive(lumi);
    var diff := nBkg - nData;
    nData / Pow2(e * lumi)
    + nBkg / Pow2(e * lumi)
    + Pow2(diff / (lumi * Pow2(e))) * delESq
    + Pow2(diff * delLumi / (Pow2(lumi) * e))
  }

  /**
   The quadrature sum in its usual reading: the counting variance
   (nData + nBkg) / (e L)^2, plus the squared cross section times the sum
   of the squared relative uncertainties of efficiency and luminosity.
   */
  lemma CrossSectionUncertaintyDecomposes(nData: real, nBkg: real, lumi: real, delLumi: real, e: real, delESq: real)
    requires lumi != 0.0 && e != 0.0
    ensures Pow2(e * lumi) != 0.0 && Pow2(e) != 0.0 && Pow2(lumi) != 0.0
    ensures var xs := CrossSection(nData, nBkg, lumi, e);
      CrossSectionUncertaintySq(nData, nBkg, lumi, delLumi, e, delESq)
      == (nData + nBkg) / Pow2(e * lumi) + Pow2(xs) * (delESq / Pow2(e) + Pow2(delLumi) / Pow2(lumi))
  {
    Pow2Positive(e * lumi);
    Pow2Positive(e);
    Pow2Positive(lumi);
    var xs := CrossSection(nData, nBkg, lumi, e);
    var diff := nBkg - nData;
    QuotientSum(nData, nBkg, Pow2(e * lumi));
    EfficiencyTermIsRelative(diff, xs, lumi, e, delESq);
    LuminosityTermIsRelative(diff, xs, lumi, delLumi, e);
  }

  /** With non-negative counts and squared efficiency uncertainty, the squared cross-section uncertainty is non-negative. */
  lemma CrossSectionUncertaintySqNonNeg(nData: real, nBkg: real, lumi: real, delLumi: real, e: real, delESq: real)
    requires lumi != 0.0 && e != 0.0
    requires nData >= 0.0 && nBkg >= 0.0 && delESq >= 0.0
    ensures CrossSectionUncertaintySq(nData, nBkg, lumi, delLumi, e, delESq) >= 0.0
  {
    CrossSectionUncertaintyDecomposes(nData, nBkg, lumi, delLumi, e, delESq);
    var xs := CrossSection(nData, nBkg, lumi, e);
    Pow2Positive(e * lumi);
    Pow2Positive(e);
    Pow2Positive(lumi);
    Pow2NonNeg(delLumi);
    Pow2NonNeg(xs);
    QuotientNonNeg(nData + nBkg, Pow2(e * lumi));
    QuotientNonNeg(delESq, Pow2(e));
    QuotientNonNeg(Pow2(delLumi), Pow2(lumi));
    ProductNonNeg(Pow2(xs), delESq / Pow2(e) + Pow2(delLumi) / Pow2(lumi));
  }

  /** The efficiency term is the squared cross section times the squared relative efficiency uncertainty. */
  lemma EfficiencyTermIsRelative(diff: real, xs: real, lumi: real, e: real, delESq: real)
    requires lumi != 0.0 && e != 0.0
    requires xs * (lumi * e) == -diff
    ensures Pow2(e) != 0.0
    ensures Pow2(diff / (lumi * Pow2(e))) * delESq == Pow2(xs) * (delESq / Pow2(e))
  {
    Pow2Positive(e);
    var r := diff / (lumi * Pow2(e));
    assert r * (lumi * Pow2(e)) == diff;
    assert (r * e) * (lumi * e) == r * (lumi * Pow2(e));
    assert lumi * e != 0.0;
    Cancel(r * e, -xs, lumi * e);
    assert r == -xs / e;
    Pow2OfNegation(xs / e);
    Pow2OfQuotient(xs, e);
    var p := Pow2(xs) / Pow2(e);
    assert p * Pow2(e) == Pow2(xs);
    assert (p * delESq) * Pow2(e) == (Pow2(xs) * (delESq / Pow2(e))) * Pow2(e);
    Cancel(p * delESq, Pow2(xs) * (delESq / Pow2(e)), Pow2(e));
  }

  /** The luminosity term is the squared cross section times the squared relative luminosity uncertainty. */
  lemma LuminosityTermIsRelative(diff: real, xs: real, lumi: real, delLumi: real, e: real)
    requires lumi != 0.0 && e != 0.0
    requires xs * (lumi * e) == -diff
    ensures Pow2(lumi) != 0.0
    ensures Pow2(diff * delLumi / (Pow2(lumi) * e)) == Pow2(xs) * (Pow2(delLumi) / Pow2(lumi))
  {
    Pow2Positive(lumi);
    var r := diff * delLumi / (Pow2(lumi) * e);
    assert r * (Pow2(lumi) * e) == diff * delLumi;
    var s := xs * (delLumi / lumi);
    assert (delLumi / lumi) * lumi == delLumi;
    assert s * (Pow2(lumi) * e) == (xs * (lumi * e)) * ((delLumi / lumi) * lumi);
    Cancel(r, -s, Pow2(lumi) * e);
    Pow2OfNegation(s);
    Pow2OfProduct(xs, delLumi / lumi);
    Pow2OfQuotient(delLumi, lumi);
  }
}
