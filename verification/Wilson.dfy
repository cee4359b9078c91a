/** The Wilson score interval, which the source computes by two formulas
    (src/skill_native/scoring.py, `_wilson_interval`; src/skill_native/reporting.py, `wilson`).
    Over the reals; the value of a square root is given, as the one non-negative number whose
    square is the radicand. */
module Wilson {

  datatype Interval = Interval(low: real, high: real)

  predicate IsRoot(root: real, x: real) {
    root >= 0.0 && root * root == x
  }

  function Max(a: real, b: real): real { if a < b then b else a }

  function Min(a: real, b: real): real { if b < a then b else a }

  function ScoringRadicand(p: real, n: real, z: real): real
    requires n > 0.0
  {
    p * (1.0 - p) / n + z * z / (4.0 * n * n)
  }

  function ReportingRadicand(p: real, n: real, z: real): real
    requires n > 0.0
  {
    (p * (1.0 - p) + z * z / (4.0 * n)) / n
  }

  function Denominator(n: real, z: real): real
    requires n > 0.0
  {
    1.0 + z * z / n
  }

  /** `_wilson_interval`. */
  function ScoringInterval(successes: nat, total: int, z: real, root: real): Interval
    requires z > 0.0
  {
    if total <= 0 then Interval(0.0, 0.0)
    else
      var n := total as real;
      var p, denom := successes as real / n, Denominator(n, z);
      DenominatorAtLeastOne(n, z);
      var centre, spread := p + z * z / (2.0 * n), z * root;
      Interval(Max(0.0, (centre - spread) / denom), Min(1.0, (centre + spread) / denom))
  }

  /** `wilson`. */
  function ReportingInterval(successes: nat, total: int, z: real, root: real): Interval
    requires z > 0.0
  {
    if total <= 0 then Interval(0.0, 1.0)
    else
      var n := total as real;
      var p, denom := successes as real / n, Denominator(n, z);
      DenominatorAtLeastOne(n, z);
      var centre, margin := (p + z * z / (2.0 * n)) / denom, z * root / denom;
      Interval(Max(0.0, centre - margin), Min(1.0, centre + margin))
  }

  lemma DenominatorAtLeastOne(n: real, z: real)
    requires n > 0.0
    ensures Denominator(n, z) >= 1.0
  {
    SquareNonNegative(z);
    WeightScaled(n, z);
    if Weight(n, z) < 0.0 {
      SignOfWeight(n, Weight(n, z));
    }
  }

  lemma SignOfWeight(n: real, k: real)
    requires n > 0.0 && k < 0.0
    ensures Scale(n, k) < 0.0
  {
    hide *;
    ScalePositive(n, -k);
    ScaleNegative(n, k);
  }

  lemma SquareNonNegative(x: real)
    ensures Square(x) >= 0.0
  {
  }

  function Square(x: real): real { x * x }

  function Scale(d: real, x: real): real { d * x }

  lemma ScalePositive(d: real, x: real)
    requires d > 0.0 && x > 0.0
    ensures Scale(d, x) > 0.0
  {
  }

  lemma ScaleNonNegative(d: real, x: real)
    requires d >= 0.0 && x >= 0.0
    ensures Scale(d, x) >= 0.0
  {
  }

  // -------------------------------------------------------------- the algebra, in k = z*z/n

  /** The quadratic whose sign decides membership. */
  function Gap(p: real, k: real, t: real): real {
    (p - t) * (p - t) - k * t * (1.0 - t)
  }

  function Low(p: real, k: real, s: real): real
    requires k > 0.0
  {
    (p + k / 2.0 - s) / (1.0 + k)
  }

  function High(p: real, k: real, s: real): real
    requires k > 0.0
  {
    (p + k / 2.0 + s) / (1.0 + k)
  }

  predicate IsSpread(p: real, k: real, s: real) {
    k > 0.0 && s >= 0.0 && s * s == k * p * (1.0 - p) + k * k / 4.0
  }

  lemma Expand(d: real, t: real, c: real)
    ensures (d * t - c) * (d * t - c) == d * d * t * t - 2.0 * d * t * c + c * c
  {
  }

  lemma SpreadSquare(p: real, k: real, s: real)
    requires s * s == k * p * (1.0 - p) + k * k / 4.0
    ensures (p + k / 2.0) * (p + k / 2.0) - s * s == (1.0 + k) * p * p
  {
  }

  /** Completing the square. */
  lemma Complete(p: real, k: real, t: real, s: real)
    requires IsSpread(p, k, s)
    ensures Square(Scale(1.0 + k, t) - (p + k / 2.0)) - Square(s) == Scale(1.0 + k, Gap(p, k, t))
  {
    var d, c := 1.0 + k, p + k / 2.0;
    Expand(d, t, c);
    SpreadSquare(p, k, s);
    calc {
      d * d * t * t - 2.0 * d * t * c + d * p * p;
      d * (d * t * t - 2.0 * t * c + p * p);
    == { assert d * t * t - 2.0 * t * c + p * p == Gap(p, k, t); }
      d * Gap(p, k, t);
    }
  }

  lemma DifferenceOfSquares(x: real, s: real)
    ensures Scale(s - x, s + x) == Square(s) - Square(x)
  {
  }

  lemma SquareEven(x: real)
    ensures Square(-x) == Square(x)
  {
  }

  lemma SquareAbove(x: real, s: real)
    requires x > s >= 0.0
    ensures Square(x) > Square(s)
  {
    hide *;
    ScalePositive(x - s, x + s);
    DifferenceOfSquares(s, x);
  }

  lemma SquareOrder(x: real, s: real)
    requires s >= 0.0
    ensures Square(x) <= Square(s) <==> -s <= x <= s
  {
    hide *;
    if -s <= x <= s {
      ScaleNonNegative(s - x, s + x);
      DifferenceOfSquares(x, s);
    } else if x > s {
      SquareAbove(x, s);
    } else {
      SquareAbove(-x, s);
      SquareEven(x);
    }
  }

  lemma ScaleNegative(d: real, x: real)
    ensures Scale(d, -x) == -Scale(d, x)
  {
  }

  lemma SignOfProduct(d: real, g: real)
    requires d > 0.0
    ensures Scale(d, g) <= 0.0 <==> g <= 0.0
  {
    hide *;
    if g > 0.0 {
      ScalePositive(d, g);
    } else {
      ScaleNonNegative(d, -g);
      ScaleNegative(d, g);
    }
  }

  lemma LessByProduct(a: real, b: real, d: real)
    requires d > 0.0
    ensures a <= b <==> Scale(d, a) <= Scale(d, b)
  {
    SignOfProduct(d, a - b);
    assert d * (a - b) == d * a - d * b;
  }

  lemma ScaleBack(x: real, d: real)
    requires d > 0.0
    ensures Scale(d, x / d) == x
  {
  }

  lemma BetweenEnds(p: real, k: real, s: real, t: real)
    requires k > 0.0
    ensures Low(p, k, s) <= t <= High(p, k, s) <==> -s <= Scale(1.0 + k, t) - (p + k / 2.0) <= s
  {
    hide Scale;
    LessByProduct(Low(p, k, s), t, 1.0 + k);
    LessByProduct(t, High(p, k, s), 1.0 + k);
    ScaleBack(p + k / 2.0 - s, 1.0 + k);
    ScaleBack(p + k / 2.0 + s, 1.0 + k);
  }

  /** The unclamped ends enclose exactly the points where the quadratic is not positive. */
  lemma Encloses(p: real, k: real, s: real, t: real)
    requires IsSpread(p, k, s)
    ensures Low(p, k, s) <= t <= High(p, k, s) <==> Gap(p, k, t) <= 0.0
  {
    hide *;
    SpreadSigns(p, k, s);
    BetweenEnds(p, k, s, t);
    SquareOrder(Scale(1.0 + k, t) - (p + k / 2.0), s);
    Complete(p, k, t, s);
    SignOfProduct(1.0 + k, Gap(p, k, t));
  }

  lemma SpreadSigns(p: real, k: real, s: real)
    requires IsSpread(p, k, s)
    ensures k > 0.0 && s >= 0.0
  {
  }

  lemma GapForm(p: real, k: real, t: real)
    ensures Gap(p, k, t) == Square(p - t) + Scale(k, Scale(t, t - 1.0))
  {
  }

  lemma GapOutside(p: real, k: real, t: real)
    requires k > 0.0 && Gap(p, k, t) <= 0.0
    ensures 0.0 <= t <= 1.0
  {
    hide *;
    GapForm(p, k, t);
    SquareNonNegative(p - t);
    if t < 0.0 {
      ScalePositive(-t, 1.0 - t);
      BothNegative(t);
      ScalePositive(k, Scale(t, t - 1.0));
    } else if t > 1.0 {
      ScalePositive(t, t - 1.0);
      ScalePositive(k, Scale(t, t - 1.0));
    }
  }

  lemma BothNegative(t: real)
    ensures Scale(-t, 1.0 - t) == Scale(t, t - 1.0)
  {
  }

  /** The ends themselves are enclosed, so they lie between 0 and 1. */
  lemma EndsInside(p: real, k: real, s: real)
    requires IsSpread(p, k, s)
    ensures 0.0 <= Low(p, k, s) <= High(p, k, s) <= 1.0
  {
    hide *;
    SpreadSigns(p, k, s);
    EndsOrdered(p, k, s);
    Encloses(p, k, s, Low(p, k, s));
    Encloses(p, k, s, High(p, k, s));
    GapOutside(p, k, Low(p, k, s));
    GapOutside(p, k, High(p, k, s));
  }

  lemma EndsOrdered(p: real, k: real, s: real)
    requires k > 0.0 && s >= 0.0
    ensures Low(p, k, s) <= High(p, k, s)
  {
    hide Scale;
    LessByProduct(Low(p, k, s), High(p, k, s), 1.0 + k);
    ScaleBack(p + k / 2.0 - s, 1.0 + k);
    ScaleBack(p + k / 2.0 + s, 1.0 + k);
  }

  // ------------------------------------------------------------- from counts to p and k

  lemma QuotientIs(a: real, b: real, q: real)
    requires b > 0.0 && Scale(q, b) == a
    ensures a / b == q
  {
  }

  lemma QuotientBack(a: real, b: real)
    requires b > 0.0
    ensures Scale(a / b, b) == a
  {
  }

  lemma ScaleSum(x: real, y: real, n: real)
    ensures Scale(x + y, n) == Scale(x, n) + Scale(y, n)
  {
  }

  lemma ScaleTwice(x: real, n: real, m: real)
    ensures Scale(Scale(x, n), m) == Scale(x, Scale(m, n))
  {
  }

  function FourSquares(n: real): real { 4.0 * n * n }

  lemma FourSquaresPositive(n: real)
    requires n > 0.0
    ensures FourSquares(n) > 0.0 && FourSquares(n) == Scale(4.0 * n, n) == 4.0 * n * n
  {
    ScalePositive(n, n);
  }

  /** Dividing by 4*n*n and multiplying by n is dividing by 4*n. */
  lemma QuarterWeight(w: real, n: real)
    requires n > 0.0 && FourSquares(n) > 0.0
    ensures w / (4.0 * n) == Scale(w / FourSquares(n), n)
  {
    hide *;
    var y := w / FourSquares(n);
    FourSquaresPositive(n);
    QuotientBack(w, FourSquares(n));
    ScaleTwice(y, n, 4.0 * n);
    QuotientIs(w, 4.0 * n, Scale(y, n));
  }

  lemma RadicandsAgree(p: real, n: real, z: real)
    requires n > 0.0
    ensures ScoringRadicand(p, n, z) == ReportingRadicand(p, n, z)
  {
    FourSquaresPositive(n);
    RadicandsUnfold(p, n, z);
    hide *;
    var a, y := p * (1.0 - p), Square(z) / FourSquares(n);
    QuarterWeight(Square(z), n);
    QuotientBack(a, n);
    ScaleSum(a / n, y, n);
    QuotientIs(a + Square(z) / (4.0 * n), n, a / n + y);
  }

  lemma RadicandsUnfold(p: real, n: real, z: real)
    requires n > 0.0 && FourSquares(n) > 0.0
    ensures ScoringRadicand(p, n, z) == p * (1.0 - p) / n + Square(z) / FourSquares(n)
    ensures ReportingRadicand(p, n, z) == (p * (1.0 - p) + Square(z) / (4.0 * n)) / n
  {
  }

  lemma RootUnique(r: real, s: real, x: real)
    requires IsRoot(r, x) && IsRoot(s, x)
    ensures r == s
  {
    SquareOrder(r, s);
    SquareOrder(s, r);
  }

  /** z*z/n, the k of the algebra. */
  function Weight(n: real, z: real): (k: real)
    requires n > 0.0
  {
    z * z / n
  }

  lemma WeightPositive(n: real, z: real)
    requires n > 0.0 && z > 0.0
    ensures Weight(n, z) > 0.0
  {
    ScalePositive(z, z);
    WeightScaled(n, z);
    hide *;
    if Weight(n, z) <= 0.0 {
      SignOfProduct(n, Weight(n, z));
    }
  }

  lemma WeightScaled(n: real, z: real)
    requires n > 0.0
    ensures Scale(n, Weight(n, z)) == Square(z) == Scale(z, z)
  {
  }

  /** The centre's share of the weight, and the two parts of the scaled radicand. */
  lemma HalfWeight(n: real, z: real)
    requires n > 0.0
    ensures z * z / (2.0 * n) == Weight(n, z) / 2.0
  {
    WeightScaled(n, z);
    QuotientIs(z * z, 2.0 * n, Weight(n, z) / 2.0);
  }

  lemma RateShare(q: real, n: real, z: real)
    requires n > 0.0
    ensures Scale(Square(z), q / n) == Scale(Weight(n, z), q)
  {
    QuotientBack(q, n);
    WeightScaled(n, z);
    Reassociate(q / n, n, Weight(n, z));
  }

  lemma Reassociate(x: real, n: real, k: real)
    ensures Scale(Scale(n, k), x) == Scale(k, Scale(x, n))
  {
  }

  lemma WeightShare(n: real, z: real)
    requires n > 0.0 && FourSquares(n) > 0.0
    ensures Scale(Square(z), Square(z) / FourSquares(n)) == Square(Weight(n, z)) / 4.0
  {
    var k, y := Weight(n, z), Square(z) / FourSquares(n);
    WeightScaled(n, z);
    QuarterWeight(Square(z), n);
    QuarterOfWeight(n, z);
    Reassociate(y, n, k);
    assert Scale(k, k / 4.0) == Square(k) / 4.0;
  }

  lemma QuarterOfWeight(n: real, z: real)
    requires n > 0.0
    ensures Square(z) / (4.0 * n) == Weight(n, z) / 4.0
  {
    WeightScaled(n, z);
    QuotientIs(Square(z), 4.0 * n, Weight(n, z) / 4.0);
  }

  lemma SpreadOfRoot(p: real, n: real, z: real, root: real)
    requires n > 0.0 && z > 0.0 && IsRoot(root, ScoringRadicand(p, n, z))
    ensures z * root >= 0.0 && Square(z * root) == Scale(Square(z), ScoringRadicand(p, n, z))
  {
    hide ScoringRadicand;
    ScaleNonNegative(z, root);
    ProductSquare(z, root);
  }

  lemma ProductSquare(x: real, y: real)
    ensures Square(x * y) == Scale(Square(x), y * y)
  {
  }

  lemma ScaleOfSum(d: real, x: real, y: real)
    ensures Scale(d, x + y) == Scale(d, x) + Scale(d, y)
  {
  }

  /** The spread z*root squares to what completing the square needs. */
  lemma SpreadFits(p: real, n: real, z: real, root: real)
    requires n > 0.0 && z > 0.0 && IsRoot(root, ScoringRadicand(p, n, z))
    ensures IsSpread(p, Weight(n, z), z * root)
  {
    FourSquaresPositive(n);
    hide *;
    WeightPositive(n, z);
    SpreadOfRoot(p, n, z, root);
    RadicandsUnfold(p, n, z);
    var q, w := p * (1.0 - p), Square(z);
    ScaleOfSum(w, q / n, w / FourSquares(n));
    RateShare(q, n, z);
    WeightShare(n, z);
    SpreadFromSquare(p, Weight(n, z), z * root);
  }

  lemma SpreadFromSquare(p: real, k: real, s: real)
    requires k > 0.0 && s >= 0.0 && Square(s) == Scale(k, p * (1.0 - p)) + Square(k) / 4.0
    ensures IsSpread(p, k, s)
  {
  }

  // ---------------------------------------------------------------------- main results

  predicate Within(i: Interval, t: real) {
    i.low <= t <= i.high
  }

  /** The observed rate p lies within z standard deviations of t, by the variance that t itself
      gives to n trials. */
  predicate Plausible(n: real, p: real, z: real, t: real) {
    n * (p - t) * (p - t) <= z * z * t * (1.0 - t)
  }

  /** The quadratic, multiplied by the number of trials. */
  lemma GapScaled(p: real, n: real, z: real, t: real)
    requires n > 0.0
    ensures Gap(p, Weight(n, z), t) <= 0.0 <==> Plausible(n, p, z, t)
  {
    hide *;
    var k := Weight(n, z);
    SignOfProduct(n, Gap(p, k, t));
    GapForm(p, k, t);
    WeightScaled(n, z);
    ScaleOfSum(n, Square(p - t), Scale(k, Scale(t, t - 1.0)));
    ScaleInner(n, k, Scale(t, t - 1.0));
    PlausibleForm(n, p, z, t);
  }

  lemma ScaleInner(n: real, k: real, x: real)
    ensures Scale(n, Scale(k, x)) == Scale(Scale(n, k), x)
  {
  }

  lemma PlausibleForm(n: real, p: real, z: real, t: real)
    ensures Plausible(n, p, z, t) <==> Scale(n, Square(p - t)) + Scale(Square(z), Scale(t, t - 1.0)) <= 0.0
  {
    assert n * (p - t) * (p - t) == Scale(n, Square(p - t));
    assert z * z * t * (1.0 - t) == -Scale(Square(z), Scale(t, t - 1.0));
  }

  /** The interval without the clamps. */
  function Unclamped(successes: nat, total: int, z: real, root: real): Interval
    requires total > 0 && z > 0.0
  {
    var n := total as real;
    WeightPositive(n, z);
    Interval(Low(successes as real / n, Weight(n, z), z * root), High(successes as real / n, Weight(n, z), z * root))
  }

  lemma ScoringEnds(successes: nat, total: int, z: real, root: real)
    requires 0 < total && z > 0.0 && Weight(total as real, z) > 0.0
    ensures var n, p := total as real, successes as real / total as real;
            ScoringInterval(successes, total, z, root) ==
            Interval(Max(0.0, Low(p, Weight(n, z), z * root)), Min(1.0, High(p, Weight(n, z), z * root)))
  {
    HalfWeight(total as real, z);
    hide Max, Min, Square, Scale;
  }

  lemma IsUnclamped(successes: nat, total: int, z: real, root: real)
    requires 0 < total && successes <= total && z > 0.0
    requires IsRoot(root, ScoringRadicand(successes as real / total as real, total as real, z))
    ensures var n, p := total as real, successes as real / total as real;
            && Weight(n, z) > 0.0 && IsSpread(p, Weight(n, z), z * root)
            && Unclamped(successes, total, z, root) ==
               Interval(Low(p, Weight(n, z), z * root), High(p, Weight(n, z), z * root))
            && ScoringInterval(successes, total, z, root) == Unclamped(successes, total, z, root)
  {
    var n, p := total as real, successes as real / total as real;
    SpreadFits(p, n, z, root);
    WeightPositive(n, z);
    hide IsSpread, ScoringRadicand, IsRoot, Weight, Low, High, ScoringInterval;
    ScoringEnds(successes, total, z, root);
    EndsInside(p, Weight(n, z), z * root);
  }

  /** For at least one trial the clamps to [0, 1] change nothing, and the interval holds exactly
      the plausible values, among them the observed rate. */
  lemma IntervalIsScoreRegion(successes: nat, total: int, z: real, root: real)
    requires 0 < total && successes <= total && z > 0.0
    requires IsRoot(root, ScoringRadicand(successes as real / total as real, total as real, z))
    ensures var n, p := total as real, successes as real / total as real;
            var i := ScoringInterval(successes, total, z, root);
            && (forall t :: Within(i, t) <==> Plausible(n, p, z, t))
            && Within(i, p) && 0.0 <= i.low && i.high <= 1.0 && i == Unclamped(successes, total, z, root)
  {
    var n, p := total as real, successes as real / total as real;
    var i := ScoringInterval(successes, total, z, root);
    IsUnclamped(successes, total, z, root);
    hide IsSpread, ScoringRadicand, IsRoot, ScoringInterval, Unclamped, Low, High, Gap, Plausible, Weight;
    EndsInside(p, Weight(n, z), z * root);
    forall t ensures Within(i, t) <==> Plausible(n, p, z, t) {
      Encloses(p, Weight(n, z), z * root, t);
      GapScaled(p, n, z, t);
    }
    AtRate(p, n, z) by { RateInside(successes, total); }
  }

  lemma RateInside(successes: nat, total: int)
    requires 0 < total && successes <= total
    ensures 0.0 <= successes as real / total as real <= 1.0
  {
  }

  lemma AtRate(p: real, n: real, z: real)
    requires 0.0 <= p <= 1.0
    ensures Plausible(n, p, z, p)
  {
    hide *;
    SquareNonNegative(z);
    ScaleNonNegative(p, 1.0 - p);
    ScaleNonNegative(Square(z), Scale(p, 1.0 - p));
    PlausibleForm(n, p, z, p);
    AtRateForm(n, p, z);
  }

  lemma AtRateForm(n: real, p: real, z: real)
    ensures Scale(n, Square(p - p)) == 0.0
    ensures Scale(Square(z), Scale(p, p - 1.0)) == -Scale(Square(z), Scale(p, 1.0 - p))
  {
  }

  lemma DifferenceOfQuotients(a: real, b: real, d: real)
    requires d > 0.0
    ensures (a - b) / d == a / d - b / d && (a + b) / d == a / d + b / d
  {
  }

  /** The two formulas agree exactly where there is at least one trial: with none, scoring gives
      (0, 0) and reporting (0, 1). */
  lemma FormulasAgree(successes: nat, total: int, z: real, root: real, root': real)
    requires z > 0.0 && (total > 0 ==> successes <= total)
    requires total > 0 ==>
               var n, p := total as real, successes as real / total as real;
               IsRoot(root, ScoringRadicand(p, n, z)) && IsRoot(root', ReportingRadicand(p, n, z))
    ensures ScoringInterval(successes, total, z, root) == ReportingInterval(successes, total, z, root') <==> total > 0
  {
    hide ScoringRadicand, ReportingRadicand, Denominator, IsRoot;
    if total > 0 {
      var n, p := total as real, successes as real / total as real;
      RadicandsAgree(p, n, z);
      RootUnique(root, root', ScoringRadicand(p, n, z));
      IntervalsAgree(successes, total, z, root);
    }
  }

  lemma IntervalsAgree(successes: nat, total: int, z: real, root: real)
    requires z > 0.0 && total > 0
    ensures ScoringInterval(successes, total, z, root) == ReportingInterval(successes, total, z, root)
  {
    var n, p := total as real, successes as real / total as real;
    DenominatorAtLeastOne(n, z);
    DifferenceOfQuotients(p + z * z / (2.0 * n), z * root, Denominator(n, z));
    hide Denominator, Max, Min;
  }
}
