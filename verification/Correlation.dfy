/**
 Correlation of judge and expert scores, and cosine similarity, over exact reals
 (src/governance/domain/judge-calibration.ts, src/knowledge/domain/cosine.ts).

 The square root is any function that is one on the non-negative reals.
 */
module Correlation {
  import opened Outcomes

  datatype Pair = Pair(x: real, y: real)

  type Root = real -> real

  ghost predicate IsRoot(sqrt: Root) {
    forall z | z >= 0.0 :: sqrt(z) >= 0.0 && sqrt(z) * sqrt(z) == z
  }

  // ---- Sums of products ------------------------------------------------------------------------------------------

  function Products(pairs: seq<Pair>): real {
    if |pairs| == 0 then 0.0 else Products(pairs[..|pairs| - 1]) + pairs[|pairs| - 1].x * pairs[|pairs| - 1].y
  }

  function LeftSquares(pairs: seq<Pair>): real {
    if |pairs| == 0 then 0.0 else LeftSquares(pairs[..|pairs| - 1]) + pairs[|pairs| - 1].x * pairs[|pairs| - 1].x
  }

  function RightSquares(pairs: seq<Pair>): real {
    if |pairs| == 0 then 0.0 else RightSquares(pairs[..|pairs| - 1]) + pairs[|pairs| - 1].y * pairs[|pairs| - 1].y
  }

  /** The squares of a linear combination, added up. */
  function CombinedSquares(pairs: seq<Pair>, a: real, b: real): real {
    if |pairs| == 0 then 0.0
    else
      var p := pairs[|pairs| - 1];
      CombinedSquares(pairs[..|pairs| - 1], a, b) + (a * p.x - b * p.y) * (a * p.x - b * p.y)
  }

  lemma PositiveTimes(a: real, b: real)
    requires a > 0.0 && b > 0.0
    ensures a * b > 0.0
  {
  }

  lemma PositiveProduct(a: real, b: real, ab: real)
    requires ab == a * b && a > 0.0 && b > 0.0
    ensures ab > 0.0
  {
    PositiveTimes(a, b);
  }

  lemma SquareIs(z: real, square: real)
    requires square == z * z
    ensures square >= 0.0 && (square == 0.0 <==> z == 0.0)
  {
    if z > 0.0 { PositiveProduct(z, z, square); }
    if z < 0.0 { PositiveProduct(-z, -z, square); }
  }

  lemma SquareIsPositive(z: real)
    ensures z * z >= 0.0
    ensures z * z == 0.0 <==> z == 0.0
  {
    SquareIs(z, z * z);
  }

  lemma {:induction false} CombinedIsPositive(pairs: seq<Pair>, a: real, b: real)
    ensures CombinedSquares(pairs, a, b) >= 0.0
  {
    if |pairs| > 0 {
      CombinedIsPositive(pairs[..|pairs| - 1], a, b);
      SquareIsPositive(a * pairs[|pairs| - 1].x - b * pairs[|pairs| - 1].y);
    }
  }

  lemma SquareExpands(a: real, b: real, x: real, y: real)
    ensures (a * x - b * y) * (a * x - b * y) == a * a * (x * x) - 2.0 * (a * b) * (x * y) + b * b * (y * y)
  {
  }

  lemma Distributes(c: real, u: real, v: real)
    ensures c * (u + v) == c * u + c * v
  {
  }

  lemma {:induction false} CombinedExpands(pairs: seq<Pair>, a: real, b: real)
    ensures CombinedSquares(pairs, a, b) ==
            a * a * LeftSquares(pairs) - 2.0 * (a * b) * Products(pairs) + b * b * RightSquares(pairs)
  {
    if |pairs| > 0 {
      var rest, p := pairs[..|pairs| - 1], pairs[|pairs| - 1];
      CombinedExpands(rest, a, b);
      SquareExpands(a, b, p.x, p.y);
      Distributes(a * a, LeftSquares(rest), p.x * p.x);
      Distributes(2.0 * (a * b), Products(rest), p.x * p.y);
      Distributes(b * b, RightSquares(rest), p.y * p.y);
    }
  }

  lemma {:induction false} SquaresArePositive(pairs: seq<Pair>)
    ensures LeftSquares(pairs) >= 0.0 && RightSquares(pairs) >= 0.0
    ensures LeftSquares(pairs) == 0.0 <==> forall i | 0 <= i < |pairs| :: pairs[i].x == 0.0
    ensures RightSquares(pairs) == 0.0 <==> forall i | 0 <= i < |pairs| :: pairs[i].y == 0.0
  {
    if |pairs| > 0 {
      SquaresArePositive(pairs[..|pairs| - 1]);
      SquareIsPositive(pairs[|pairs| - 1].x);
      SquareIsPositive(pairs[|pairs| - 1].y);
    }
  }

  lemma {:induction false} NothingOnTheRight(pairs: seq<Pair>)
    requires forall i | 0 <= i < |pairs| :: pairs[i].y == 0.0
    ensures Products(pairs) == 0.0
  {
    if |pairs| > 0 { NothingOnTheRight(pairs[..|pairs| - 1]); }
  }

  lemma CancelPositive(b: real, z: real)
    requires b > 0.0 && b * z >= 0.0
    ensures z >= 0.0
  {
    if z < 0.0 { PositiveTimes(b, -z); }
  }

  lemma AtTheBest(a: real, b: real, s: real)
    ensures b * b * a - 2.0 * (b * s) * s + s * s * b == b * (a * b - s * s)
  {
    assert b * (a * b - s * s) == b * (a * b) - b * (s * s);
    assert (b * s) * s == b * (s * s) && s * s * b == b * (s * s) && b * b * a == b * (a * b);
  }

  /** As Cauchy and Schwarz have it. */
  predicate Dominated(s: real, a: real, b: real) {
    s * s <= a * b
  }

  lemma DominatedWithNothing(s: real, a: real, b: real)
    requires s == 0.0 && b == 0.0
    ensures Dominated(s, a, b)
  {
  }

  lemma DominatedAtTheBest(s: real, a: real, b: real)
    requires b > 0.0 && b * b * a - 2.0 * (b * s) * s + s * s * b >= 0.0
    ensures Dominated(s, a, b)
  {
    AtTheBest(a, b, s);
    CancelPositive(b, a * b - s * s);
  }

  lemma QuadraticAt(pairs: seq<Pair>, a: real, s: real, b: real, x: real, y: real)
    requires a == LeftSquares(pairs) && s == Products(pairs) && b == RightSquares(pairs)
    ensures x * x * a - 2.0 * (x * y) * s + y * y * b >= 0.0
  {
    CombinedExpands(pairs, x, y);
    CombinedIsPositive(pairs, x, y);
  }

  lemma DominatedBy(pairs: seq<Pair>, a: real, s: real, b: real)
    requires a == LeftSquares(pairs) && s == Products(pairs) && b == RightSquares(pairs)
    ensures Dominated(s, a, b)
  {
    SquaresArePositive(pairs);
    if b == 0.0 {
      NothingOnTheRight(pairs);
      DominatedWithNothing(s, a, b);
    } else {
      QuadraticAt(pairs, a, s, b, b, s);
      DominatedAtTheBest(s, a, b);
    }
  }

  /** The square of the sum of products is at most the product of the sums of squares. */
  lemma CauchySchwarz(pairs: seq<Pair>)
    ensures Dominated(Products(pairs), LeftSquares(pairs), RightSquares(pairs))
  {
    DominatedBy(pairs, LeftSquares(pairs), Products(pairs), RightSquares(pairs));
  }

  lemma BiggerSquares(s: real, d: real)
    requires s > d > 0.0
    ensures s * s > d * d
  {
    assert (s - d) * (s + d) > 0.0;
    assert (s - d) * (s + d) == s * s - d * d;
  }

  lemma SquareOrder(s: real, d: real)
    requires d > 0.0 && s * s <= d * d
    ensures -d <= s <= d
  {
    if s > d { BiggerSquares(s, d); }
    if -s > d { BiggerSquares(-s, d); }
  }

  lemma MoreThanOnce(q: real, d: real)
    requires q > 1.0 && d > 0.0
    ensures q * d > d
  {
    assert (q - 1.0) * d > 0.0;
  }

  lemma WithinRoot(s: real, d: real)
    requires d > 0.0 && s * s <= d * d
    ensures -1.0 <= s / d <= 1.0
  {
    SquareOrder(s, d);
    var q := s / d;
    assert q * d == s;
    if q > 1.0 { MoreThanOnce(q, d); }
    if -q > 1.0 { MoreThanOnce(-q, d); }
  }

  lemma ZeroProduct(a: real, b: real)
    requires a >= 0.0 && b >= 0.0
    ensures a * b >= 0.0 && (a * b == 0.0 <==> a == 0.0 || b == 0.0)
  {
  }

  /** The quotient by the root of a product, if that is not zero. */
  function OverRoot(s: real, a: real, b: real, sqrt: Root): Option<real> {
    var d := sqrt(a * b);
    if d == 0.0 then None else Some(s / d)
  }

  /** The quotient by a product of roots, or zero. */
  function OverRoots(s: real, a: real, b: real, sqrt: Root): real {
    var d := sqrt(a) * sqrt(b);
    if d == 0.0 then 0.0 else s / d
  }

  /** Missing exactly when it must be, and otherwise between -1 and 1. */
  predicate RatioOk(r: Option<real>, missing: bool) {
    (r.None? <==> missing) && (r.Some? ==> -1.0 <= r.value <= 1.0)
  }

  lemma OverRootIsBounded(s: real, a: real, b: real, sqrt: Root)
    requires IsRoot(sqrt) && a >= 0.0 && b >= 0.0 && Dominated(s, a, b)
    ensures RatioOk(OverRoot(s, a, b, sqrt), a == 0.0 || b == 0.0)
  {
    ZeroProduct(a, b);
    var d := sqrt(a * b);
    assert d >= 0.0 && d * d == a * b;
    SquareIsPositive(d);
    if d != 0.0 { WithinRoot(s, d); }
  }

  lemma WithinProduct(s: real, p: real, q: real, ab: real)
    requires p >= 0.0 && q >= 0.0 && p * q != 0.0 && (p * p) * (q * q) == ab && s * s <= ab
    ensures p * q > 0.0 && s * s <= (p * q) * (p * q)
  {
    ZeroProduct(p, q);
    SquareOfProduct(p, q);
  }

  lemma OverRootsIsBounded(s: real, a: real, b: real, sqrt: Root)
    requires IsRoot(sqrt) && a >= 0.0 && b >= 0.0 && Dominated(s, a, b)
    ensures -1.0 <= OverRoots(s, a, b, sqrt) <= 1.0
  {
    var (p, q) := (sqrt(a), sqrt(b));
    assert p >= 0.0 && p * p == a && q >= 0.0 && q * q == b;
    var d := p * q;
    if d != 0.0 {
      WithinProduct(s, p, q, a * b);
      WithinRoot(s, d);
      assert OverRoots(s, a, b, sqrt) == s / d;
    }
  }

  lemma OnceItself(a: real, d: real)
    requires a == d > 0.0
    ensures a / d == 1.0
  {
  }

  lemma OverRootsOfItself(a: real, sqrt: Root)
    requires IsRoot(sqrt) && a > 0.0
    ensures OverRoots(a, a, a, sqrt) == 1.0
  {
    var d := sqrt(a) * sqrt(a);
    assert d == a;
    OnceItself(a, d);
    assert OverRoots(a, a, a, sqrt) == a / d;
  }

  lemma OverRootsIsSymmetric(s: real, a: real, b: real, sqrt: Root)
    ensures OverRoots(s, a, b, sqrt) == OverRoots(s, b, a, sqrt)
  {
    assert sqrt(a) * sqrt(b) == sqrt(b) * sqrt(a);
  }

  lemma SquareOfProduct(p: real, q: real)
    ensures (p * q) * (p * q) == (p * p) * (q * q)
  {
  }

  // ---- Calibration -------------------------------------------------------------------------------------------------

  datatype IndeterminateReason = NoVariance | TooFewPairs

  datatype CalibrationVerdict =
    | Calibrated(correlation: real)
    | Uncalibrated(correlation: real, threshold: real)
    | Indeterminate(reason: IndeterminateReason)

  const MIN_JUDGE_CORRELATION := 0.7

  function SumX(pairs: seq<Pair>): real {
    if |pairs| == 0 then 0.0 else SumX(pairs[..|pairs| - 1]) + pairs[|pairs| - 1].x
  }

  function SumY(pairs: seq<Pair>): real {
    if |pairs| == 0 then 0.0 else SumY(pairs[..|pairs| - 1]) + pairs[|pairs| - 1].y
  }

  function Deviations(pairs: seq<Pair>, meanX: real, meanY: real): seq<Pair> {
    seq(|pairs|, i requires 0 <= i < |pairs| => Pair(pairs[i].x - meanX, pairs[i].y - meanY))
  }

  function Centred(pairs: seq<Pair>): seq<Pair>
    requires |pairs| > 0
  {
    Deviations(pairs, SumX(pairs) / |pairs| as real, SumY(pairs) / |pairs| as real)
  }

  function Pearson(pairs: seq<Pair>, sqrt: Root): Option<real>
    requires |pairs| > 0
  {
    var centred := Centred(pairs);
    OverRoot(Products(centred), LeftSquares(centred), RightSquares(centred), sqrt)
  }

  function Verdict(pairs: seq<Pair>, sqrt: Root): CalibrationVerdict {
    if |pairs| < 2 then Indeterminate(TooFewPairs)
    else
      var correlation := Pearson(pairs, sqrt);
      if correlation.None? then Indeterminate(NoVariance)
      else if correlation.value >= MIN_JUDGE_CORRELATION then Calibrated(correlation.value)
      else Uncalibrated(correlation.value, MIN_JUDGE_CORRELATION)
  }

  method PearsonOf(pairs: seq<Pair>, sqrt: Root) returns (r: Option<real>)
    requires |pairs| > 0
    ensures r == Pearson(pairs, sqrt)
  {
    var n := |pairs| as real;
    var meanX, meanY := SumX(pairs) / n, SumY(pairs) / n;
    ghost var centred := Centred(pairs);
    var covariance, varianceX, varianceY := 0.0, 0.0, 0.0;
    for i := 0 to |pairs|
      invariant covariance == Products(centred[..i])
      invariant varianceX == LeftSquares(centred[..i]) && varianceY == RightSquares(centred[..i])
    {
      assert centred[..i + 1][..i] == centred[..i];
      var dx, dy := pairs[i].x - meanX, pairs[i].y - meanY;
      assert centred[i] == Pair(dx, dy);
      covariance := covariance + dx * dy;
      varianceX := varianceX + dx * dx;
      varianceY := varianceY + dy * dy;
    }
    assert centred[..|pairs|] == centred;
    return OverRoot(covariance, varianceX, varianceY, sqrt);
  }

  method Calibrate(pairs: seq<Pair>, sqrt: Root) returns (verdict: CalibrationVerdict)
    ensures verdict == Verdict(pairs, sqrt)
  {
    if |pairs| < 2 {
      return Indeterminate(TooFewPairs);
    }
    var correlation := PearsonOf(pairs, sqrt);
    if correlation.None? {
      return Indeterminate(NoVariance);
    }
    return if correlation.value >= MIN_JUDGE_CORRELATION then Calibrated(correlation.value)
      else Uncalibrated(correlation.value, MIN_JUDGE_CORRELATION);
  }

  predicate ConstantX(pairs: seq<Pair>) { forall i, j | 0 <= i < |pairs| && 0 <= j < |pairs| ::
                                         pairs[i].x == pairs[j].x }

  predicate ConstantY(pairs: seq<Pair>) { forall i, j | 0 <= i < |pairs| && 0 <= j < |pairs| ::
                                         pairs[i].y == pairs[j].y }

  lemma {:induction false} SumOfConstant(pairs: seq<Pair>, c: real)
    ensures (forall i | 0 <= i < |pairs| :: pairs[i].x == c) ==> SumX(pairs) == c * |pairs| as real
    ensures (forall i | 0 <= i < |pairs| :: pairs[i].y == c) ==> SumY(pairs) == c * |pairs| as real
  {
    if |pairs| > 0 {
      SumOfConstant(pairs[..|pairs| - 1], c);
      assert c * |pairs| as real == c * (|pairs| - 1) as real + c;
    }
  }

  lemma DivideBack(sum: real, c: real, n: real)
    requires n > 0.0 && sum == c * n
    ensures sum / n == c
  {
  }

  lemma MeanOfConstantX(pairs: seq<Pair>, c: real)
    requires |pairs| > 0 && forall i | 0 <= i < |pairs| :: pairs[i].x == c
    ensures SumX(pairs) / |pairs| as real == c
  {
    SumOfConstant(pairs, c);
    DivideBack(SumX(pairs), c, |pairs| as real);
  }

  lemma MeanOfConstantY(pairs: seq<Pair>, c: real)
    requires |pairs| > 0 && forall i | 0 <= i < |pairs| :: pairs[i].y == c
    ensures SumY(pairs) / |pairs| as real == c
  {
    SumOfConstant(pairs, c);
    DivideBack(SumY(pairs), c, |pairs| as real);
  }

  lemma ConstantHasItsMean(pairs: seq<Pair>)
    requires |pairs| > 0
    ensures ConstantX(pairs) ==> SumX(pairs) / |pairs| as real == pairs[0].x
    ensures ConstantY(pairs) ==> SumY(pairs) / |pairs| as real == pairs[0].y
  {
    if ConstantX(pairs) { MeanOfConstantX(pairs, pairs[0].x); }
    if ConstantY(pairs) { MeanOfConstantY(pairs, pairs[0].y); }
  }

  /** Nothing deviates from these values exactly when every score is the value of its column. */
  lemma NoDeviation(pairs: seq<Pair>, meanX: real, meanY: real)
    ensures LeftSquares(Deviations(pairs, meanX, meanY)) == 0.0 <==> forall i | 0 <= i < |pairs| :: pairs[i].x == meanX
    ensures RightSquares(Deviations(pairs, meanX, meanY)) == 0.0 <==> forall i | 0 <= i < |pairs| :: pairs[i].y == meanY
  {
    var deviations := Deviations(pairs, meanX, meanY);
    SquaresArePositive(deviations);
    assert forall i | 0 <= i < |pairs| ::
           deviations[i].x == pairs[i].x - meanX && deviations[i].y == pairs[i].y - meanY;
  }

  /** A column deviates nowhere exactly when it is constant. */
  lemma NoDeviationMeansConstant(pairs: seq<Pair>)
    requires |pairs| > 0
    ensures LeftSquares(Centred(pairs)) == 0.0 <==> ConstantX(pairs)
    ensures RightSquares(Centred(pairs)) == 0.0 <==> ConstantY(pairs)
  {
    var (meanX, meanY) := (SumX(pairs) / |pairs| as real, SumY(pairs) / |pairs| as real);
    ConstantHasItsMean(pairs);
    NoDeviation(pairs, meanX, meanY);
  }

  /** The correlation lies between -1 and 1, and there is none exactly when one column of scores is constant. */
  lemma CorrelationIsBounded(pairs: seq<Pair>, sqrt: Root)
    requires IsRoot(sqrt) && |pairs| > 0
    ensures RatioOk(Pearson(pairs, sqrt), ConstantX(pairs) || ConstantY(pairs))
  {
    var centred := Centred(pairs);
    SquaresArePositive(centred);
    CauchySchwarz(centred);
    OverRootIsBounded(Products(centred), LeftSquares(centred), RightSquares(centred), sqrt);
    NoDeviationMeansConstant(pairs);
  }

  /** Two or more pairs are judged unless a column is constant, and every correlation reported is one. */
  lemma VerdictsAreSound(pairs: seq<Pair>, sqrt: Root)
    requires IsRoot(sqrt)
    ensures var v := Verdict(pairs, sqrt);
            && (v == Indeterminate(TooFewPairs) <==> |pairs| < 2)
            && (v == Indeterminate(NoVariance) <==> |pairs| >= 2 && (ConstantX(pairs) || ConstantY(pairs)))
            && (v.Calibrated? ==> 0.7 <= v.correlation <= 1.0) && (v.Uncalibrated? ==> -1.0 <= v.correlation < 0.7)
  {
    if |pairs| > 0 { CorrelationIsBounded(pairs, sqrt); }
  }

  // ---- Cosine ------------------------------------------------------------------------------------------------------

  /** Two vectors side by side, as far as both go. */
  function Zip(left: seq<real>, right: seq<real>): (pairs: seq<Pair>)
    ensures |pairs| == if |left| < |right| then |left| else |right|
  {
    seq(if |left| < |right| then |left| else |right|, i requires 0 <= i < |left|
        && i < |right| => Pair(left[i], right[i]))
  }

  function Cosine(left: seq<real>, right: seq<real>, sqrt: Root): real {
    var pairs := Zip(left, right);
    OverRoots(Products(pairs), LeftSquares(pairs), RightSquares(pairs), sqrt)
  }

  method CosineOf(left: seq<real>, right: seq<real>, sqrt: Root) returns (r: real)
    ensures r == Cosine(left, right, sqrt)
  {
    var dot, leftNorm, rightNorm := 0.0, 0.0, 0.0;
    var length := if |left| < |right| then |left| else |right|;
    ghost var pairs := Zip(left, right);
    for i := 0 to length
      invariant dot == Products(pairs[..i])
      invariant leftNorm == LeftSquares(pairs[..i]) && rightNorm == RightSquares(pairs[..i])
    {
      assert pairs[..i + 1][..i] == pairs[..i];
      var a, b := left[i], right[i];
      dot := dot + a * b;
      leftNorm := leftNorm + a * a;
      rightNorm := rightNorm + b * b;
    }
    assert pairs[..length] == pairs;
    return OverRoots(dot, leftNorm, rightNorm, sqrt);
  }

  lemma {:induction false} SwappedSums(a: seq<Pair>, b: seq<Pair>)
    requires |a| == |b| && forall i | 0 <= i < |a| :: a[i].x == b[i].y && a[i].y == b[i].x
    ensures Products(a) == Products(b) && LeftSquares(a) == RightSquares(b) && RightSquares(a) == LeftSquares(b)
  {
    if |a| > 0 { SwappedSums(a[..|a| - 1], b[..|b| - 1]); }
  }

  lemma {:induction false} SelfSums(pairs: seq<Pair>)
    requires forall i | 0 <= i < |pairs| :: pairs[i].x == pairs[i].y
    ensures Products(pairs) == LeftSquares(pairs) == RightSquares(pairs)
  {
    if |pairs| > 0 { SelfSums(pairs[..|pairs| - 1]); }
  }

  /** The similarity lies between -1 and 1 and is symmetric, for vectors of any lengths. */
  lemma CosineIsBounded(left: seq<real>, right: seq<real>, sqrt: Root)
    requires IsRoot(sqrt)
    ensures -1.0 <= Cosine(left, right, sqrt) <= 1.0
    ensures Cosine(left, right, sqrt) == Cosine(right, left, sqrt)
  {
    var pairs := Zip(left, right);
    SquaresArePositive(pairs);
    CauchySchwarz(pairs);
    OverRootsIsBounded(Products(pairs), LeftSquares(pairs), RightSquares(pairs), sqrt);
    SwappedSums(pairs, Zip(right, left));
    OverRootsIsSymmetric(Products(pairs), LeftSquares(pairs), RightSquares(pairs), sqrt);
  }

  /** A vector that is not all zero is as similar to itself as can be. */
  lemma SelfSimilarity(v: seq<real>, sqrt: Root)
    requires IsRoot(sqrt) && exists i :: 0 <= i < |v| && v[i] != 0.0
    ensures Cosine(v, v, sqrt) == 1.0
  {
    var pairs := Zip(v, v);
    SelfSums(pairs);
    SquaresArePositive(pairs);
    var i :| 0 <= i < |v| && v[i] != 0.0;
    assert pairs[i].x != 0.0;
    OverRootsOfItself(LeftSquares(pairs), sqrt);
  }
}
