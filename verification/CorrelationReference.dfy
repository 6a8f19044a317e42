/**
 The correlation and the similarity against the textbook's own formulas, without means and without roots
 (src/governance/domain/judge-calibration.ts, src/knowledge/domain/cosine.ts).
 */
module CorrelationReference {
  import opened Outcomes
  import opened Correlation

  /** The quotient r that squares to s * s over a * b, with the sign of s. */
  predicate Quotient(r: real, s: real, a: real, b: real) {
    (r * r) * (a * b) == s * s && (r >= 0.0 <==> s >= 0.0)
  }

  lemma Cancels(s: real, d: real)
    requires d != 0.0
    ensures (s / d) * d == s
  {
  }

  lemma SameSign(r: real, d: real, s: real)
    requires d > 0.0 && r * d == s
    ensures r >= 0.0 <==> s >= 0.0
  {
    if r < 0.0 { assert -r * d > 0.0 by { PositiveTimes(-r, d); } }
  }

  lemma SquareOfQuotient(r: real, d: real, s: real, dd: real)
    requires r * d == s && d * d == dd
    ensures (r * r) * dd == s * s
  {
    assert (r * r) * (d * d) == (r * d) * (r * d) by { SquareOfProduct(r, d); }
  }

  lemma RootQuotient(r: real, d: real, s: real, dd: real)
    requires d > 0.0 && r * d == s && d * d == dd
    ensures (r * r) * dd == s * s && (r >= 0.0 <==> s >= 0.0)
  {
    SquareOfQuotient(r, d, s, dd);
    SameSign(r, d, s);
  }

  lemma OverRootIsQuotient(s: real, a: real, b: real, sqrt: Root)
    requires IsRoot(sqrt) && a >= 0.0 && b >= 0.0
    ensures OverRoot(s, a, b, sqrt).Some? ==> Quotient(OverRoot(s, a, b, sqrt).value, s, a, b)
  {
    ZeroProduct(a, b);
    var d := sqrt(a * b);
    assert d >= 0.0 && d * d == a * b;
    if d != 0.0 {
      Cancels(s, d);
      RootQuotient(s / d, d, s, a * b);
    }
  }

  lemma OverRootsIsQuotient(s: real, a: real, b: real, sqrt: Root)
    requires IsRoot(sqrt) && a >= 0.0 && b >= 0.0
    ensures if a == 0.0 || b == 0.0 then OverRoots(s, a, b, sqrt) == 0.0
            else Quotient(OverRoots(s, a, b, sqrt), s, a, b)
  {
    var (p, q) := (sqrt(a), sqrt(b));
    assert p >= 0.0 && p * p == a && q >= 0.0 && q * q == b;
    ZeroProduct(p, q);
    var d := p * q;
    if d != 0.0 {
      SquareOfProduct(p, q);
      assert d * d == a * b;
      Cancels(s, d);
      RootQuotient(s / d, d, s, a * b);
      assert OverRoots(s, a, b, sqrt) == s / d;
    } else {
      assert a == 0.0 || b == 0.0 by { SquareIsPositive(p); SquareIsPositive(q); }
      assert OverRoots(s, a, b, sqrt) == 0.0;
    }
    if a == 0.0 || b == 0.0 {
      SquareIsPositive(p);
      SquareIsPositive(q);
      assert d == 0.0;
    }
  }

  // ---- The correlation -----------------------------------------------------------------------------------------

  /** A sum of products of deviations, in terms of the sum of the products and the sums of the scores. */
  predicate Expanded(centred: real, s: real, mx: real, my: real, sx: real, sy: real, n: real) {
    centred == s - mx * sy - my * sx + n * (mx * my)
  }

  lemma ExpandedOneMore(centred: real, s: real, mx: real, my: real, sx: real, sy: real, n: real, x: real, y: real)
    requires Expanded(centred, s, mx, my, sx, sy, n)
    ensures Expanded(centred + (x - mx) * (y - my), s + x * y, mx, my, sx + x, sy + y, n + 1.0)
  {
    assert (x - mx) * (y - my) == x * y - mx * y - my * x + mx * my;
    assert mx * (sy + y) == mx * sy + mx * y && my * (sx + x) == my * sx + my * x;
    assert (n + 1.0) * (mx * my) == n * (mx * my) + mx * my;
  }

  lemma ExpandedAfter(centred: real, s: real, mx: real, my: real, sx: real, sy: real, n: real, x: real, y: real,
                      centred2: real, s2: real, sx2: real, sy2: real, n2: real)
    requires Expanded(centred, s, mx, my, sx, sy, n)
    requires centred2 == centred + (x - mx) * (y - my) && s2 == s + x * y
    requires sx2 == sx + x && sy2 == sy + y && n2 == n + 1.0
    ensures Expanded(centred2, s2, mx, my, sx2, sy2, n2)
  {
    ExpandedOneMore(centred, s, mx, my, sx, sy, n, x, y);
  }

  lemma {:induction false} DeviationProducts(pairs: seq<Pair>, mx: real, my: real)
    ensures Expanded(Products(Deviations(pairs, mx, my)), Products(pairs), mx, my, SumX(pairs), SumY(pairs),
                     |pairs| as real)
  {
    if |pairs| == 0 {
      NothingExpands(mx, my);
    } else {
      var (before, p) := (pairs[..|pairs| - 1], pairs[|pairs| - 1]);
      var (all, d) := (Deviations(pairs, mx, my), Deviations(before, mx, my));
      DeviationProducts(before, mx, my);
      assert all[..|pairs| - 1] == d && all[|pairs| - 1] == Pair(p.x - mx, p.y - my);
      var (centred, s) := (Products(d), Products(before));
      ExpandedAfter(centred, s, mx, my, SumX(before), SumY(before), |before| as real, p.x, p.y, Products(all),
                    Products(pairs),
                    SumX(pairs), SumY(pairs), |pairs| as real);
    }
  }

  lemma {:induction false} DeviationLefts(pairs: seq<Pair>, mx: real, my: real)
    ensures Expanded(LeftSquares(Deviations(pairs, mx, my)), LeftSquares(pairs), mx, mx, SumX(pairs), SumX(pairs),
                     |pairs| as real)
  {
    if |pairs| == 0 {
      NothingExpands(mx, mx);
    } else {
      var (before, p) := (pairs[..|pairs| - 1], pairs[|pairs| - 1]);
      var (all, d) := (Deviations(pairs, mx, my), Deviations(before, mx, my));
      DeviationLefts(before, mx, my);
      assert all[..|pairs| - 1] == d && all[|pairs| - 1] == Pair(p.x - mx, p.y - my);
      var (centred, s) := (LeftSquares(d), LeftSquares(before));
      ExpandedAfter(centred, s, mx, mx, SumX(before), SumX(before), |before| as real, p.x, p.x, LeftSquares(all),
                    LeftSquares(pairs),
                    SumX(pairs), SumX(pairs), |pairs| as real);
    }
  }

  lemma {:induction false} DeviationRights(pairs: seq<Pair>, mx: real, my: real)
    ensures Expanded(RightSquares(Deviations(pairs, mx, my)), RightSquares(pairs), my, my, SumY(pairs), SumY(pairs),
                     |pairs| as real)
  {
    if |pairs| == 0 {
      NothingExpands(my, my);
    } else {
      var (before, p) := (pairs[..|pairs| - 1], pairs[|pairs| - 1]);
      var (all, d) := (Deviations(pairs, mx, my), Deviations(before, mx, my));
      DeviationRights(before, mx, my);
      assert all[..|pairs| - 1] == d && all[|pairs| - 1] == Pair(p.x - mx, p.y - my);
      var (centred, s) := (RightSquares(d), RightSquares(before));
      ExpandedAfter(centred, s, my, my, SumY(before), SumY(before), |before| as real, p.y, p.y, RightSquares(all),
                    RightSquares(pairs),
                    SumY(pairs), SumY(pairs), |pairs| as real);
    }
  }

  lemma NothingExpands(mx: real, my: real)
    ensures Expanded(0.0, 0.0, mx, my, 0.0, 0.0, 0.0)
  {
  }

  predicate IsMean(m: real, n: real, sum: real) {
    n > 0.0 && m * n == sum
  }

  predicate Scaled(n: real, centred: real, s: real, sx: real, sy: real) {
    n * centred == n * s - sx * sy
  }

  /** With m the mean, n times the deviations' sum is n times the products' less the product of the sums. */
  lemma CentredTimesN(n: real, s: real, sx: real, sy: real, mx: real, my: real, centred: real)
    requires IsMean(mx, n, sx) && IsMean(my, n, sy) && Expanded(centred, s, mx, my, sx, sy, n)
    ensures Scaled(n, centred, s, sx, sy)
  {
    assert n * (n * (mx * my)) == sx * sy by { assert n * (n * (mx * my)) == (mx * n) * (my * n); }
    assert n * (mx * sy) == sx * sy by { assert n * (mx * sy) == (mx * n) * sy; }
    assert n * (my * sx) == sx * sy by { assert n * (my * sx) == (my * n) * sx; }
    assert n * centred == n * s - n * (mx * sy) - n * (my * sx) + n * (n * (mx * my));
  }

  /** Scaling all three by the same positive factor changes nothing. */
  lemma QuotientScales(r: real, n: real, s: real, a: real, b: real)
    requires n > 0.0 && Quotient(r, s, a, b)
    ensures Quotient(r, n * s, n * a, n * b)
  {
    assert (n * a) * (n * b) == (n * n) * (a * b);
    assert (n * s) * (n * s) == (n * n) * (s * s) by { SquareOfProduct(n, s); }
    assert (r * r) * ((n * n) * (a * b)) == (n * n) * ((r * r) * (a * b));
    if s >= 0.0 { if s > 0.0 { PositiveTimes(n, s); } } else { PositiveTimes(n, -s); }
  }

  /** What n pairs add up to: the covariance and the two variances, each n squared times over. */
  function CoSum(pairs: seq<Pair>): real {
    |pairs| as real * Products(pairs) - SumX(pairs) * SumY(pairs)
  }

  function LeftSum(pairs: seq<Pair>): real {
    |pairs| as real * LeftSquares(pairs) - SumX(pairs) * SumX(pairs)
  }

  function RightSum(pairs: seq<Pair>): real {
    |pairs| as real * RightSquares(pairs) - SumY(pairs) * SumY(pairs)
  }

  lemma ProductsAround(pairs: seq<Pair>, n: real, mx: real, my: real)
    requires n == |pairs| as real && IsMean(mx, n, SumX(pairs)) && IsMean(my, n, SumY(pairs))
    ensures Scaled(n, Products(Deviations(pairs, mx, my)), Products(pairs), SumX(pairs), SumY(pairs))
  {
    DeviationProducts(pairs, mx, my);
    CentredTimesN(n, Products(pairs), SumX(pairs), SumY(pairs), mx, my, Products(Deviations(pairs, mx, my)));
  }

  lemma LeftsAround(pairs: seq<Pair>, n: real, mx: real, my: real)
    requires n == |pairs| as real && IsMean(mx, n, SumX(pairs))
    ensures Scaled(n, LeftSquares(Deviations(pairs, mx, my)), LeftSquares(pairs), SumX(pairs), SumX(pairs))
  {
    DeviationLefts(pairs, mx, my);
    CentredTimesN(n, LeftSquares(pairs), SumX(pairs), SumX(pairs), mx, mx, LeftSquares(Deviations(pairs, mx, my)));
  }

  lemma RightsAround(pairs: seq<Pair>, n: real, mx: real, my: real)
    requires n == |pairs| as real && IsMean(my, n, SumY(pairs))
    ensures Scaled(n, RightSquares(Deviations(pairs, mx, my)), RightSquares(pairs), SumY(pairs), SumY(pairs))
  {
    DeviationRights(pairs, mx, my);
    CentredTimesN(n, RightSquares(pairs), SumY(pairs), SumY(pairs), my, my, RightSquares(Deviations(pairs, mx, my)));
  }

  predicate Less(total: real, n: real, s: real, sx: real, sy: real) {
    total == n * s - sx * sy
  }

  /** The quotient of the centred sums is that of the plain ones. */
  lemma QuotientOfPlainSums(r: real, n: real, s: real, a: real, b: real, sx: real, sy: real, cs: real, ca: real,
                            cb: real,
                            co: real, left: real, right: real)
    requires n > 0.0 && Scaled(n, cs, s, sx, sy) && Scaled(n, ca, a, sx, sx) && Scaled(n, cb, b, sy, sy)
    requires Less(co, n, s, sx, sy) && Less(left, n, a, sx, sx) && Less(right, n, b, sy, sy) && Quotient(r, cs, ca, cb)
    ensures Quotient(r, co, left, right)
  {
    QuotientScales(r, n, cs, ca, cb);
  }

  lemma PlainSums(pairs: seq<Pair>)
    ensures Less(CoSum(pairs), |pairs| as real, Products(pairs), SumX(pairs), SumY(pairs))
    ensures Less(LeftSum(pairs), |pairs| as real, LeftSquares(pairs), SumX(pairs), SumX(pairs))
    ensures Less(RightSum(pairs), |pairs| as real, RightSquares(pairs), SumY(pairs), SumY(pairs))
  {
  }

  lemma CentredQuotient(pairs: seq<Pair>, sqrt: Root)
    requires IsRoot(sqrt) && |pairs| > 0 && Pearson(pairs, sqrt).Some?
    ensures var c := Centred(pairs);
            Quotient(Pearson(pairs, sqrt).value, Products(c), LeftSquares(c), RightSquares(c))
  {
    var c := Centred(pairs);
    SquaresArePositive(c);
    OverRootIsQuotient(Products(c), LeftSquares(c), RightSquares(c), sqrt);
  }

  lemma CentredScaled(pairs: seq<Pair>)
    requires |pairs| > 0
    ensures var (c, n) := (Centred(pairs), |pairs| as real);
            && Scaled(n, Products(c), Products(pairs), SumX(pairs), SumY(pairs))
            && Scaled(n, LeftSquares(c), LeftSquares(pairs), SumX(pairs), SumX(pairs))
            && Scaled(n, RightSquares(c), RightSquares(pairs), SumY(pairs), SumY(pairs))
  {
    var n := |pairs| as real;
    var (mx, my) := (SumX(pairs) / n, SumY(pairs) / n);
    MeanIs(SumX(pairs), n);
    MeanIs(SumY(pairs), n);
    ProductsAround(pairs, n, mx, my);
    LeftsAround(pairs, n, mx, my);
    RightsAround(pairs, n, mx, my);
  }

  lemma MeanIs(sum: real, n: real)
    requires n > 0.0
    ensures IsMean(sum / n, n, sum)
  {
    Cancels(sum, n);
  }

  /**
   The correlation is the one number with the covariance's sign whose square, times both variances, is the covariance's:
   all three computed from the plain sums of the scores and of their products.
   */
  lemma PearsonIsTheTextbooks(pairs: seq<Pair>, sqrt: Root)
    requires IsRoot(sqrt) && |pairs| > 0
    ensures Pearson(pairs, sqrt).Some? ==>
              Quotient(Pearson(pairs, sqrt).value, CoSum(pairs), LeftSum(pairs), RightSum(pairs))
  {
    if Pearson(pairs, sqrt).Some? {
      var (c, n) := (Centred(pairs), |pairs| as real);
      CentredQuotient(pairs, sqrt);
      CentredScaled(pairs);
      PlainSums(pairs);
      QuotientOfPlainSums(Pearson(pairs, sqrt).value, n, Products(pairs), LeftSquares(pairs), RightSquares(pairs),
                          SumX(pairs), SumY(pairs), Products(c), LeftSquares(c), RightSquares(c), CoSum(pairs),
                          LeftSum(pairs), RightSum(pairs));
    }
  }

  // ---- The similarity ------------------------------------------------------------------------------------------

  function Dot(left: seq<real>, right: seq<real>): real {
    if |left| == 0 || |right| == 0 then 0.0 else left[0] * right[0] + Dot(left[1..], right[1..])
  }

  function Shorter(left: seq<real>, right: seq<real>): nat {
    if |left| < |right| then |left| else |right|
  }

  function Lefts(pairs: seq<Pair>): seq<real> {
    seq(|pairs|, i requires 0 <= i < |pairs| => pairs[i].x)
  }

  function Rights(pairs: seq<Pair>): seq<real> {
    seq(|pairs|, i requires 0 <= i < |pairs| => pairs[i].y)
  }

  lemma {:induction false} PairSums(pairs: seq<Pair>)
    ensures Products(pairs) == Dot(Lefts(pairs), Rights(pairs))
    ensures LeftSquares(pairs) == Dot(Lefts(pairs), Lefts(pairs))
    ensures RightSquares(pairs) == Dot(Rights(pairs), Rights(pairs))
  {
    if |pairs| > 0 {
      var (before, p) := (pairs[..|pairs| - 1], pairs[|pairs| - 1]);
      assert Lefts(pairs) == Lefts(before) + [p.x] && Rights(pairs) == Rights(before) + [p.y];
      PairSums(before);
      DotOneMore(Lefts(before), Rights(before), p.x, p.y);
      DotOneMore(Lefts(before), Lefts(before), p.x, p.x);
      DotOneMore(Rights(before), Rights(before), p.y, p.y);
    }
  }

  /** The sums of a pairing, as far as both vectors go. */
  lemma ZipSums(left: seq<real>, right: seq<real>, n: nat)
    requires n == Shorter(left, right)
    ensures Products(Zip(left, right)) == Dot(left, right)
    ensures LeftSquares(Zip(left, right)) == Dot(left[..n], left[..n])
    ensures RightSquares(Zip(left, right)) == Dot(right[..n], right[..n])
  {
    var pairs := Zip(left, right);
    PairSums(pairs);
    assert Lefts(pairs) == left[..n] && Rights(pairs) == right[..n];
    DotOfPrefix(left, right, n);
  }

  lemma {:induction false} DotOneMore(a: seq<real>, b: seq<real>, x: real, y: real)
    requires |a| == |b|
    ensures Dot(a + [x], b + [y]) == Dot(a, b) + x * y
  {
    if |a| == 0 {
      assert (a + [x])[1..] == [] && (b + [y])[1..] == [];
    } else {
      assert (a + [x])[1..] == a[1..] + [x] && (b + [y])[1..] == b[1..] + [y];
      DotOneMore(a[1..], b[1..], x, y);
    }
  }

  lemma {:induction false} DotOfPrefix(left: seq<real>, right: seq<real>, n: nat)
    requires n == Shorter(left, right)
    ensures Dot(left, right) == Dot(left[..n], right[..n])
  {
    if n > 0 {
      assert left[..n][1..] == left[1..][..n - 1] && right[..n][1..] == right[1..][..n - 1];
      DotOfPrefix(left[1..], right[1..], n - 1);
    }
  }

  /**
   The similarity is the dot product over both lengths, as far as both vectors go, and none where one of them is
   nothing.
   */
  lemma CosineIsTheTextbooks(left: seq<real>, right: seq<real>, sqrt: Root)
    requires IsRoot(sqrt)
    ensures var n := Shorter(left, right);
            var (a, b) := (Dot(left[..n], left[..n]), Dot(right[..n], right[..n]));
            if a == 0.0 || b == 0.0 then Cosine(left, right, sqrt) == 0.0
            else Quotient(Cosine(left, right, sqrt), Dot(left, right), a, b)
  {
    var pairs := Zip(left, right);
    ZipSums(left, right, Shorter(left, right));
    SquaresArePositive(pairs);
    OverRootsIsQuotient(Products(pairs), LeftSquares(pairs), RightSquares(pairs), sqrt);
  }
}
