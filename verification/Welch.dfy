/**
  Welch's t statistic of scripts/perf-diff.py over exact reals.  The square root in the
  statistic's denominator is kept as the squared denominator, which vanishes with it.
 */
module Welch {
  import opened Wrappers

  function Sum(xs: seq<real>): real {
    if xs == [] then 0.0 else xs[0] + Sum(xs[1..])
  }

  function Mean(xs: seq<real>): real
    requires xs != []
  {
    Sum(xs) / |xs| as real
  }

  // Products behind a name: the sign of a product is then a fact about one term.
  function Times(x: real, y: real): real {
    x * y
  }

  lemma TimesSign(x: real, y: real)
    requires 0.0 <= x && 0.0 <= y
    ensures 0.0 < x && 0.0 < y ==> 0.0 < Times(x, y)
    ensures x == 0.0 || y == 0.0 ==> Times(x, y) == 0.0
  {
  }

  function Abs(x: real): real {
    if x < 0.0 then -x else x
  }

  function Square(x: real): real {
    Times(Abs(x), Abs(x))
  }

  lemma SquareSign(x: real)
    ensures 0.0 <= Square(x)
    ensures x == 0.0 ==> Square(x) == 0.0
    ensures x != 0.0 ==> 0.0 < Square(x)
  {
    TimesSign(Abs(x), Abs(x));
  }

  lemma SquareIsProduct(x: real)
    ensures Square(x) == x * x
  {
  }

  function SquaredDeviations(xs: seq<real>, m: real): real {
    if xs == [] then 0.0 else Square(xs[0] - m) + SquaredDeviations(xs[1..], m)
  }

  function SampleVariance(xs: seq<real>): real
    requires |xs| >= 2
  {
    SquaredDeviations(xs, Mean(xs)) / (|xs| - 1) as real
  }

  /** The variance of the sample's mean. */
  function Scaled(xs: seq<real>): real
    requires |xs| >= 2
  {
    SampleVariance(xs) / |xs| as real
  }

  ghost predicate Constant(xs: seq<real>) {
    forall i, j | 0 <= i < |xs| && 0 <= j < |xs| :: xs[i] == xs[j]
  }

  datatype Statistic =
    | Identical
    | Separated
    | Shift(meanShift: real, squaredDenominator: real, df: Option<real>)

  datatype Error = TooFewValues

  // ---------------------------------------------------------------------------------
  // When the spread vanishes
  // ---------------------------------------------------------------------------------

  lemma {:induction false} DeviationsVanish(xs: seq<real>, m: real)
    ensures 0.0 <= SquaredDeviations(xs, m)
    ensures SquaredDeviations(xs, m) == 0.0 <==> forall i | 0 <= i < |xs| :: xs[i] == m
  {
    if xs != [] {
      DeviationsVanish(xs[1..], m);
      SquareSign(xs[0] - m);
      assert forall i | 0 < i < |xs| :: xs[i] == xs[1..][i - 1];
      if xs[0] != m {
        assert SquaredDeviations(xs, m) > 0.0;
      } else {
        assert SquaredDeviations(xs, m) == SquaredDeviations(xs[1..], m);
        if exists i | 0 <= i < |xs[1..]| :: xs[1..][i] != m {
          var i :| 0 <= i < |xs[1..]| && xs[1..][i] != m;
          assert xs[i + 1] != m;
        }
      }
    }
  }

  lemma {:induction false} SumOfConstant(xs: seq<real>, c: real)
    requires forall i | 0 <= i < |xs| :: xs[i] == c
    ensures Sum(xs) == |xs| as real * c
  {
    if xs != [] {
      SumOfConstant(xs[1..], c);
      assert |xs| as real * c == |xs[1..]| as real * c + c;
    }
  }

  lemma MeanOfConstant(xs: seq<real>)
    requires xs != [] && Constant(xs)
    ensures Mean(xs) == xs[0]
  {
    SumOfConstant(xs, xs[0]);
    DivideBack(|xs| as real, xs[0]);
  }

  lemma DivideBack(n: real, c: real)
    requires n > 0.0
    ensures n * c / n == c
  {
  }

  lemma QuotientSign(x: real, d: real)
    requires 0.0 <= x && 0.0 < d
    ensures x == 0.0 ==> x / d == 0.0
    ensures x > 0.0 ==> x / d > 0.0
  {
    assert x / d * d == x;
  }

  /** The scaled variance is never negative and vanishes exactly on a constant sample. */
  lemma ScaledSign(xs: seq<real>)
    requires |xs| >= 2
    ensures 0.0 <= Scaled(xs)
    ensures Scaled(xs) == 0.0 <==> Constant(xs)
  {
    var m := Mean(xs);
    DeviationsVanish(xs, m);
    QuotientSign(SquaredDeviations(xs, m), (|xs| - 1) as real);
    QuotientSign(SampleVariance(xs), |xs| as real);
    if Constant(xs) { MeanOfConstant(xs); }
  }

  // ---------------------------------------------------------------------------------
  // What mean and variance are
  // ---------------------------------------------------------------------------------

  function Deviations(xs: seq<real>, m: real): seq<real> {
    seq(|xs|, i requires 0 <= i < |xs| => xs[i] - m)
  }

  lemma {:induction false} SumOfDeviations(xs: seq<real>, m: real)
    ensures Sum(Deviations(xs, m)) == Sum(xs) - |xs| as real * m
  {
    if xs != [] {
      SumOfDeviations(xs[1..], m);
      assert Deviations(xs, m)[1..] == Deviations(xs[1..], m);
      assert |xs| as real * m == |xs[1..]| as real * m + m;
    }
  }

  /** The mean is where the deviations cancel out. */
  lemma MeanBalances(xs: seq<real>)
    requires xs != []
    ensures Sum(Deviations(xs, Mean(xs))) == 0.0
  {
    SumOfDeviations(xs, Mean(xs));
    assert |xs| as real * (Sum(xs) / |xs| as real) == Sum(xs);
  }

  /** The squared differences of all pairs, one from each sequence. */
  function PairSquares(xs: seq<real>, ys: seq<real>): real {
    if xs == [] then 0.0 else SquaredDeviations(ys, xs[0]) + PairSquares(xs[1..], ys)
  }

  /** The sum of `n` copies of a number. */
  function Copies(n: nat, v: real): real {
    if n == 0 then 0.0 else v + Copies(n - 1, v)
  }

  lemma {:induction false} CopiesIsProduct(n: nat, v: real)
    ensures Copies(n, v) == n as real * v
  {
    if n > 0 {
      CopiesIsProduct(n - 1, v);
      assert n as real * v == (n - 1) as real * v + v;
    }
  }

  lemma {:induction false} CopiesAdd(n: nat, v: real, w: real)
    ensures Copies(n, v + w) == Copies(n, v) + Copies(n, w)
  {
    if n > 0 { CopiesAdd(n - 1, v, w); }
  }

  lemma OneShifted(y: real, x: real, m: real)
    ensures Square(y - x) == Square(y - m) + Times(2.0 * (m - x), y - m) + Square(x - m)
  {
    SquareIsProduct(y - x);
    SquareIsProduct(y - m);
    SquareIsProduct(x - m);
    assert (y - x) * (y - x) == (y - m) * (y - m) + 2.0 * (m - x) * (y - m) + (x - m) * (x - m);
  }

  lemma TimesAdd(k: real, x: real, y: real)
    ensures Times(k, x + y) == Times(k, x) + Times(k, y)
  {
  }

  /** Deviations from another point than `m`. */
  lemma {:induction false} ShiftedDeviations(ys: seq<real>, x: real, m: real)
    ensures SquaredDeviations(ys, x) ==
            SquaredDeviations(ys, m) + Times(2.0 * (m - x), Sum(Deviations(ys, m))) + Copies(|ys|, Square(x - m))
  {
    if ys == [] {
      TimesAdd(2.0 * (m - x), 0.0, 0.0);
    } else {
      ShiftedDeviations(ys[1..], x, m);
      OneShifted(ys[0], x, m);
      DeviationsCons(ys, m);
      TimesAdd(2.0 * (m - x), ys[0] - m, Sum(Deviations(ys[1..], m)));
    }
  }

  lemma DeviationsCons(xs: seq<real>, m: real)
    requires xs != []
    ensures Sum(Deviations(xs, m)) == xs[0] - m + Sum(Deviations(xs[1..], m))
  {
    assert Deviations(xs, m)[1..] == Deviations(xs[1..], m);
  }

  lemma {:induction false} PairSquaresAbout(xs: seq<real>, ys: seq<real>, m: real)
    requires Sum(Deviations(ys, m)) == 0.0
    ensures PairSquares(xs, ys) == Copies(|xs|, SquaredDeviations(ys, m)) + Copies(|ys|, SquaredDeviations(xs, m))
  {
    if xs == [] {
      CopiesIsProduct(|ys|, 0.0);
    } else {
      PairSquaresAbout(xs[1..], ys, m);
      ShiftedDeviations(ys, xs[0], m);
      TimesAdd(2.0 * (m - xs[0]), 0.0, 0.0);
      CopiesAdd(|ys|, Square(xs[0] - m), SquaredDeviations(xs[1..], m));
    }
  }

  /** The scaled variance is the mean squared difference of two of the values, without naming a mean. */
  lemma ScaledIsOfPairs(xs: seq<real>)
    requires |xs| >= 2
    ensures 2.0 * (|xs| as real * |xs| as real * (|xs| - 1) as real) * Scaled(xs) == PairSquares(xs, xs)
  {
    var n, d := |xs|, SquaredDeviations(xs, Mean(xs));
    assert PairSquares(xs, xs) == n as real * d + n as real * d by {
      MeanBalances(xs);
      PairSquaresAbout(xs, xs, Mean(xs));
      CopiesIsProduct(n, d);
    }
    ScaledTimes(n as real, (n - 1) as real, d, Scaled(xs));
  }

  lemma ScaledTimes(n: real, k: real, d: real, scaled: real)
    requires n > 0.0 && k > 0.0 && scaled == d / k / n
    ensures 2.0 * (n * n * k) * scaled == n * d + n * d
  {
    assert n * scaled == d / k && k * (d / k) == d;
    assert n * n * k * scaled == n * (k * (n * scaled)) == n * d;
    assert 2.0 * (n * n * k) * scaled == 2.0 * (n * n * k * scaled);
  }

  // ---------------------------------------------------------------------------------
  // Degrees of freedom
  // ---------------------------------------------------------------------------------

  /** The Welch-Satterthwaite quotient for scaled variances `s1`, `s2` and weights `a`, `b`. */
  function DfDenominator(s1: real, a: real, s2: real, b: real): real
    requires a != 0.0 && b != 0.0
  {
    Square(s1) / a + Square(s2) / b
  }

  lemma Polynomial(a: real, b: real, p: real, q: real)
    ensures (a + b) * (a * p * p + b * q * q) - (a * p + b * q) * (a * p + b * q) == a * b * ((p - q) * (p - q))
  {
    var aa, ab, bb := a * p * (a * p), a * b, b * q * (b * q);
    assert (a + b) * (a * p * p + b * q * q) == aa + ab * (q * q) + ab * (p * p) + bb;
    assert (a * p + b * q) * (a * p + b * q) == aa + 2.0 * (ab * (p * q)) + bb;
    assert ab * ((p - q) * (p - q)) == ab * (p * p) - 2.0 * (ab * (p * q)) + ab * (q * q);
  }

  lemma SquareOver(s: real, a: real)
    requires a > 0.0
    ensures Square(s) / a == a * (s / a) * (s / a)
    ensures s == a * (s / a)
  {
    var p := s / a;
    SquareIsProduct(s);
    assert s == a * p;
    assert s * s == a * (a * p * p);
    DivideBack(a, a * p * p);
  }

  lemma DfGap(s1: real, a: real, p: real, s2: real, b: real, q: real, d: real)
    requires 0.0 < a && 0.0 < b && p == s1 / a && q == s2 / b && d == DfDenominator(s1, a, s2, b)
    ensures (a + b) * d == Square(s1 + s2) + Times(a * b, Square(p - q))
  {
    var x, y := Square(s1) / a, Square(s2) / b;
    assert s1 == a * p && x == a * p * p by { SquareOver(s1, a); }
    assert s2 == b * q && y == b * q * q by { SquareOver(s2, b); }
    GapAt(s1, a, p, s2, b, q, d);
  }

  lemma GapAt(s1: real, a: real, p: real, s2: real, b: real, q: real, d: real)
    requires s1 == a * p && s2 == b * q && d == a * p * p + b * q * q
    ensures (a + b) * d == Square(s1 + s2) + Times(a * b, Square(p - q))
  {
    Polynomial(a, b, p, q);
    SquareIsProduct(s1 + s2);
    SquareIsProduct(p - q);
    assert (s1 + s2) * (s1 + s2) == (a * p + b * q) * (a * p + b * q);
  }

  /** The upper bound is Cauchy-Schwarz: reached exactly when both ratios agree. */
  lemma DfUpper(s1: real, a: real, s2: real, b: real)
    requires 0.0 < a && 0.0 < b
    ensures Square(s1 + s2) <= (a + b) * DfDenominator(s1, a, s2, b)
    ensures Square(s1 + s2) == (a + b) * DfDenominator(s1, a, s2, b) <==> s1 / a == s2 / b
  {
    var p, q, d := s1 / a, s2 / b, DfDenominator(s1, a, s2, b);
    DfGap(s1, a, p, s2, b, q, d);
    SquareSign(p - q);
    TimesSign(a, b);
    TimesSign(Times(a, b), Square(p - q));
  }

  lemma PartBound(x: real, a: real, m: real)
    requires 0.0 <= x && 0.0 < m <= a
    ensures m * (x / a) <= x
    ensures 0.0 <= x / a
  {
    QuotientSign(x, a);
    assert x / a * a == x;
    assert m * (x / a) <= a * (x / a);
  }

  lemma DfLower(s1: real, a: real, s2: real, b: real, m: real)
    requires 0.0 <= s1 && 0.0 <= s2 && 0.0 < m <= a && m <= b
    ensures m * DfDenominator(s1, a, s2, b) <= Square(s1 + s2)
  {
    var x, y := Square(s1), Square(s2);
    SquareSign(s1);
    SquareSign(s2);
    SquareIsProduct(s1);
    SquareIsProduct(s2);
    SquareIsProduct(s1 + s2);
    PartBound(x, a, m);
    PartBound(y, b, m);
    assert m * (x / a + y / b) == m * (x / a) + m * (y / b);
    assert Square(s1 + s2) == x + 2.0 * (s1 * s2) + y;
    assert 0.0 <= s1 * s2;
  }

  lemma DenominatorPositive(s1: real, a: real, s2: real, b: real)
    requires 0.0 <= s1 && 0.0 <= s2 && 0.0 < s1 + s2 && 0.0 < a && 0.0 < b
    ensures 0.0 < DfDenominator(s1, a, s2, b)
  {
    SquareSign(s1);
    SquareSign(s2);
    QuotientSign(Square(s1), a);
    QuotientSign(Square(s2), b);
  }

  lemma QuotientBetween(x: real, d: real, low: real, high: real)
    requires 0.0 < d && low * d <= x <= high * d
    ensures low <= x / d <= high
    ensures x / d == high <==> x == high * d
  {
    var q := x / d;
    assert q * d == x;
    assert q < low ==> q * d < low * d;
    assert q > high ==> q * d > high * d;
  }

  function Quotient(s1: real, a: real, s2: real, b: real): real
    requires 0.0 <= s1 && 0.0 <= s2 && 0.0 < s1 + s2 && 0.0 < a && 0.0 < b
  {
    DenominatorPositive(s1, a, s2, b);
    Square(s1 + s2) / DfDenominator(s1, a, s2, b)
  }

  function Df(s1: real, n1: nat, s2: real, n2: nat): real
    requires n1 >= 2 && n2 >= 2 && 0.0 <= s1 && 0.0 <= s2 && 0.0 < s1 + s2
  {
    Quotient(s1, (n1 - 1) as real, s2, (n2 - 1) as real)
  }

  /** min(n1, n2) - 1 <= df <= n1 + n2 - 2, the upper end reached exactly at equal ratios. */
  lemma DfBounds(s1: real, n1: nat, s2: real, n2: nat)
    requires n1 >= 2 && n2 >= 2 && 0.0 <= s1 && 0.0 <= s2 && 0.0 < s1 + s2
    ensures ((if n1 <= n2 then n1 else n2) - 1) as real <= Df(s1, n1, s2, n2) <= (n1 + n2 - 2) as real
    ensures Df(s1, n1, s2, n2) == (n1 + n2 - 2) as real <==> s1 / (n1 - 1) as real == s2 / (n2 - 1) as real
  {
    var low := (if n1 <= n2 then n1 else n2) - 1;
    QuotientBounds(s1, (n1 - 1) as real, s2, (n2 - 1) as real, low as real);
    assert (n1 - 1) as real + (n2 - 1) as real == (n1 + n2 - 2) as real;
  }

  lemma QuotientBounds(s1: real, a: real, s2: real, b: real, m: real)
    requires 0.0 <= s1 && 0.0 <= s2 && 0.0 < s1 + s2 && 0.0 < m <= a && m <= b
    ensures m <= Quotient(s1, a, s2, b) <= a + b
    ensures Quotient(s1, a, s2, b) == a + b <==> s1 / a == s2 / b
  {
    DfLower(s1, a, s2, b, m);
    DfUpper(s1, a, s2, b);
    BoundQuotient(s1, a, s2, b, m, a + b);
  }

  lemma BoundQuotient(s1: real, a: real, s2: real, b: real, low: real, high: real)
    requires 0.0 <= s1 && 0.0 <= s2 && 0.0 < s1 + s2 && 0.0 < a && 0.0 < b
    requires low * DfDenominator(s1, a, s2, b) <= Square(s1 + s2) <= high * DfDenominator(s1, a, s2, b)
    ensures low <= Quotient(s1, a, s2, b) <= high
    ensures Quotient(s1, a, s2, b) == high <==> Square(s1 + s2) == high * DfDenominator(s1, a, s2, b)
  {
    DenominatorPositive(s1, a, s2, b);
    QuotientBetween(Square(s1 + s2), DfDenominator(s1, a, s2, b), low, high);
  }

  /** The degrees of freedom solve the Welch-Satterthwaite equation. */
  lemma DfSolves(s1: real, n1: nat, s2: real, n2: nat)
    requires n1 >= 2 && n2 >= 2 && 0.0 <= s1 && 0.0 <= s2 && 0.0 < s1 + s2
    ensures Df(s1, n1, s2, n2) * (s1 * s1 / (n1 - 1) as real + s2 * s2 / (n2 - 1) as real) == (s1 + s2) * (s1 + s2)
  {
    var a, b := (n1 - 1) as real, (n2 - 1) as real;
    DenominatorPositive(s1, a, s2, b);
    SquareIsProduct(s1);
    SquareIsProduct(s2);
    SquareIsProduct(s1 + s2);
    DivideTimes(Square(s1 + s2), DfDenominator(s1, a, s2, b));
  }

  lemma DivideTimes(x: real, d: real)
    requires d != 0.0
    ensures x / d * d == x
  {
  }

  lemma SameDf(s1: real, n1: nat, s2: real, n2: nat, d: real)
    requires n1 >= 2 && n2 >= 2 && 0.0 <= s1 && 0.0 <= s2 && 0.0 < s1 + s2
    requires 0.0 < d == DfDenominator(s1, (n1 - 1) as real, s2, (n2 - 1) as real)
    ensures Square(s1 + s2) / d == Df(s1, n1, s2, n2)
  {
  }

  // ---------------------------------------------------------------------------------
  // The statistic
  // ---------------------------------------------------------------------------------

  /**
    `welch_statistic`: refused below two values a side; without a denominator exactly when
    both samples are constant; and otherwise a finite number of degrees of freedom.
   */
  method WelchStatistic(base: seq<real>, current: seq<real>) returns (r: Result<Statistic, Error>)
    ensures r.Err? <==> |base| < 2 || |current| < 2
    ensures r == Ok(Identical) <==> |base| >= 2 && |current| >= 2 && Constant(base + current)
    ensures r == Ok(Separated) <==>
            |base| >= 2 && |current| >= 2 && Constant(base) && Constant(current) && !Constant(base + current)
    ensures r.Ok? && r.value.Shift? ==>
              && r.value.meanShift == Mean(current) - Mean(base)
              && r.value.squaredDenominator == Scaled(base) + Scaled(current) > 0.0
              && Scaled(base) >= 0.0 && Scaled(current) >= 0.0
              && r.value.df == Some(Df(Scaled(base), |base|, Scaled(current), |current|))
    ensures r.Ok? && r.value.Shift? ==>
              && (if |base| <= |current| then |base| else |current|) as real - 1.0 <= r.value.df.value
              && r.value.df.value <= (|base| + |current| - 2) as real
  {
    var n1, n2 := |base|, |current|;
    if n1 < 2 || n2 < 2 {
      return Err(TooFewValues);
    }
    var mean1, mean2 := Mean(base), Mean(current);
    var scaled1, scaled2 := Scaled(base), Scaled(current);
    ScaledSign(base);
    ScaledSign(current);
    BothConstant(base, current);
    var denominator := scaled1 + scaled2;
    if denominator == 0.0 {
      if mean1 == mean2 {
        return Ok(Identical);
      }
      return Ok(Separated);
    }
    var dfDenominator := 0.0;
    if n1 > 1 && scaled1 != 0.0 {
      dfDenominator := dfDenominator + Square(scaled1) / (n1 - 1) as real;
    }
    if n2 > 1 && scaled2 != 0.0 {
      dfDenominator := dfDenominator + Square(scaled2) / (n2 - 1) as real;
    }
    SkippedTerms(scaled1, (n1 - 1) as real, scaled2, (n2 - 1) as real, dfDenominator);
    SameDf(scaled1, n1, scaled2, n2, dfDenominator);
    DfBounds(scaled1, n1, scaled2, n2);
    var df := if dfDenominator != 0.0
              then Some(Square(scaled1 + scaled2) / dfDenominator) else None;
    return Ok(Shift(mean2 - mean1, denominator, df));
  }

  lemma SkippedTerms(s1: real, a: real, s2: real, b: real, d: real)
    requires 0.0 <= s1 && 0.0 <= s2 && 0.0 < s1 + s2 && 0.0 < a && 0.0 < b
    requires d == (if s1 != 0.0 then 0.0 + Square(s1) / a else 0.0) + (if s2 != 0.0 then Square(s2) / b else 0.0)
    ensures d == DfDenominator(s1, a, s2, b) > 0.0
  {
    DenominatorPositive(s1, a, s2, b);
    QuotientSign(0.0, a);
    QuotientSign(0.0, b);
  }

  lemma BothConstant(base: seq<real>, current: seq<real>)
    requires base != [] && current != []
    ensures Constant(base + current) <==> Constant(base) && Constant(current) && Mean(base) == Mean(current)
  {
    var all := base + current;
    if Constant(all) {
      assert forall i | 0 <= i < |base| :: base[i] == all[i];
      assert forall i | 0 <= i < |current| :: current[i] == all[|base| + i];
      MeanOfConstant(base);
      MeanOfConstant(current);
      assert base[0] == all[0] && current[0] == all[|base|];
    }
    if Constant(base) && Constant(current) && Mean(base) == Mean(current) {
      MeanOfConstant(base);
      MeanOfConstant(current);
      forall i | 0 <= i < |all| ensures all[i] == base[0] {}
    }
  }
}
