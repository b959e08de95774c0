/**
  What the rank statistic of scripts/perf-diff.py is compared with: the variance it computes from the sizes and the
  tie term is the sampling variance of the midranks, and the tail is taken at half the difference of the two
  statistics.
 */
module RankVariance {
  import opened RankSum

  function Square(n: int): int {
    n * n
  }

  /** How far the doubled rank of a value is from the mean of all doubled ranks, squared. */
  function RankSquare(all: seq<real>): real -> int {
    v => Square(DoubledRank(v, all) - (|all| + 1))
  }

  function CopiesSquare(all: seq<real>): real -> int {
    v => Square(Copies(v, all))
  }

  function Cube(n: int): int {
    n * n * n
  }

  lemma CubeDifference(m: int, d: int)
    ensures 2 * (3 * (d * Square(m)) + d * Square(d)) == Cube(m + d) - Cube(m - d)
  {
    assert Cube(m + d) == m * m * m + 3 * (m * m * d) + 3 * (m * d * d) + d * d * d;
    assert Cube(m - d) == m * m * m - 3 * (m * m * d) + 3 * (m * d * d) - d * d * d;
  }

  lemma NextBlock(s: seq<Sample>, i: nat) returns (j: nat)
    requires Ascending(s) && i < |s| && (0 < i ==> s[i - 1].value < s[i].value)
    ensures Block(s, i, j) && (j < |s| ==> s[j - 1].value < s[j].value)
  {
    j := i + 1;
    while j < |s| && s[j].value == s[i].value
      invariant i < j <= |s| && forall k | i <= k < j :: s[k].value == s[i].value
    {
      j := j + 1;
    }
    RunIsBlock(s, i, j);
  }

  /** The squares of the samples up to `i`, three times those of the ranks and once those of the multiplicities. */
  function SquaresTo(s: seq<Sample>, i: nat): int
    requires i <= |s|
  {
    3 * Total(OnValue(RankSquare(Values(s))), s[..i]) + Total(OnValue(CopiesSquare(Values(s))), s[..i])
  }

  /** What one block adds. */
  lemma BlockSquares(s: seq<Sample>, i: nat, j: nat)
    requires Block(s, i, j)
    ensures 2 * SquaresTo(s, j) == 2 * SquaresTo(s, i) + Cube(2 * j - |s|) - Cube(2 * i - |s|)
  {
    var all, block := Values(s), s[i..j];
    var f, g := OnValue(RankSquare(all)), OnValue(CopiesSquare(all));
    var m, d := i + j - |all|, j - i;
    assert s[..j] == s[..i] + block;
    BlockRank(s, i, j);
    TotalConcat(f, s[..i], block);
    TotalConcat(g, s[..i], block);
    TotalConstant(f, block, Square(m));
    TotalConstant(g, block, Square(d));
    CubeDifference(m, d);
    assert m + d == 2 * j - |s| && m - d == 2 * i - |s|;
  }

  /** In a sorted pool the blocks telescope. */
  lemma {:induction false} SquaresFrom(s: seq<Sample>, i: nat)
    requires Ascending(s) && i <= |s| && (0 < i < |s| ==> s[i - 1].value < s[i].value)
    ensures 2 * SquaresTo(s, |s|) == 2 * SquaresTo(s, i) + Cube(|s|) - Cube(2 * i - |s|)
    decreases |s| - i
  {
    if i < |s| {
      var j := NextBlock(s, i);
      BlockSquares(s, i, j);
      SquaresFrom(s, j);
    }
  }

  lemma CubeOfNegative(n: int)
    ensures Cube(-n) == -Cube(n)
  {
  }

  lemma SortedSquares(s: seq<Sample>)
    requires Ascending(s)
    ensures SquaresTo(s, |s|) == Cube(|s|)
  {
    SquaresFrom(s, 0);
    assert SquaresTo(s, 0) == 0;
    CubeOfNegative(|s|);
  }

  /** For every pool: three times the squared rank deviations and the squared multiplicities make up its size cubed. */
  lemma PoolSquares(all: seq<real>)
    ensures 3 * Total(RankSquare(all), all) + Total(CopiesSquare(all), all) == Cube(|all|)
  {
    var pool := Tagged(all, 0);
    var s := Sort(pool);
    assert Values(pool) == all && s[..|s|] == s;
    SortedSquares(s);
    SameOnSorted(pool);
    TotalMap(OnValue(RankSquare(Values(s))), RankSquare(all), s, Values(s));
    TotalMap(OnValue(CopiesSquare(Values(s))), CopiesSquare(all), s, Values(s));
    SortedTotal(RankSquare(all), pool);
    SortedTotal(CopiesSquare(all), pool);
  }

  lemma SameOnSorted(pool: seq<Sample>)
    ensures forall v: real :: RankSquare(Values(Sort(pool)))(v) == RankSquare(Values(pool))(v)
    ensures forall v: real :: CopiesSquare(Values(Sort(pool)))(v) == CopiesSquare(Values(pool))(v)
  {
    forall v: real ensures DoubledRank(v, Values(Sort(pool))) == DoubledRank(v, Values(pool)) {
      SortedTotal(Against(v), pool);
    }
    forall v: real ensures Copies(v, Values(Sort(pool))) == Copies(v, Values(pool)) {
      SortedTotal(SameAs(v), pool);
    }
  }

  /** So the tie term is what the squared rank deviations lack to those of an untied pool. */
  lemma TiesAndSquares(all: seq<real>)
    ensures 3 * Total(RankSquare(all), all) == |all| * (|all| * |all| - 1) - TieTerm(all)
  {
    var one := (v: real) => 1;
    PoolSquares(all);
    TotalSum(Excess(all), one, CopiesSquare(all), all);
    TotalConstant(one, all, 1);
    CubeLess(|all|);
  }

  /**
    The variance is the sampling variance of the rank sum: `n1 * n2 / (N * (N - 1))` of the squared deviations of
    the ranks from their mean.
   */
  lemma VarianceIsOfRanks(n1: nat, n2: nat, all: seq<real>, v: real)
    requires |all| == n1 + n2 >= 2 && v == Variance(n1, n2, TieTerm(all))
    ensures Proportional(|all|, v, n1, n2, Total(RankSquare(all), all))
  {
    var ties, squares := TieTerm(all), Total(RankSquare(all), all);
    TiesFactored(all, |all|, ties, squares);
    VarianceTimes(n1, n2, |all|, ties, squares);
  }

  /** `4 N (N - 1)` times the variance is `n1 n2` times the squares. */
  predicate Proportional(n: nat, v: real, n1: nat, n2: nat, squares: int) {
    4.0 * (n * (n - 1)) as real * v == (n1 * n2) as real * squares as real
  }

  lemma TiesFactored(all: seq<real>, n: nat, ties: int, squares: int)
    requires n == |all| && ties == TieTerm(all) && squares == Total(RankSquare(all), all)
    ensures 3 * squares == n * (n - 1) * (n + 1) - ties
  {
    TiesAndSquares(all);
    Factors(n);
  }

  lemma VarianceTimes(n1: nat, n2: nat, n: nat, ties: int, squares: int)
    requires n == n1 + n2 >= 2 && 3 * squares == n * (n - 1) * (n + 1) - ties
    ensures Proportional(n, Variance(n1, n2, ties), n1, n2, squares)
  {
    var pairs, d, spread := n1 * n2, n * (n - 1), Spread(n, ties);
    SpreadTimes(n, d, ties, squares, spread);
    VarianceUnfolds(n1, n2, pairs, n, ties, spread);
    ScaledProduct(pairs as real, d as real, spread, squares as real);
    InProportion(n, pairs as real * spread / 12.0, n1, n2, squares, pairs, d);
  }

  lemma VarianceUnfolds(n1: nat, n2: nat, pairs: int, n: nat, ties: int, spread: real)
    requires n == n1 + n2 >= 2 && pairs == n1 * n2 && spread == Spread(n, ties)
    ensures Variance(n1, n2, ties) == pairs as real * spread / 12.0
  {
  }

  lemma InProportion(n: nat, v: real, n1: nat, n2: nat, squares: int, pairs: int, d: int)
    requires pairs == n1 * n2 && d == n * (n - 1)
    requires 4.0 * d as real * v == pairs as real * squares as real
    ensures Proportional(n, v, n1, n2, squares)
  {
  }

  lemma SpreadTimes(n: nat, d: int, ties: int, squares: int, spread: real)
    requires n >= 2 && d == n * (n - 1) && 3 * squares == d * (n + 1) - ties && spread == Spread(n, ties)
    ensures d as real * spread == 3.0 * squares as real
  {
    assert d > 0;
    DividedOut(d as real, (n + 1) as real, ties as real, spread);
    assert d as real * (n + 1) as real == (d * (n + 1)) as real;
  }

  lemma DividedOut(d: real, m: real, ties: real, spread: real)
    requires d > 0.0 && spread == m - ties / d
    ensures d * spread == d * m - ties
  {
    assert d * (ties / d) == ties;
  }

  lemma ScaledProduct(a: real, d: real, spread: real, squares: real)
    requires d * spread == 3.0 * squares
    ensures 4.0 * d * (a * spread / 12.0) == a * squares
  {
    assert 4.0 * d * (a * spread / 12.0) == a * (d * spread) / 3.0;
  }

  function Abs(n: int): int {
    if n < 0 then -n else n
  }

  /** The lesser of two numbers is half their difference below their mean. */
  lemma LesserDeviates(a: int, b: int, mean: int)
    requires a + b == 2 * mean
    ensures 2 * (Min(a, b) - mean) == -Abs(a - b)
  {
  }

  /** The p-value of two samples. */
  function Significance(base: seq<real>, current: seq<real>): PValue {
    PValueOf(|base|, |current|, PairScore(base, current), TieTerm(base + current))
  }

  /** One exactly where nothing is to be compared, and otherwise a two-sided tail. */
  lemma PValueShape(base: seq<real>, current: seq<real>)
    ensures var p := Significance(base, current);
            && (p.One? <==> base == [] || current == [] || AllEqual(base + current))
            && (!p.One? ==> p.TwoSided? && p.variance > 0.0)
  {
    PairScoresAddUp(base, current);
    ZeroIsUnreachable(base, current);
    if |base| + |current| >= 2 {
      VarianceSign(base, current);
      if AllEqual(base + current) { ConstantScore(base, current); }
    }
  }

  /**
    Where there is a tail: its deviation is half the difference of the two pairwise statistics, downwards, and its
    variance the sampling variance of the midranks of the pool.
   */
  lemma TailMeans(base: seq<real>, current: seq<real>)
    requires Significance(base, current).TwoSided?
    ensures var p, pool := Significance(base, current), base + current;
            && 2 * p.deviation == -Abs(PairScore(base, current) - PairScore(current, base))
            && Proportional(|pool|, p.variance, |base|, |current|, Total(RankSquare(pool), pool))
  {
    TailFields(|base|, |current|, PairScore(base, current), TieTerm(base + current));
    TailFrom(base, current, Significance(base, current));
  }

  lemma TailFrom(base: seq<real>, current: seq<real>, p: PValue)
    requires p.TwoSided? && |base| + |current| >= 2
    requires p.deviation == Min(PairScore(base, current), 2 * (|base| * |current|) - PairScore(base, current)) - |base| * |current|
    requires p.variance == Variance(|base|, |current|, TieTerm(base + current))
    ensures 2 * p.deviation == -Abs(PairScore(base, current) - PairScore(current, base))
    ensures var pool := base + current;
            Proportional(|pool|, p.variance, |base|, |current|, Total(RankSquare(pool), pool))
  {
    TailDeviation(base, current);
    VarianceIsOfRanks(|base|, |current|, base + current, p.variance);
  }

  lemma TailFields(n1: nat, n2: nat, score: int, ties: int)
    requires PValueOf(n1, n2, score, ties).TwoSided?
    ensures n1 + n2 >= 2
    ensures PValueOf(n1, n2, score, ties).deviation == Min(score, 2 * (n1 * n2) - score) - n1 * n2
    ensures PValueOf(n1, n2, score, ties).variance == Variance(n1, n2, ties)
  {
  }

  lemma TailDeviation(base: seq<real>, current: seq<real>)
    ensures var a, b, mean := PairScore(base, current), PairScore(current, base), |base| * |current|;
            2 * (Min(a, 2 * mean - a) - mean) == -Abs(a - b)
  {
    PairScoresAddUp(base, current);
    LesserDeviates(PairScore(base, current), PairScore(current, base), |base| * |current|);
  }
}
