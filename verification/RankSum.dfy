/**
  The Mann-Whitney statistic of scripts/perf-diff.py over exact numbers.  Ranks are doubled,
  so that tie-averaged ranks are integers; the normal tail probability stays symbolic.
 */
module RankSum {

  /** A pooled measurement; group 0 is the baseline, group 1 the current run. */
  datatype Sample = Sample(value: real, group: int)

  function Total<T>(f: T -> int, s: seq<T>): int {
    if s == [] then 0 else f(s[0]) + Total(f, s[1..])
  }

  // ---------------------------------------------------------------------------------
  // The pairwise statistic, defined without ranks
  // ---------------------------------------------------------------------------------

  function Compare(a: real, b: real): int {
    if a > b then 2 else if a == b then 1 else 0
  }

  function Against(a: real): real -> int {
    b => Compare(a, b)
  }

  /** Twice the number of pairs won by `xs` over `ys`, a tie counting one half. */
  function PairScore(xs: seq<real>, ys: seq<real>): int {
    Total((x: real) => Total(Against(x), ys), xs)
  }

  function SameAs(a: real): real -> int {
    b => if a == b then 1 else 0
  }

  function Copies(a: real, all: seq<real>): int {
    Total(SameAs(a), all)
  }

  function Excess(all: seq<real>): real -> int {
    a => Copies(a, all) * Copies(a, all) - 1
  }

  /** The tie term: every value contributes the square of its multiplicity, less one. */
  function TieTerm(all: seq<real>): int {
    Total(Excess(all), all)
  }

  // ---------------------------------------------------------------------------------
  // Sums
  // ---------------------------------------------------------------------------------

  lemma {:induction false} TotalConcat<T>(f: T -> int, a: seq<T>, b: seq<T>)
    ensures Total(f, a + b) == Total(f, a) + Total(f, b)
  {
    if a == [] {
      assert a + b == b;
    } else {
      TotalConcat(f, a[1..], b);
      assert (a + b)[1..] == a[1..] + b;
    }
  }

  lemma {:induction false} TotalConstant<T>(f: T -> int, s: seq<T>, k: int)
    requires forall i | 0 <= i < |s| :: f(s[i]) == k
    ensures Total(f, s) == |s| * k
  {
    if s != [] { TotalConstant(f, s[1..], k); }
  }

  lemma {:induction false} TotalSum<T>(f: T -> int, g: T -> int, h: T -> int, s: seq<T>)
    requires forall i | 0 <= i < |s| :: h(s[i]) == f(s[i]) + g(s[i])
    ensures Total(h, s) == Total(f, s) + Total(g, s)
  {
    if s != [] { TotalSum(f, g, h, s[1..]); }
  }

  lemma {:induction false} TotalAtMost<T>(f: T -> int, s: seq<T>, k: int)
    requires forall i | 0 <= i < |s| :: f(s[i]) <= k
    ensures Total(f, s) <= |s| * k
    ensures Total(f, s) == |s| * k <==> forall i | 0 <= i < |s| :: f(s[i]) == k
  {
    if s != [] {
      var rest := s[1..];
      TotalAtMost(f, rest, k);
      assert |s| * k == |rest| * k + k;
      assert forall i | 0 < i < |s| :: s[i] == rest[i - 1];
      if f(s[0]) == k && forall i | 0 <= i < |rest| :: f(rest[i]) == k {
        assert forall i | 0 <= i < |s| :: f(s[i]) == k;
      } else if f(s[0]) == k {
        var i :| 0 <= i < |rest| && f(rest[i]) != k;
        assert f(s[i + 1]) != k;
      }
    }
  }

  lemma {:induction false} TotalMap<T, U>(f: T -> int, g: U -> int, s: seq<T>, t: seq<U>)
    requires |s| == |t| && forall i | 0 <= i < |s| :: f(s[i]) == g(t[i])
    ensures Total(f, s) == Total(g, t)
  {
    if s != [] { TotalMap(f, g, s[1..], t[1..]); }
  }

  // ---------------------------------------------------------------------------------
  // Pairs: who wins against whom
  // ---------------------------------------------------------------------------------

  lemma PairScoreCons(xs: seq<real>, ys: seq<real>)
    requires xs != []
    ensures PairScore(xs, ys) == Total(Against(xs[0]), ys) + PairScore(xs[1..], ys)
  {
  }

  lemma {:induction false} PairScoreSplit(xs: seq<real>, y: real, ys: seq<real>)
    ensures PairScore(xs, [y] + ys) == PairScore(xs, [y]) + PairScore(xs, ys)
  {
    if xs != [] {
      PairScoreSplit(xs[1..], y, ys);
      PairScoreCons(xs, [y] + ys);
      PairScoreCons(xs, [y]);
      PairScoreCons(xs, ys);
      TotalConcat(Against(xs[0]), [y], ys);
    }
  }

  lemma {:induction false} OneAgainstAll(x: real, ys: seq<real>)
    ensures Total(Against(x), ys) + PairScore(ys, [x]) == 2 * |ys|
  {
    if ys != [] {
      OneAgainstAll(x, ys[1..]);
      PairScoreCons(ys, [x]);
      assert Total(Against(ys[0]), [x]) == Compare(ys[0], x);
    }
  }

  /** Every pair hands out exactly two half points. */
  lemma {:induction false} PairScoresAddUp(xs: seq<real>, ys: seq<real>)
    ensures PairScore(xs, ys) + PairScore(ys, xs) == 2 * (|xs| * |ys|)
    ensures 0 <= PairScore(xs, ys) <= 2 * (|xs| * |ys|)
  {
    if xs == [] {
      TotalConstant((y: real) => Total(Against(y), []), ys, 0);
    } else {
      PairScoresAddUp(xs[1..], ys);
      PairScoreCons(xs, ys);
      assert xs == [xs[0]] + xs[1..];
      PairScoreSplit(ys, xs[0], xs[1..]);
      OneAgainstAll(xs[0], ys);
      NonNegative(xs[0], ys);
      NonNegativeAll(ys, [xs[0]]);
      assert |xs| * |ys| == |xs[1..]| * |ys| + |ys|;
    }
  }

  lemma {:induction false} NonNegative(x: real, ys: seq<real>)
    ensures 0 <= Total(Against(x), ys)
  {
    if ys != [] { NonNegative(x, ys[1..]); }
  }

  lemma {:induction false} NonNegativeAll(xs: seq<real>, ys: seq<real>)
    ensures 0 <= PairScore(xs, ys)
  {
    if xs != [] {
      NonNegativeAll(xs[1..], ys);
      PairScoreCons(xs, ys);
      NonNegative(xs[0], ys);
    }
  }

  // ---------------------------------------------------------------------------------
  // Pooling and sorting
  // ---------------------------------------------------------------------------------

  function Tagged(xs: seq<real>, group: int): (s: seq<Sample>)
    ensures |s| == |xs| && forall i | 0 <= i < |xs| :: s[i] == Sample(xs[i], group)
  {
    seq(|xs|, i requires 0 <= i < |xs| => Sample(xs[i], group))
  }

  function Values(s: seq<Sample>): (xs: seq<real>)
    ensures |xs| == |s| && forall i | 0 <= i < |s| :: xs[i] == s[i].value
  {
    seq(|s|, i requires 0 <= i < |s| => s[i].value)
  }

  predicate Ascending(s: seq<Sample>) {
    forall i, j | 0 <= i < j < |s| :: s[i].value <= s[j].value
  }

  function Insert(x: Sample, s: seq<Sample>): (r: seq<Sample>)
    requires Ascending(s)
    ensures |r| == |s| + 1 && Ascending(r)
    ensures forall y | y in r :: y == x || y in s
  {
    if s == [] || x.value <= s[0].value then [x] + s
    else
      var tail := Insert(x, s[1..]);
      assert forall y | y in tail :: s[0].value <= y.value;
      [s[0]] + tail
  }

  /** The stable sort by value. */
  function Sort(s: seq<Sample>): (r: seq<Sample>)
    ensures |r| == |s| && Ascending(r)
  {
    if s == [] then [] else Insert(s[0], Sort(s[1..]))
  }

  lemma {:induction false} TotalInsert(f: Sample -> int, x: Sample, s: seq<Sample>)
    requires Ascending(s)
    ensures Total(f, Insert(x, s)) == f(x) + Total(f, s)
  {
    if s == [] || x.value <= s[0].value {
      assert ([x] + s)[1..] == s;
    } else {
      TotalInsert(f, x, s[1..]);
      assert ([s[0]] + Insert(x, s[1..]))[1..] == Insert(x, s[1..]);
    }
  }

  /** Sorting changes no sum over the samples. */
  lemma {:induction false} TotalSort(f: Sample -> int, s: seq<Sample>)
    ensures Total(f, Sort(s)) == Total(f, s)
  {
    if s != [] {
      TotalSort(f, s[1..]);
      TotalInsert(f, s[0], Sort(s[1..]));
    }
  }

  /** A sum over values, as a sum over samples. */
  function OnValue(f: real -> int): Sample -> int {
    (x: Sample) => f(x.value)
  }

  lemma SortedTotal(f: real -> int, s: seq<Sample>)
    ensures Total(f, Values(Sort(s))) == Total(f, Values(s))
  {
    TotalMap(f, OnValue(f), Values(Sort(s)), Sort(s));
    TotalMap(f, OnValue(f), Values(s), s);
    TotalSort(OnValue(f), s);
  }

  // ---------------------------------------------------------------------------------
  // Ranks of a sorted pool
  // ---------------------------------------------------------------------------------

  /** The doubled average rank of `v` among `all`, counted pairwise. */
  function DoubledRank(v: real, all: seq<real>): int {
    Total(Against(v), all) + 1
  }

  function BaseRank(all: seq<real>): Sample -> int {
    (x: Sample) => if x.group == 0 then DoubledRank(x.value, all) else 0
  }

  /** A maximal run of equal values. */
  ghost predicate Block(s: seq<Sample>, i: nat, j: nat) {
    && i < j <= |s|
    && (forall k | i <= k < j :: s[k].value == s[i].value)
    && (forall k | 0 <= k < i :: s[k].value < s[i].value)
    && (forall k | j <= k < |s| :: s[i].value < s[k].value)
  }

  lemma BlockRank(s: seq<Sample>, i: nat, j: nat)
    requires Block(s, i, j)
    ensures DoubledRank(s[i].value, Values(s)) == i + 1 + j
    ensures Copies(s[i].value, Values(s)) == j - i
  {
    var v, all := s[i].value, Values(s);
    var low, mid, high := all[..i], all[i..j], all[j..];
    assert all == low + mid + high;
    TotalConcat(Against(v), low + mid, high);
    TotalConcat(Against(v), low, mid);
    TotalConstant(Against(v), low, 2);
    TotalConstant(Against(v), mid, 1);
    TotalConstant(Against(v), high, 0);
    TotalConcat(SameAs(v), low + mid, high);
    TotalConcat(SameAs(v), low, mid);
    TotalConstant(SameAs(v), low, 0);
    TotalConstant(SameAs(v), mid, 1);
    TotalConstant(SameAs(v), high, 0);
  }

  function IsBase(x: Sample): int {
    if x.group == 0 then 1 else 0
  }

  lemma {:induction false} BaseRanksOfBlock(s: seq<Sample>, all: seq<real>, rank: int)
    requires forall x | x in s :: DoubledRank(x.value, all) == rank
    ensures Total(BaseRank(all), s) == Total(IsBase, s) * rank
  {
    if s != [] { BaseRanksOfBlock(s[1..], all, rank); }
  }

  lemma CubeLess(t: int)
    ensures t * t * t - t == t * (t * t - 1)
  {
  }

  lemma BlockTotals(s: seq<Sample>, i: nat, j: nat)
    requires Block(s, i, j)
    ensures Total(BaseRank(Values(s)), s[..j]) ==
            Total(BaseRank(Values(s)), s[..i]) + Total(IsBase, s[i..j]) * (i + 1 + j)
    ensures Total(OnValue(Excess(Values(s))), s[..j]) ==
            Total(OnValue(Excess(Values(s))), s[..i]) + (j - i) * ((j - i) * (j - i) - 1)
  {
    var all, block := Values(s), s[i..j];
    assert s[..j] == s[..i] + block;
    BlockRank(s, i, j);
    TotalConcat(BaseRank(all), s[..i], block);
    BaseRanksOfBlock(block, all, i + 1 + j);
    TotalConcat(OnValue(Excess(all)), s[..i], block);
    TotalConstant(OnValue(Excess(all)), block, (j - i) * (j - i) - 1);
  }

  /** Where the run of values equal to the one at `index` ends. */
  method BlockEnd(combined: seq<Sample>, index: nat) returns (end: nat)
    requires index < |combined|
    ensures index < end <= |combined|
    ensures forall k | index <= k < end :: combined[k].value == combined[index].value
    ensures end < |combined| ==> combined[end].value != combined[index].value
  {
    end := index + 1;
    while end < |combined| && combined[end].value == combined[index].value
      invariant index < end <= |combined|
      invariant forall k | index <= k < end :: combined[k].value == combined[index].value
    {
      end := end + 1;
    }
  }

  /** Equal neighbours in an ascending pool, as far as they go, are a block. */
  lemma RunIsBlock(s: seq<Sample>, i: nat, j: nat)
    requires Ascending(s) && i < j <= |s| && (0 < i ==> s[i - 1].value < s[i].value)
    requires forall k | i <= k < j :: s[k].value == s[i].value
    requires j < |s| ==> s[j].value != s[i].value
    ensures Block(s, i, j) && (j < |s| ==> s[j - 1].value < s[j].value)
  {
  }

  /** What a block adds to both sums. */
  lemma RankStep(s: seq<Sample>, i: nat, j: nat, members: int, t: int)
    requires Block(s, i, j) && members == Total(IsBase, s[i..j]) * (i + 1 + j) && t == j - i
    ensures Total(BaseRank(Values(s)), s[..i]) + members == Total(BaseRank(Values(s)), s[..j])
    ensures Total(OnValue(Excess(Values(s))), s[..i]) + (t * t * t - t) == Total(OnValue(Excess(Values(s))), s[..j])
  {
    BlockTotals(s, i, j);
    CubeLess(t);
  }

  /** The rank loop: the doubled base rank sum and the tie term of a sorted pool. */
  method RankLoop(combined: seq<Sample>) returns (rankSumBase: int, tieSum: int)
    requires Ascending(combined)
    ensures rankSumBase == Total(BaseRank(Values(combined)), combined)
    ensures tieSum == TieTerm(Values(combined))
  {
    rankSumBase, tieSum := 0, 0;
    var index := 0;
    while index < |combined|
      invariant 0 <= index <= |combined|
      invariant 0 < index < |combined| ==> combined[index - 1].value < combined[index].value
      invariant rankSumBase == Total(BaseRank(Values(combined)), combined[..index])
      invariant tieSum == Total(OnValue(Excess(Values(combined))), combined[..index])
    {
      var end := BlockEnd(combined, index);
      var doubledAverage := index + 1 + end;
      var tieLen := end - index;
      RunIsBlock(combined, index, end);
      var members := BaseMembers(combined[index..end], doubledAverage);
      RankStep(combined, index, end, members, tieLen);
      tieSum := tieSum + (tieLen * tieLen * tieLen - tieLen);
      rankSumBase := rankSumBase + members;
      index := end;
    }
    assert combined[..index] == combined;
    TotalMap(Excess(Values(combined)), OnValue(Excess(Values(combined))), Values(combined), combined);
  }

  method BaseMembers(block: seq<Sample>, doubledAverage: int) returns (sum: int)
    ensures sum == Total(IsBase, block) * doubledAverage
  {
    sum := 0;
    var k := 0;
    while k < |block|
      invariant 0 <= k <= |block|
      invariant sum == Total(IsBase, block[..k]) * doubledAverage
    {
      assert block[..k + 1] == block[..k] + [block[k]];
      TotalConcat(IsBase, block[..k], [block[k]]);
      if block[k].group == 0 {
        sum := sum + doubledAverage;
      }
      k := k + 1;
    }
    assert block[..k] == block;
  }

  // ---------------------------------------------------------------------------------
  // The statistic
  // ---------------------------------------------------------------------------------

  lemma BaseRanksOfPool(base: seq<real>, current: seq<real>)
    ensures Total(BaseRank(base + current), Tagged(base, 0) + Tagged(current, 1)) ==
            PairScore(base, current) + |base| * (|base| + 1)
  {
    var all := base + current;
    TotalConcat(BaseRank(all), Tagged(base, 0), Tagged(current, 1));
    TotalConstant(BaseRank(all), Tagged(current, 1), 0);
    var rank := (x: real) => DoubledRank(x, all);
    TotalMap(BaseRank(all), rank, Tagged(base, 0), base);
    var own := (x: real) => Total(Against(x), base);
    var other := (x: real) => Total(Against(x), current);
    var both := (x: real) => Total(Against(x), base) + Total(Against(x), current);
    var one := (x: real) => 1;
    forall x: real ensures rank(x) == both(x) + one(x) { TotalConcat(Against(x), base, current); }
    TotalSum(both, one, rank, base);
    TotalSum(own, other, both, base);
    TotalConstant(one, base, 1);
    PairScoresAddUp(base, base);
    TotalMap(own, (x: real) => Total(Against(x), base), base, base);
    TotalMap(other, (x: real) => Total(Against(x), current), base, base);
  }

  lemma {:induction false} PoolTotals(base: seq<real>, current: seq<real>)
    ensures var pool := Tagged(base, 0) + Tagged(current, 1);
            && Total(BaseRank(Values(Sort(pool))), Sort(pool)) == PairScore(base, current) + |base| * (|base| + 1)
            && TieTerm(Values(Sort(pool))) == TieTerm(base + current)
  {
    var pool := Tagged(base, 0) + Tagged(current, 1);
    var sorted, all := Sort(pool), base + current;
    assert Values(pool) == all;
    forall x: Sample ensures BaseRank(Values(sorted))(x) == BaseRank(all)(x) {
      SortedTotal(Against(x.value), pool);
    }
    TotalMap(BaseRank(Values(sorted)), BaseRank(all), sorted, sorted);
    TotalSort(BaseRank(all), pool);
    BaseRanksOfPool(base, current);
    forall a: real ensures Excess(Values(sorted))(a) == Excess(all)(a) {
      SortedTotal(SameAs(a), pool);
    }
    TotalMap(Excess(Values(sorted)), Excess(all), Values(sorted), Values(sorted));
    SortedTotal(Excess(all), pool);
  }

  /** A p-value: certain, impossible, or the two-sided normal tail at (deviation / 2) / sqrt(variance). */
  datatype PValue = One | Zero | TwoSided(deviation: int, variance: real)

  /** The tie-corrected total: N + 1 less the averaged tie term. */
  function Spread(total: nat, ties: int): real
    requires total >= 2
  {
    (total + 1) as real - ties as real / (total * (total - 1)) as real
  }

  function Variance(n1: nat, n2: nat, ties: int): real
    requires n1 + n2 >= 2
  {
    (n1 * n2) as real * Spread(n1 + n2, ties) / 12.0
  }

  function Min(a: int, b: int): int {
    if b < a then b else a
  }

  /** The p-value in terms of the pairwise statistic (doubled) and the tie term. */
  function PValueOf(n1: nat, n2: nat, score: int, ties: int): PValue {
    var least := Min(score, 2 * (n1 * n2) - score);
    if n1 + n2 < 2 then One
    else if Variance(n1, n2, ties) <= 0.0 then
      if least == n1 * n2 then One else Zero
    else TwoSided(least - n1 * n2, Variance(n1, n2, ties))
  }

  method MannWhitney(base: seq<real>, current: seq<real>) returns (p: PValue, uBase: int, uCurrent: int)
    ensures uBase == PairScore(base, current)
    ensures uCurrent == PairScore(current, base)
    ensures p == PValueOf(|base|, |current|, PairScore(base, current), TieTerm(base + current))
  {
    var n1, n2 := |base|, |current|;
    var combined := Sort(Tagged(base, 0) + Tagged(current, 1));
    var rankSumBase, tieSum := RankLoop(combined);
    PoolTotals(base, current);
    PairScoresAddUp(base, current);
    uBase := rankSumBase - n1 * (n1 + 1);
    uCurrent := 2 * (n1 * n2) - uBase;
    p := TailProbability(n1, n2, uBase, uCurrent, tieSum);
  }

  method TailProbability(n1: nat, n2: nat, uBase: int, uCurrent: int, tieSum: int) returns (p: PValue)
    requires uCurrent == 2 * (n1 * n2) - uBase
    ensures p == PValueOf(n1, n2, uBase, tieSum)
  {
    var uValue := Min(uBase, uCurrent);
    var meanU := n1 * n2;
    var total := n1 + n2;
    if total < 2 {
      return One;
    }
    var tieCorrection := tieSum as real / (total * (total - 1)) as real;
    var variance := (n1 * n2) as real * ((total + 1) as real - tieCorrection) / 12.0;
    assert variance == Variance(n1, n2, tieSum) by { assert tieCorrection == tieSum as real / (total * (total - 1)) as real; }
    if variance <= 0.0 {
      p := if uValue == meanU then One else Zero;
    } else {
      p := TwoSided(uValue - meanU, variance);
    }
  }

  // ---------------------------------------------------------------------------------
  // Variance and symmetry
  // ---------------------------------------------------------------------------------

  ghost predicate AllEqual(xs: seq<real>) {
    forall i, j | 0 <= i < |xs| && 0 <= j < |xs| :: xs[i] == xs[j]
  }

  lemma CopiesBound(a: real, all: seq<real>)
    ensures Copies(a, all) <= |all|
    ensures Copies(a, all) == |all| <==> forall i | 0 <= i < |all| :: all[i] == a
  {
    TotalAtMost(SameAs(a), all, 1);
  }

  lemma {:induction false} CopiesPositive(a: real, all: seq<real>)
    ensures 0 <= Copies(a, all)
    ensures a in all ==> 1 <= Copies(a, all)
  {
    if all != [] { CopiesPositive(a, all[1..]); }
  }

  lemma SquareOrder(a: int, b: int)
    requires 0 <= a <= b
    ensures a * a <= b * b
    ensures a * a == b * b <==> a == b
  {
    if a < b { assert a * a <= a * b && a * b <= b * b; assert b * b - a * a == (b - a) * (b + a); }
  }

  /** The tie term is at most that of a constant pool, reached exactly by a constant pool. */
  lemma TieTermBound(all: seq<real>)
    ensures 0 <= TieTerm(all) <= |all| * (|all| * |all| - 1)
    ensures TieTerm(all) == |all| * (|all| * |all| - 1) <==> AllEqual(all)
  {
    var n, f := |all|, Excess(all);
    forall i | 0 <= i < n
      ensures 0 <= f(all[i]) <= n * n - 1
      ensures f(all[i]) == n * n - 1 <==> forall k | 0 <= k < n :: all[k] == all[i]
    {
      CopiesBound(all[i], all);
      CopiesPositive(all[i], all);
      SquareOrder(Copies(all[i], all), n);
      SquareOrder(1, Copies(all[i], all));
    }
    TotalAtMost(f, all, n * n - 1);
    AtLeastZero(f, all);
  }

  lemma {:induction false} AtLeastZero<T>(f: T -> int, s: seq<T>)
    requires forall i | 0 <= i < |s| :: 0 <= f(s[i])
    ensures 0 <= Total(f, s)
  {
    if s != [] { AtLeastZero(f, s[1..]); }
  }

  lemma Factors(n: int)
    ensures n * (n * n - 1) == (n * (n - 1)) * (n + 1)
  {
    assert n * n - 1 == (n - 1) * (n + 1);
  }

  lemma DivideBound(ties: int, d: int, m: int)
    requires 0 < d && ties <= d * m
    ensures ties as real / d as real <= m as real
    ensures ties as real / d as real == m as real <==> ties == d * m
  {
    var q := ties as real / d as real;
    assert q * d as real == ties as real;
    assert (d * m) as real == d as real * m as real;
    assert q > m as real ==> q * d as real > m as real * d as real;
    assert q == m as real <==> q * d as real == m as real * d as real;
  }

  /** The tie-corrected variance is never negative, and vanishes exactly on a constant pool. */
  lemma VarianceSign(base: seq<real>, current: seq<real>)
    requires |base| + |current| >= 2
    ensures var v := Variance(|base|, |current|, TieTerm(base + current));
            && 0.0 <= v
            && (v == 0.0 <==> base == [] || current == [] || AllEqual(base + current))
  {
    SpreadSign(base + current);
    ProductSign((|base| * |current|) as real, Spread(|base| + |current|, TieTerm(base + current)));
    if base != [] && current != [] { assert |base| * |current| > 0; }
  }

  lemma SpreadSign(all: seq<real>)
    requires |all| >= 2
    ensures 0.0 <= Spread(|all|, TieTerm(all))
    ensures Spread(|all|, TieTerm(all)) == 0.0 <==> AllEqual(all)
  {
    TieTermBound(all);
    Factors(|all|);
    assert 0 < |all| * (|all| - 1);
    DivideBound(TieTerm(all), |all| * (|all| - 1), |all| + 1);
  }

  lemma ProductSign(a: real, b: real)
    requires 0.0 <= a && 0.0 <= b
    ensures 0.0 <= a * b / 12.0
    ensures a * b / 12.0 == 0.0 <==> a == 0.0 || b == 0.0
  {
    if a > 0.0 && b > 0.0 { assert a * b > 0.0; }
  }

  lemma ConstantScore(base: seq<real>, current: seq<real>)
    requires AllEqual(base + current)
    ensures PairScore(base, current) == |base| * |current|
  {
    var all := base + current;
    var f := (x: real) => Total(Against(x), current);
    forall i | 0 <= i < |base| ensures f(base[i]) == |current| {
      assert all[i] == base[i] && forall k | 0 <= k < |current| :: all[|base| + k] == current[k];
      TotalConstant(Against(base[i]), current, 1);
    }
    TotalConstant(f, base, |current|);
    TotalMap(f, (x: real) => Total(Against(x), current), base, base);
  }

  /** The arm that returns zero on a vanishing variance is unreachable in exact arithmetic. */
  lemma ZeroIsUnreachable(base: seq<real>, current: seq<real>)
    ensures PValueOf(|base|, |current|, PairScore(base, current), TieTerm(base + current)) != Zero
  {
    PairScoresAddUp(base, current);
    if |base| + |current| >= 2 {
      VarianceSign(base, current);
      if AllEqual(base + current) { ConstantScore(base, current); }
    }
  }

  lemma {:induction false} TieTermSwaps(a: seq<real>, b: seq<real>)
    ensures TieTerm(a + b) == TieTerm(b + a)
  {
    forall x: real ensures Excess(a + b)(x) == Excess(b + a)(x) {
      TotalConcat(SameAs(x), a, b);
      TotalConcat(SameAs(x), b, a);
    }
    TotalMap(Excess(a + b), Excess(b + a), a + b, a + b);
    TotalConcat(Excess(b + a), a, b);
    TotalConcat(Excess(b + a), b, a);
  }

  /** Exchanging baseline and current run leaves the p-value unchanged. */
  lemma PValueIsSymmetric(base: seq<real>, current: seq<real>)
    ensures PValueOf(|base|, |current|, PairScore(base, current), TieTerm(base + current)) ==
            PValueOf(|current|, |base|, PairScore(current, base), TieTerm(current + base))
  {
    PairScoresAddUp(base, current);
    TieTermSwaps(base, current);
    assert |base| * |current| == |current| * |base|;
  }
}
