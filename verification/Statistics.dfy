/** Descriptive statistics of a sample set. Samples are reals; the square root is a
    parameter. */
module Statistics {
  import opened Wrappers
  import opened Sorting

  datatype Math = Math(sqrt: real -> real)

  predicate AtMost(a: real, b: real) {
    a <= b
  }

  predicate Ascending(s: seq<real>) {
    forall i, j :: 0 <= i < j < |s| ==> s[i] <= s[j]
  }

  function Sorted(xs: seq<real>): seq<real> {
    Sort(xs, AtMost)
  }

  lemma {:induction false} SortedFacts(xs: seq<real>)
    ensures Ascending(Sorted(xs)) && multiset(Sorted(xs)) == multiset(xs) && |Sorted(xs)| == |xs|
  {
    SortSorts(xs, AtMost);
    assert forall i, j :: 0 <= i < j < |Sorted(xs)| ==> AtMost(Sorted(xs)[i], Sorted(xs)[j]);
  }

  lemma {:induction false} SortedOfPermutation(xs: seq<real>, ys: seq<real>)
    requires multiset(xs) == multiset(ys)
    ensures Sorted(xs) == Sorted(ys) && |xs| == |ys|
  {
    SortOfPermutation(xs, ys, AtMost);
    SortedFacts(xs);
    SortedFacts(ys);
  }

  // ----- Sums and spread -----

  function SumOf(f: real -> real, xs: seq<real>): real {
    if xs == [] then 0.0 else f(xs[0]) + SumOf(f, xs[1..])
  }

  function TotalOf(xs: seq<real>): real {
    SumOf(x => x, xs)
  }

  function TotalOfSquares(xs: seq<real>): real {
    SumOf(x => x * x, xs)
  }

  /** The squared differences from `m`, added up. */
  function Spread(m: real, xs: seq<real>): real {
    SumOf(x => (x - m) * (x - m), xs)
  }

  function Mean(xs: seq<real>): real {
    if xs == [] then 0.0 else TotalOf(xs) / |xs| as real
  }

  function Stddev(math: Math, xs: seq<real>): real {
    if |xs| < 2 then 0.0
    else
      math.sqrt(Spread(Mean(xs), xs) / (|xs| as real - 1.0))
  }

  // ----- Student's t -----

  /** Two-sided 95 % critical values, by degrees of freedom. */
  function TTable(): seq<(nat, real)> {
    [ (1, 12.706), (2, 4.303), (3, 3.182), (4, 2.776), (5, 2.571), (6, 2.447), (7, 2.365), (8, 2.306), (9, 2.262),
      (10, 2.228), (12, 2.179), (15, 2.131), (20, 2.086), (24, 2.064), (30, 2.042), (40, 2.021), (60, 2.000),
      (120, 1.980) ]
  }

  /** The value of the first entry that reaches `df`. */
  function Reaching(table: seq<(nat, real)>, df: nat): real {
    if table == [] then 1.960 else if df <= table[0].0 then table[0].1 else Reaching(table[1..], df)
  }

  function TValue95(df: nat): real {
    if df == 0 then 0.0 else if df >= 120 then 1.960 else Reaching(TTable(), df)
  }

  method LookUpT(df: nat) returns (t: real)
    ensures t == TValue95(df)
  {
    if df == 0 {
      return 0.0;
    }
    if df >= 120 {
      return 1.960;
    }
    var table := TTable();
    hide TTable;
    for i := 0 to |table|
      invariant Reaching(table[i..], df) == TValue95(df)
    {
      assert table[i..][1..] == table[i + 1..];
      if df <= table[i].0 {
        return table[i].1;
      }
    }
    t := 1.960;
  }

  /** Degrees of freedom grow and critical values fall along the table. */
  predicate Falling(table: seq<(nat, real)>) {
    forall i, j :: 0 <= i < j < |table| ==> table[i].0 < table[j].0 && table[i].1 > table[j].1
  }

  lemma {:induction false} ReachingIs(table: seq<(nat, real)>, df: nat) returns (k: nat)
    requires table != [] && df <= table[|table| - 1].0
    ensures k < |table| && Reaching(table, df) == table[k].1
    ensures table[k].0 >= df && forall j :: 0 <= j < k ==> table[j].0 < df
  {
    if df <= table[0].0 {
      k := 0;
    } else {
      k := ReachingIs(table[1..], df);
      k := k + 1;
    }
  }

  lemma {:induction false} TableFalls()
    ensures Falling(TTable()) && |TTable()| == 18 && TTable()[17] == (120, 1.980)
  {
    forall i | 0 <= i < 17
      ensures TTable()[i].0 < TTable()[i + 1].0 && TTable()[i].1 > TTable()[i + 1].1
    {}
    StepsFall(TTable());
  }

  lemma {:induction false} StepsFall(table: seq<(nat, real)>)
    requires forall i :: 0 <= i < |table| - 1 ==> table[i].0 < table[i + 1].0 && table[i].1 > table[i + 1].1
    ensures Falling(table)
  {
    if table != [] {
      var n := |table| - 1;
      StepsFall(table[..n]);
      forall i | 0 <= i < n
        ensures table[i].0 < table[n].0 && table[i].1 > table[n].1
      {
        assert n >= 1 && table[..n][n - 1] == table[n - 1] && table[..n][i] == table[i];
      }
    }
  }

  /** The value is that of the first entry at or above the degrees of freedom, which
      is below that of every entry under them: between entries the interval comes out
      narrower than the next entry below would make it. */
  lemma {:induction false} TValueNarrows(df: nat) returns (k: nat)
    requires 1 <= df < 120
    ensures k < |TTable()| && TValue95(df) == TTable()[k].1 && TTable()[k].0 >= df
    ensures forall j :: 0 <= j < |TTable()| && TTable()[j].0 < df ==> j < k && TTable()[j].1 > TValue95(df)
  {
    TableFalls();
    var table := TTable();
    assert TValue95(df) == Reaching(table, df);
    hide *;
    k := ReachingIs(table, df);
    forall j | 0 <= j < |table| && table[j].0 < df
      ensures j < k && table[j].1 > table[k].1
    {
      FallsBetween(table, j, k);
    }
  }

  lemma {:induction false} FallsBetween(table: seq<(nat, real)>, j: nat, k: nat)
    requires Falling(table) && j < |table| && k < |table| && table[j].0 < table[k].0
    ensures j < k && table[j].1 > table[k].1
  {}

  function Ci95Halfwidth(math: Math, xs: seq<real>): real {
    if |xs| < 2 then 0.0
    else
      var root := math.sqrt(|xs| as real); // positive, since |xs| is; the test only keeps the division total
      if root == 0.0 then 0.0 else TValue95(|xs| - 1) * Stddev(math, xs) / root
  }

  /** `f64::EPSILON` */
  const EPSILON: real := 1.0 / 4503599627370496.0

  function Abs(x: real): real {
    if x < 0.0 then -x else x
  }

  function CoefficientOfVariation(math: Math, xs: seq<real>): real {
    var m := Mean(xs);
    if Abs(m) < EPSILON then 0.0 else Stddev(math, xs) / m
  }

  lemma {:induction false} SumOfInsert(f: real -> real, x: real, s: seq<real>)
    ensures SumOf(f, Insert(x, s, AtMost)) == f(x) + SumOf(f, s)
  {
    var r := Insert(x, s, AtMost);
    if s == [] || AtMost(x, s[0]) {
      assert r[1..] == s;
    } else {
      SumOfInsert(f, x, s[1..]);
      assert r[1..] == Insert(x, s[1..], AtMost);
    }
  }

  lemma {:induction false} SumOfSorted(f: real -> real, xs: seq<real>)
    ensures SumOf(f, Sorted(xs)) == SumOf(f, xs)
  {
    if xs != [] {
      SumOfSorted(f, xs[1..]);
      SumOfInsert(f, xs[0], Sorted(xs[1..]));
    }
  }

  /** A sum does not depend on the order of its terms. */
  lemma {:induction false} SumOfPermutation(f: real -> real, xs: seq<real>, ys: seq<real>)
    requires multiset(xs) == multiset(ys)
    ensures SumOf(f, xs) == SumOf(f, ys)
  {
    SortedOfPermutation(xs, ys);
    SumOfSorted(f, xs);
    SumOfSorted(f, ys);
  }

  /** A sum follows each of its terms. */
  lemma {:induction false} SumOfUpdate(f: real -> real, xs: seq<real>, i: nat, v: real)
    requires i < |xs|
    ensures SumOf(f, xs[i := v]) == SumOf(f, xs) - f(xs[i]) + f(v)
  {
    if i == 0 {
      assert xs[i := v][1..] == xs[1..];
    } else {
      SumOfUpdate(f, xs[1..], i - 1, v);
      assert xs[i := v][1..] == xs[1..][i - 1 := v];
    }
  }

  lemma {:induction false} MeanTimesCount(xs: seq<real>)
    ensures Times(Mean(xs), |xs| as real) == TotalOf(xs)
  {}

  /** The mean of equal samples is their value, and it moves with each sample by the
      n-th part. */
  lemma {:induction false} MeanIs(xs: seq<real>, i: nat, v: real)
    requires i < |xs|
    ensures (Mean(xs[i := v]) - Mean(xs)) * |xs| as real == v - xs[i]
    ensures (forall k :: 0 <= k < |xs| ==> xs[k] == v) ==> Mean(xs) == v
  {
    SumOfUpdate(x => x, xs, i, v);
    MeanTimesCount(xs);
    MeanTimesCount(xs[i := v]);
    if forall k :: 0 <= k < |xs| ==> xs[k] == v {
      MeanBounds(xs, v, v);
    }
  }

  lemma {:induction false} SquareOfDifference(x: real, m: real)
    ensures (x - m) * (x - m) == x * x - 2.0 * (m * x) + m * m
  {}

  lemma {:induction false} Deviations(xs: seq<real>, m: real)
    ensures Spread(m, xs) == TotalOfSquares(xs) - 2.0 * Times(m, TotalOf(xs)) + Times(|xs| as real, m * m)
  {
    hide *;
    if xs != [] {
      var n, x := |xs[1..]|, xs[0];
      SpreadStep(m, xs);
      TotalStep(xs);
      SquaresStep(xs);
      Deviations(xs[1..], m);
      DeviationStep(m, x, TotalOf(xs[1..]), n as real);
    } else {
      NoSpread(m, xs);
    }
  }

  lemma {:induction false} NoSpread(m: real, xs: seq<real>)
    requires xs == []
    ensures Spread(m, xs) == TotalOfSquares(xs) - 2.0 * Times(m, TotalOf(xs)) + Times(|xs| as real, m * m)
  {}

  lemma {:induction false} SpreadStep(m: real, xs: seq<real>)
    requires xs != []
    ensures Spread(m, xs) == (xs[0] - m) * (xs[0] - m) + Spread(m, xs[1..])
  {}

  lemma {:induction false} TotalStep(xs: seq<real>)
    requires xs != []
    ensures TotalOf(xs) == xs[0] + TotalOf(xs[1..])
  {}

  lemma {:induction false} SquaresStep(xs: seq<real>)
    requires xs != []
    ensures TotalOfSquares(xs) == xs[0] * xs[0] + TotalOfSquares(xs[1..])
  {}

  lemma {:induction false} DeviationStep(m: real, x: real, sum: real, n: real)
    ensures (x - m) * (x - m) - 2.0 * Times(m, sum) + Times(n, m * m)
         == x * x - 2.0 * Times(m, x + sum) + Times(n + 1.0, m * m)
  {
    assert Times(m, x + sum) == m * x + Times(m, sum);
    assert Times(n + 1.0, m * m) == Times(n, m * m) + m * m;
    SquareOfDifference(x, m);
  }

  /** Divided by `n - 1`: the square under the root, from the two sums alone. */
  lemma {:induction false} VarianceIs(math: Math, xs: seq<real>) returns (v: real)
    requires |xs| >= 2
    ensures Stddev(math, xs) == math.sqrt(v)
    ensures var n, sum := |xs| as real, TotalOf(xs);
            n * (n - 1.0) * v == n * TotalOfSquares(xs) - sum * sum
  {
    hide *;
    var n, m := |xs| as real, Mean(xs);
    v := StddevIs(math, xs);
    Deviations(xs, m);
    MeanTimesCount(xs);
    VarianceStep(n, m, TotalOf(xs), TotalOfSquares(xs), Spread(m, xs), v);
  }

  lemma {:induction false} StddevIs(math: Math, xs: seq<real>) returns (v: real)
    requires |xs| >= 2
    ensures Stddev(math, xs) == math.sqrt(v) && Times(v, |xs| as real - 1.0) == Spread(Mean(xs), xs)
  {
    hide Spread, Mean;
    v := Spread(Mean(xs), xs) / (|xs| as real - 1.0);
    QuotientTimes(Spread(Mean(xs), xs), |xs| as real - 1.0);
  }

  lemma {:induction false} VarianceStep(n: real, m: real, sum: real, squares: real, spread: real, v: real)
    requires n >= 2.0 && Times(m, n) == sum && Times(v, n - 1.0) == spread
    requires spread == squares - 2.0 * Times(m, sum) + Times(n, m * m)
    ensures n * (n - 1.0) * v == n * squares - sum * sum
  {
    assert (n - 1.0) * v == spread;
    assert n * (n - 1.0) * v == n * spread;
    assert Times(n, m * m) == m * (m * n) == m * sum;
    assert spread == squares - m * sum;
    assert n * (m * sum) == (m * n) * sum;
  }

  // ----- Percentiles -----

  function Ceil(r: real): int {
    -((-r).Floor)
  }

  function Clamp(p: real): real {
    if p < 0.0 then 0.0 else if p > 100.0 then 100.0 else p
  }

  /** R-7: the value at a fractional rank, by linear interpolation. */
  function AtRank(sorted: seq<real>, rank: real): real
    requires 0.0 <= rank <= |sorted| as real - 1.0
  {
    var lo, hi := rank.Floor, Ceil(rank);
    if lo == hi then sorted[lo]
    else
      var frac := rank - lo as real;
      sorted[lo] * (1.0 - frac) + sorted[hi] * frac
  }

  function Fraction(p: real): (q: real)
    ensures 0.0 <= q <= 1.0
  {
    Clamp(p) / 100.0
  }

  function Times(a: real, b: real): real {
    a * b
  }

  lemma {:induction false} Scale(a: real, b: real, k: real)
    requires a <= b && k >= 0.0
    ensures Times(a, k) <= Times(b, k)
  {
    assert (b - a) * k >= 0.0;
  }

  lemma {:induction false} Unit(k: real)
    ensures Times(0.0, k) == 0.0 && Times(1.0, k) == k
  {}

  function RankOf(n: nat, p: real): (rank: real)
    requires n >= 1
    ensures 0.0 <= rank <= n as real - 1.0
  {
    hide Times;
    var k := n as real - 1.0;
    Scale(0.0, Fraction(p), k);
    Scale(Fraction(p), 1.0, k);
    Unit(k);
    Times(Fraction(p), k)
  }

  /** None stands for the not-a-number answer on an empty slice. */
  function Percentile(sorted: seq<real>, p: real): Option<real> {
    if |sorted| == 0 then None
    else if |sorted| == 1 then Some(sorted[0])
    else Some(AtRank(sorted, RankOf(|sorted|, p)))
  }

  lemma {:induction false} FloorCeil(rank: real)
    ensures rank.Floor as real <= rank <= Ceil(rank) as real
    ensures Ceil(rank) == if rank.Floor as real == rank then rank.Floor else rank.Floor + 1
  {
    if rank.Floor as real == rank {
      assert (-rank).Floor as real == -rank;
    } else {
      assert (-rank).Floor == -rank.Floor - 1;
    }
  }

  /** A weighted mean of two ordered numbers lies between them, further along for a larger weight. */
  lemma {:induction false} Blend(a: real, b: real, f: real, g: real)
    requires a <= b && 0.0 <= f <= g <= 1.0
    ensures a <= a * (1.0 - f) + b * f <= a * (1.0 - g) + b * g <= b
  {
    var d := b - a;
    assert a * (1.0 - f) + b * f == a + d * f;
    assert a * (1.0 - g) + b * g == a + d * g;
    assert 0.0 <= d * f <= d * g <= d;
  }

  /** The value lies between its two neighbouring ranks. */
  lemma {:induction false} AtRankBetween(sorted: seq<real>, rank: real)
    requires Ascending(sorted) && 0.0 <= rank <= |sorted| as real - 1.0
    ensures var lo, hi := rank.Floor, Ceil(rank);
            0 <= lo <= hi < |sorted| && hi <= lo + 1 && sorted[lo] <= AtRank(sorted, rank) <= sorted[hi]
  {
    FloorCeil(rank);
    var lo, hi := rank.Floor, Ceil(rank);
    if lo != hi {
      var frac := rank - lo as real;
      assert sorted[lo] <= sorted[hi];
      Blend(sorted[lo], sorted[hi], frac, 1.0);
      assert AtRank(sorted, rank) == sorted[lo] * (1.0 - frac) + sorted[hi] * frac;
    }
  }

  lemma {:induction false} AtRankMonotone(sorted: seq<real>, q: real, r: real)
    requires Ascending(sorted) && 0.0 <= q <= r <= |sorted| as real - 1.0
    ensures AtRank(sorted, q) <= AtRank(sorted, r)
  {
    FloorCeil(q);
    FloorCeil(r);
    AtRankBetween(sorted, q);
    AtRankBetween(sorted, r);
    var lo, up := q.Floor, r.Floor;
    if lo == up && lo as real != q && lo as real != r {
      Blend(sorted[lo], sorted[lo + 1], q - lo as real, r - lo as real);
    }
  }

  lemma {:induction false} RankMonotone(n: nat, p: real, q: real)
    requires n >= 1 && p <= q
    ensures RankOf(n, p) <= RankOf(n, q)
  {
    hide Times;
    Scale(Fraction(p), Fraction(q), n as real - 1.0);
  }

  /** Percentiles grow with `p` and start and end at the extremes. */
  lemma {:induction false} PercentileMonotone(sorted: seq<real>, p: real, q: real)
    requires Ascending(sorted) && sorted != [] && p <= q
    ensures Percentile(sorted, p).value <= Percentile(sorted, q).value
    ensures Percentile(sorted, 0.0).value == sorted[0]
    ensures Percentile(sorted, 100.0).value == sorted[|sorted| - 1]
    ensures sorted[0] <= Percentile(sorted, p).value <= sorted[|sorted| - 1]
  {
    var n := |sorted|;
    if n > 1 {
      ExtremeRanks(sorted);
      hide AtRank, RankOf, Ascending;
      RankMonotone(n, p, q);
      AtRankMonotone(sorted, RankOf(n, p), RankOf(n, q));
      AtRankMonotone(sorted, 0.0, RankOf(n, p));
      AtRankMonotone(sorted, RankOf(n, p), n as real - 1.0);
    }
  }

  lemma {:induction false} ExtremeRanks(sorted: seq<real>)
    requires |sorted| > 1
    ensures var n := |sorted|;
            && RankOf(n, 0.0) == 0.0 && RankOf(n, 100.0) == n as real - 1.0
            && AtRank(sorted, 0.0) == sorted[0] && AtRank(sorted, n as real - 1.0) == sorted[n - 1]
  {
    FloorCeil(0.0);
    FloorCeil(|sorted| as real - 1.0);
  }

  /** On equally spaced samples the interpolation is exact at every rank. */
  lemma {:induction false} AtRankOfLine(sorted: seq<real>, a: real, d: real, rank: real)
    requires forall i :: 0 <= i < |sorted| ==> sorted[i] == a + d * i as real
    requires 0.0 <= rank <= |sorted| as real - 1.0
    ensures AtRank(sorted, rank) == a + d * rank
  {
    FloorCeil(rank);
    var lo, f := rank.Floor, rank - rank.Floor as real;
    if f != 0.0 {
      assert sorted[lo + 1] == sorted[lo] + d;
      assert AtRank(sorted, rank) == sorted[lo] * (1.0 - f) + (sorted[lo] + d) * f;
      assert d * rank == d * lo as real + d * f;
    }
  }

  /** The value `t` of the way from one rank to the next. */
  function Along(sorted: seq<real>, k: nat, t: real): real
    requires k < |sorted|
  {
    if k + 1 < |sorted| then sorted[k] + t * (sorted[k + 1] - sorted[k]) else sorted[k]
  }

  /** `v` stands `p` percent of the way through the ranks `0 .. n - 1`. */
  ghost predicate StandsAt(sorted: seq<real>, p: real, v: real) {
    exists k: nat, t: real ::
      k < |sorted| && 0.0 <= t < 1.0 && 100.0 * (k as real + t) == p * (|sorted| as real - 1.0) && v == Along(sorted, k, t)
  }

  /** What a percentile is. */
  lemma {:induction false} PercentileStands(sorted: seq<real>, p: real)
    requires sorted != [] && 0.0 <= p <= 100.0
    ensures StandsAt(sorted, p, Percentile(sorted, p).value)
  {
    var n := |sorted|;
    if n == 1 {
      assert p * (n as real - 1.0) == 0.0;
      assert sorted[0] == Along(sorted, 0, 0.0);
    } else {
      var rank := RankOf(n, p);
      FloorCeil(rank);
      var k, t := rank.Floor, rank - rank.Floor as real;
      assert 100.0 * rank == p * (n as real - 1.0) by {
        var m := n as real - 1.0;
        assert rank == (p / 100.0) * m;
      }
      assert k < n && AtRank(sorted, rank) == Along(sorted, k, t) by {
        if t > 0.0 {
          var a, b := sorted[k], sorted[k + 1];
          assert a * (1.0 - t) + b * t == a + t * (b - a);
        }
      }
    }
  }

  // ----- Summaries -----

  datatype Summary = Summary(
    n: nat, mean: real, median: real, stddev: real, min: real, max: real, p50: real, p90: real, p95: real,
    p99: real, p999: real, ci95: real, cov: real)

  const EMPTY: Summary := Summary(0, 0.0, 0.0, 0.0, 0.0, 0.0, 0.0, 0.0, 0.0, 0.0, 0.0, 0.0, 0.0)

  function Summarize(math: Math, xs: seq<real>): Summary {
    if xs == [] then EMPTY
    else
      SortedFacts(xs);
      var s := Sorted(xs);
      Summary(|xs|, Mean(xs), Percentile(s, 50.0).value, Stddev(math, xs), s[0], s[|s| - 1],
              Percentile(s, 50.0).value, Percentile(s, 90.0).value, Percentile(s, 95.0).value,
              Percentile(s, 99.0).value, Percentile(s, 99.9).value, Ci95Halfwidth(math, xs),
              CoefficientOfVariation(math, xs))
  }

  /** The order statistics of every summary are in order. */
  lemma {:induction false} SummaryIsOrdered(math: Math, xs: seq<real>)
    ensures var s := Summarize(math, xs);
            s.min <= s.p50 <= s.p90 <= s.p95 <= s.p99 <= s.p999 <= s.max && s.median == s.p50
  {
    if xs != [] {
      SortedFacts(xs);
      PercentilesInOrder(Sorted(xs));
    }
  }

  lemma {:induction false} PercentilesInOrder(s: seq<real>)
    requires Ascending(s) && s != []
    ensures s[0] <= Percentile(s, 50.0).value <= Percentile(s, 90.0).value <= Percentile(s, 95.0).value
    ensures Percentile(s, 95.0).value <= Percentile(s, 99.0).value <= Percentile(s, 99.9).value <= s[|s| - 1]
  {
    hide *;
    PercentileMonotone(s, 50.0, 90.0);
    PercentileMonotone(s, 90.0, 95.0);
    PercentileMonotone(s, 95.0, 99.0);
    PercentileMonotone(s, 99.0, 99.9);
    PercentileMonotone(s, 99.9, 100.0);
  }

  /** The extremes of a summary are samples, and bound all samples. */
  lemma {:induction false} SummaryBounds(math: Math, xs: seq<real>)
    requires xs != []
    ensures var s := Summarize(math, xs);
            s.min in xs && s.max in xs && forall x :: x in xs ==> s.min <= x <= s.max
  {
    SortedFacts(xs);
    var s := Sorted(xs);
    assert s[0] in multiset(s) && s[|s| - 1] in multiset(s);
    forall x | x in xs
      ensures s[0] <= x <= s[|s| - 1]
    {
      assert x in multiset(s);
    }
  }

  /** What the mean, the spread and the interval of a summary are. */
  lemma {:induction false} SummarySpread(math: Math, xs: seq<real>)
    requires xs != []
    ensures var s, n := Summarize(math, xs), |xs|;
            && s.n == n && Times(s.mean, n as real) == TotalOf(xs) && s.stddev == Stddev(math, xs)
            && (n == 1 ==> s.stddev == s.ci95 == 0.0)
            && (n >= 2 && math.sqrt(n as real) != 0.0 ==>
                  Times(s.ci95, math.sqrt(n as real)) == Times(TValue95(n - 1), Stddev(math, xs)))
            && if -1.0 < s.mean * 4503599627370496.0 < 1.0 then s.cov == 0.0 else Times(s.cov, s.mean) == Stddev(math, xs)
  {
    MeanTimesCount(xs);
    SpreadFields(math, xs);
    IntervalIs(math, xs);
    CoefficientIs(math, xs);
    hide *;
  }

  lemma {:induction false} SpreadFields(math: Math, xs: seq<real>)
    requires xs != []
    ensures var s := Summarize(math, xs);
            && s.n == |xs| && s.mean == Mean(xs) && s.stddev == Stddev(math, xs)
            && s.ci95 == Ci95Halfwidth(math, xs) && s.cov == CoefficientOfVariation(math, xs)
  {
    hide Mean, Stddev, Ci95Halfwidth, CoefficientOfVariation, Percentile;
  }

  /** Where each order statistic of a summary stands. */
  lemma {:induction false} SummaryPercentiles(math: Math, xs: seq<real>)
    requires xs != []
    ensures var s, sorted := Summarize(math, xs), Sorted(xs);
            && StandsAt(sorted, 50.0, s.median) && StandsAt(sorted, 50.0, s.p50) && StandsAt(sorted, 90.0, s.p90)
            && StandsAt(sorted, 95.0, s.p95) && StandsAt(sorted, 99.0, s.p99) && StandsAt(sorted, 99.9, s.p999)
  {
    SortedFacts(xs);
    var sorted := Sorted(xs);
    hide Percentile, StandsAt, Sorted;
    PercentileStands(sorted, 50.0);
    PercentileStands(sorted, 90.0);
    PercentileStands(sorted, 95.0);
    PercentileStands(sorted, 99.0);
    PercentileStands(sorted, 99.9);
  }

  lemma {:induction false} IntervalIs(math: Math, xs: seq<real>)
    ensures var ci, n := Ci95Halfwidth(math, xs), |xs|;
            && (n < 2 ==> ci == 0.0 && Stddev(math, xs) == 0.0)
            && (n >= 2 && math.sqrt(n as real) != 0.0 ==> Times(ci, math.sqrt(n as real)) == Times(TValue95(n - 1), Stddev(math, xs)))
  {
    hide TValue95;
    if |xs| >= 2 && math.sqrt(|xs| as real) != 0.0 {
      QuotientTimes(TValue95(|xs| - 1) * Stddev(math, xs), math.sqrt(|xs| as real));
    }
  }

  lemma {:induction false} QuotientTimes(a: real, b: real)
    requires b != 0.0
    ensures a / b * b == a
  {}

  lemma {:induction false} CoefficientIs(math: Math, xs: seq<real>)
    ensures var m, cov := Mean(xs), CoefficientOfVariation(math, xs);
            if -1.0 < m * 4503599627370496.0 < 1.0 then cov == 0.0 else Times(cov, m) == Stddev(math, xs)
  {
    hide Stddev, Mean;
    var m := Mean(xs);
    assert EPSILON * 4503599627370496.0 == 1.0;
    assert Abs(m) < EPSILON <==> -1.0 < m * 4503599627370496.0 < 1.0;
    if Abs(m) >= EPSILON {
      QuotientTimes(Stddev(math, xs), m);
    }
  }

  lemma {:induction false} SumBounds(xs: seq<real>, lo: real, hi: real)
    requires forall i :: 0 <= i < |xs| ==> lo <= xs[i] <= hi
    ensures Times(lo, |xs| as real) <= TotalOf(xs) <= Times(hi, |xs| as real)
  {
    if xs != [] {
      SumBounds(xs[1..], lo, hi);
      var m := |xs[1..]| as real;
      assert |xs| as real == m + 1.0;
      assert Times(lo, m + 1.0) == Times(lo, m) + lo && Times(hi, m + 1.0) == Times(hi, m) + hi;
    }
  }

  lemma {:induction false} Quotient(lo: real, sum: real, hi: real, n: real)
    requires n > 0.0 && Times(lo, n) <= sum <= Times(hi, n)
    ensures lo <= sum / n <= hi
  {
    var q := sum / n;
    assert q * n == sum;
    assert q < lo ==> (lo - q) * n > 0.0;
    assert q > hi ==> (q - hi) * n > 0.0;
  }

  lemma {:induction false} MeanBounds(xs: seq<real>, lo: real, hi: real)
    requires xs != [] && forall i :: 0 <= i < |xs| ==> lo <= xs[i] <= hi
    ensures lo <= Mean(xs) <= hi
  {
    hide Times;
    SumBounds(xs, lo, hi);
    Quotient(lo, TotalOf(xs), hi, |xs| as real);
  }

  /** The mean lies between the extremes. */
  lemma {:induction false} MeanIsBetween(math: Math, xs: seq<real>)
    ensures var s := Summarize(math, xs); s.min <= s.mean <= s.max
  {
    if xs != [] {
      SummaryBounds(math, xs);
      var s := Summarize(math, xs);
      assert forall i :: 0 <= i < |xs| ==> xs[i] in xs;
      MeanBounds(xs, s.min, s.max);
    }
  }

  /** A summary depends only on the multiset of samples. */
  lemma {:induction false} SummaryOfPermutation(math: Math, xs: seq<real>, ys: seq<real>)
    requires multiset(xs) == multiset(ys)
    ensures Summarize(math, xs) == Summarize(math, ys)
  {
    SortedOfPermutation(xs, ys);
    MeanOfPermutation(xs, ys);
    StddevOfPermutation(math, xs, ys);
    SameCi(math, xs, ys);
    hide Mean, Stddev, Percentile, Sorted, Ci95Halfwidth;
  }

  lemma {:induction false} SameCi(math: Math, xs: seq<real>, ys: seq<real>)
    requires |xs| == |ys| && Stddev(math, xs) == Stddev(math, ys)
    ensures Ci95Halfwidth(math, xs) == Ci95Halfwidth(math, ys)
  {
    hide Stddev, TValue95;
  }

  lemma {:induction false} MeanOfPermutation(xs: seq<real>, ys: seq<real>)
    requires multiset(xs) == multiset(ys)
    ensures Mean(xs) == Mean(ys)
  {
    SortedOfPermutation(xs, ys);
    SumOfPermutation(x => x, xs, ys);
  }

  lemma {:induction false} StddevOfPermutation(math: Math, xs: seq<real>, ys: seq<real>)
    requires multiset(xs) == multiset(ys)
    ensures Stddev(math, xs) == Stddev(math, ys)
  {
    SortedOfPermutation(xs, ys);
    MeanOfPermutation(xs, ys);
    var m := Mean(xs);
    SumOfPermutation(x => (x - m) * (x - m), xs, ys);
  }

  // ----- Outliers -----

  function Filter(keep: real -> bool, xs: seq<real>): seq<real> {
    if xs == [] then [] else (if keep(xs[0]) then [xs[0]] else []) + Filter(keep, xs[1..])
  }

  datatype Fences = Fences(q1: real, q3: real) {
    function Lo(): real {
      q1 - 1.5 * (q3 - q1)
    }

    function Hi(): real {
      q3 + 1.5 * (q3 - q1)
    }

    predicate Keeps(x: real) {
      Lo() <= x <= Hi()
    }
  }

  /** Tukey's fences, from the first and third quartile. */
  function FencesOf(xs: seq<real>): Fences
    requires xs != []
  {
    SortedFacts(xs);
    Fences(Percentile(Sorted(xs), 25.0).value, Percentile(Sorted(xs), 75.0).value)
  }

  /** The kept samples in their original order, and how many were removed. */
  function RemoveOutliersIqr(xs: seq<real>): (seq<real>, int) {
    if |xs| < 4 then (xs, 0)
    else
      var fences := FencesOf(xs);
      var kept := Filter(x => fences.Keeps(x), xs);
      (kept, |xs| - |kept|)
  }

  lemma {:induction false} FilterCounts(keep: real -> bool, xs: seq<real>)
    ensures forall x :: multiset(Filter(keep, xs))[x] == if keep(x) then multiset(xs)[x] else 0
    ensures |Filter(keep, xs)| <= |xs|
  {
    if xs != [] {
      FilterCounts(keep, xs[1..]);
      assert xs == [xs[0]] + xs[1..];
    }
  }

  lemma {:induction false} FilterOfPermutation(keep: real -> bool, xs: seq<real>, ys: seq<real>)
    requires multiset(xs) == multiset(ys)
    ensures multiset(Filter(keep, xs)) == multiset(Filter(keep, ys))
    ensures |Filter(keep, xs)| == |Filter(keep, ys)|
  {
    FilterCounts(keep, xs);
    FilterCounts(keep, ys);
    var f, g := multiset(Filter(keep, xs)), multiset(Filter(keep, ys));
    assert forall x :: f[x] == g[x];
    assert f == g;
    assert |Filter(keep, xs)| == |multiset(Filter(keep, xs))|;
    assert |Filter(keep, ys)| == |multiset(Filter(keep, ys))|;
  }

  /** The fences, the kept multiset and the removed count ignore sample order. */
  lemma {:induction false} OutliersOfPermutation(xs: seq<real>, ys: seq<real>)
    requires multiset(xs) == multiset(ys)
    ensures multiset(RemoveOutliersIqr(xs).0) == multiset(RemoveOutliersIqr(ys).0)
    ensures RemoveOutliersIqr(xs).1 == RemoveOutliersIqr(ys).1
  {
    SortedOfPermutation(xs, ys);
    if |xs| >= 4 {
      var fences := FencesOf(xs);
      FilterOfPermutation(x => fences.Keeps(x), xs, ys);
    }
  }

  /** What removal keeps, exactly: a sample stays, as often as it occurs, if and only if
      it is at most one and a half times the interquartile range outside the quartiles. */
  lemma {:induction false} KeptExactly(xs: seq<real>, x: real)
    requires |xs| >= 4
    ensures |Sorted(xs)| == |xs|
    ensures var q1, q3 := Percentile(Sorted(xs), 25.0).value, Percentile(Sorted(xs), 75.0).value;
            multiset(RemoveOutliersIqr(xs).0)[x] ==
            if 2.0 * (q1 - x) <= 3.0 * (q3 - q1) && 2.0 * (x - q3) <= 3.0 * (q3 - q1) then multiset(xs)[x] else 0
    ensures StandsAt(Sorted(xs), 25.0, Percentile(Sorted(xs), 25.0).value)
    ensures StandsAt(Sorted(xs), 75.0, Percentile(Sorted(xs), 75.0).value)
  {
    SortedFacts(xs);
    PercentileStands(Sorted(xs), 25.0);
    PercentileStands(Sorted(xs), 75.0);
    var fences := FencesOf(xs);
    FilterCounts(y => fences.Keeps(y), xs);
    hide Percentile, StandsAt, Sorted;
  }

  /** Fewer than four samples are all kept. */
  lemma {:induction false} FewAreKept(xs: seq<real>)
    ensures |xs| < 4 ==> RemoveOutliersIqr(xs) == (xs, 0)
  {}

  /** `sub` is `xs` with some elements left out and the rest in order. */
  predicate Subsequence(sub: seq<real>, xs: seq<real>) {
    sub == [] || (xs != [] && ((sub[0] == xs[0] && Subsequence(sub[1..], xs[1..])) || Subsequence(sub, xs[1..])))
  }

  lemma {:induction false} FilterIsSubsequence(keep: real -> bool, xs: seq<real>)
    ensures Subsequence(Filter(keep, xs), xs)
  {
    if xs != [] {
      FilterIsSubsequence(keep, xs[1..]);
      if keep(xs[0]) {
        assert Filter(keep, xs)[1..] == Filter(keep, xs[1..]);
      } else {
        assert Filter(keep, xs) == Filter(keep, xs[1..]);
      }
    }
  }

  lemma {:induction false} FilterNone(keep: real -> bool, xs: seq<real>)
    requires forall i :: 0 <= i < |xs| ==> !keep(xs[i])
    ensures Filter(keep, xs) == []
  {
    if xs != [] {
      assert !keep(xs[0]);
      FilterNone(keep, xs[1..]);
    }
  }

  lemma {:induction false} FilterSplits(keep: real -> bool, a: seq<real>, b: seq<real>)
    ensures Filter(keep, a + b) == Filter(keep, a) + Filter(keep, b)
  {
    if a == [] {
      assert a + b == b;
    } else {
      var head := if keep(a[0]) then [a[0]] else [];
      FilterSplits(keep, a[1..], b);
      assert (a + b)[1..] == a[1..] + b;
      assert Filter(keep, a + b) == head + (Filter(keep, a[1..]) + Filter(keep, b));
      assert Filter(keep, a) == head + Filter(keep, a[1..]);
    }
  }

  /** No more than `k` elements pass when none passes outside a stretch of `k`. */
  lemma {:induction false} FilterAtMost(keep: real -> bool, s: seq<real>, from: nat, k: nat)
    requires from + k <= |s| && forall i :: 0 <= i < |s| && !(from <= i < from + k) ==> !keep(s[i])
    ensures |Filter(keep, s)| <= k
  {
    var a, b, c := s[..from], s[from..from + k], s[from + k..];
    assert s == a + (b + c);
    FilterSplits(keep, a, b + c);
    FilterSplits(keep, b, c);
    FilterNone(keep, a);
    FilterNone(keep, c);
    FilterCounts(keep, b);
  }

  lemma {:induction false} FilterPartition(fences: Fences, xs: seq<real>)
    requires fences.Lo() <= fences.Hi()
    ensures |xs| == |Filter(x => fences.Keeps(x), xs)| + |Filter(x => x < fences.Lo(), xs)| + |Filter(x => x > fences.Hi(), xs)|
  {
    if xs != [] {
      FilterPartition(fences, xs[1..]);
    }
  }

  /** The number of ranks a quartile can cut off: a quarter of `n - 1`, rounded up. */
  function QuartileRanks(n: nat): nat
    requires n >= 1
  {
    (n + 2) / 4
  }

  lemma {:induction false} QuartileRank(n: nat)
    requires n >= 2
    ensures Ceil(RankOf(n, 25.0)) == QuartileRanks(n)
    ensures RankOf(n, 75.0).Floor == n - 1 - QuartileRanks(n)
  {
    var m, k := n as real - 1.0, QuartileRanks(n);
    assert RankOf(n, 25.0) == 0.25 * m && RankOf(n, 75.0) == 0.75 * m;
    assert 4 * k - 4 < n - 1 <= 4 * k;
    FloorCeil(0.25 * m);
    FloorCeil(0.75 * m);
  }

  /** Where the quartiles stand among the ordered samples. */
  lemma {:induction false} QuartilesAmongRanks(xs: seq<real>)
    requires |xs| >= 4
    ensures var s, k, f := Sorted(xs), QuartileRanks(|xs|), FencesOf(xs);
            |s| == |xs| && f.q1 <= f.q3 && f.q1 <= s[k] && s[|xs| - 1 - k] <= f.q3
  {
    SortedFacts(xs);
    var s, n := Sorted(xs), |xs|;
    QuartileRank(n);
    AtRankBetween(s, RankOf(n, 25.0));
    AtRankBetween(s, RankOf(n, 75.0));
    PercentileMonotone(s, 25.0, 75.0);
  }

  lemma {:induction false} FewBelow(xs: seq<real>)
    requires |xs| >= 4
    ensures var f := FencesOf(xs); |Filter(x => x < f.Lo(), xs)| <= QuartileRanks(|xs|)
  {
    SortedFacts(xs);
    QuartilesAmongRanks(xs);
    var f, s := FencesOf(xs), Sorted(xs);
    var below := x => x < f.Lo();
    FilterOfPermutation(below, xs, s);
    FilterAtMost(below, s, 0, QuartileRanks(|xs|));
  }

  lemma {:induction false} FewAbove(xs: seq<real>)
    requires |xs| >= 4
    ensures var f := FencesOf(xs); |Filter(x => x > f.Hi(), xs)| <= QuartileRanks(|xs|)
  {
    SortedFacts(xs);
    QuartilesAmongRanks(xs);
    var f, s, k := FencesOf(xs), Sorted(xs), QuartileRanks(|xs|);
    var above := x => x > f.Hi();
    FilterOfPermutation(above, xs, s);
    FilterAtMost(above, s, |xs| - k, k);
  }

  /** Removing outliers keeps an order-preserving part of the samples, with
      every sample between the quartiles, and takes away at most a quarter of the
      samples on either side, so never all of them. */
  lemma {:induction false} OutlierBound(xs: seq<real>)
    requires |xs| >= 4
    ensures var (kept, removed) := RemoveOutliersIqr(xs);
            Subsequence(kept, xs) && |kept| + removed == |xs| && kept != [] && 0 <= removed <= 2 * QuartileRanks(|xs|)
    ensures var (kept, f) := (RemoveOutliersIqr(xs).0, FencesOf(xs));
            forall x :: f.q1 <= x <= f.q3 ==> multiset(kept)[x] == multiset(xs)[x]
  {
    var f := FencesOf(xs);
    QuartilesAmongRanks(xs);
    FilterIsSubsequence(x => f.Keeps(x), xs);
    FilterCounts(x => f.Keeps(x), xs);
    FilterPartition(f, xs);
    FewBelow(xs);
    FewAbove(xs);
  }
}
