/** What the totals of sampled counters mean: against the per-tick deltas, and the
    mean they give against the peak of the ticks. */
module SystemTotals {
  import opened Wrappers
  import opened Statistics
  import opened SystemBoard
  import opened SystemMetrics
  import opened SampleLoop

  // ----- Exact totals against the per-tick deltas -----

  /** The sum of the saturating per-tick deltas of a counter. */
  function Rises(xs: seq<nat>): nat {
    if |xs| < 2 then 0 else Rises(xs[..|xs| - 1]) + Monus(xs[|xs| - 1], xs[|xs| - 2])
  }

  function Falls(xs: seq<nat>): nat {
    if |xs| < 2 then 0 else Falls(xs[..|xs| - 1]) + Monus(xs[|xs| - 2], xs[|xs| - 1])
  }

  predicate NeverFalls(xs: seq<nat>) {
    forall i, j :: 0 <= i < j < |xs| ==> xs[i] <= xs[j]
  }

  predicate NeverRises(xs: seq<nat>) {
    forall i, j :: 0 <= i < j < |xs| ==> xs[i] >= xs[j]
  }

  lemma {:induction false} SteadySnoc(xs: seq<nat>, x: nat)
    requires xs != []
    ensures NeverFalls(xs + [x]) <==> NeverFalls(xs) && xs[|xs| - 1] <= x
    ensures NeverRises(xs + [x]) <==> NeverRises(xs) && xs[|xs| - 1] >= x
  {
    var n, ys := |xs|, xs + [x];
    assert forall i :: 0 <= i < n ==> ys[i] == xs[i];
    assert ys[n - 1] == xs[n - 1] && ys[n] == x;
  }

  lemma {:induction false} RisesAndFalls(xs: seq<nat>)
    requires xs != []
    ensures xs[|xs| - 1] == xs[0] + Rises(xs) - Falls(xs)
    ensures Falls(xs) == 0 <==> NeverFalls(xs)
    ensures Rises(xs) == 0 <==> NeverRises(xs)
  {
    if |xs| >= 2 {
      hide NeverFalls, NeverRises;
      var n := |xs| - 1;
      RisesAndFalls(xs[..n]);
      SteadySnoc(xs[..n], xs[n]);
      assert xs == xs[..n] + [xs[n]];
    }
  }

  /** The first-to-last total is never above the sum of the per-tick deltas, and
      equals it exactly when the counter never falls or never rises. */
  lemma {:induction false} ExactTotal(xs: seq<nat>)
    requires xs != []
    ensures Monus(xs[|xs| - 1], xs[0]) <= Rises(xs)
    ensures Monus(xs[|xs| - 1], xs[0]) == Rises(xs) <==> NeverFalls(xs) || NeverRises(xs)
  {
    RisesAndFalls(xs);
  }

  datatype Counter = Cpu | Ctxt

  /** The values a counter takes over one process's samples. */
  function Values(c: Counter, series: seq<Sample>): seq<nat> {
    seq(|series|, i requires 0 <= i < |series| => if c.Cpu? then series[i].Cpu() else series[i].Ctxt())
  }

  function Deltas(c: Counter, samples: seq<Sample>, pids: seq<nat>): nat {
    if pids == [] then 0
    else Deltas(c, samples, pids[..|pids| - 1]) + Rises(Values(c, Series(samples, pids[|pids| - 1])))
  }

  predicate Steady(c: Counter, samples: seq<Sample>, pids: seq<nat>) {
    forall i :: 0 <= i < |pids| ==>
      var xs := Values(c, Series(samples, pids[i])); NeverFalls(xs) || NeverRises(xs)
  }

  /** The exact totals over all processes never exceed the sum of all per-tick
      deltas, and are equal to it exactly when no process's counter both rises and
      falls, however many ticks there are and whichever processes they miss. */
  lemma {:induction false} TotalsAreExact(c: Counter, samples: seq<Sample>, pids: seq<nat>, tck: real)
    requires tck > 0.0
    ensures var total := TotalOf(c, RollupOf(samples, pids, tck));
            total <= Deltas(c, samples, pids) && (total == Deltas(c, samples, pids) <==> Steady(c, samples, pids))
  {
    if pids != [] {
      hide Steady, AddSeries, NeverFalls, NeverRises, Rises, Series;
      var n := |pids| - 1;
      var xs := Values(c, Series(samples, pids[n]));
      TotalsAreExact(c, samples, pids[..n], tck);
      SteadyFront(c, samples, pids);
      if xs != [] {
        ExactTotal(xs);
      } else {
        NothingRises(xs);
      }
    } else {
      assert Steady(c, samples, pids);
    }
  }

  function TotalOf(c: Counter, r: Rollup): nat {
    if c.Cpu? then r.ticks else r.ctx
  }

  lemma {:induction false} NothingRises(xs: seq<nat>)
    requires xs == []
    ensures Rises(xs) == 0 && NeverFalls(xs)
  {}

  lemma {:induction false} SteadyFront(c: Counter, samples: seq<Sample>, pids: seq<nat>)
    requires pids != []
    ensures Steady(c, samples, pids) <==>
            Steady(c, samples, pids[..|pids| - 1]) &&
            (var xs := Values(c, Series(samples, pids[|pids| - 1])); NeverFalls(xs) || NeverRises(xs))
  {
    hide Values, NeverFalls, NeverRises;
    assert forall i :: 0 <= i < |pids| - 1 ==> pids[..|pids| - 1][i] == pids[i];
  }

  // ----- The mean against the peak -----

  /** The process was read at the first ticks, until it was gone. */
  predicate OnTicks(series: seq<Sample>, ts: seq<nat>) {
    0 < |series| <= |ts| && forall i :: 0 <= i < |series| ==> series[i].elapsedMs == ts[i]
  }

  predicate AllOnTicks(samples: seq<Sample>, pids: seq<nat>, ts: seq<nat>) {
    forall i :: 0 <= i < |pids| ==> OnTicks(Series(samples, pids[i]), ts)
  }

  predicate CountersGrow(samples: seq<Sample>, pids: seq<nat>) {
    forall i :: 0 <= i < |pids| ==> NeverFalls(Values(Cpu, Series(samples, pids[i])))
  }

  /** How many ticks the longest-lived process was read at. */
  function Longest(samples: seq<Sample>, pids: seq<nat>): nat {
    if pids == [] then 0 else MaxNat(Longest(samples, pids[..|pids| - 1]), |Series(samples, pids[|pids| - 1])|)
  }

  lemma {:induction false} LongestFits(samples: seq<Sample>, pids: seq<nat>, ts: seq<nat>)
    requires AllOnTicks(samples, pids, ts)
    ensures Longest(samples, pids) <= |ts| && (pids != [] ==> Longest(samples, pids) > 0)
  {
    if pids != [] {
      LongestFits(samples, pids[..|pids| - 1], ts);
      assert OnTicks(Series(samples, pids[|pids| - 1]), ts);
    }
  }

  /** The counter as of tick `k`: its last value once the process is gone. */
  function CpuBy(s: seq<Sample>, k: nat): nat
    requires s != []
  {
    s[if k < |s| then k else |s| - 1].Cpu()
  }

  /** All processes' ticks from tick `j` to tick `k`. */
  function Spent(samples: seq<Sample>, pids: seq<nat>, ts: seq<nat>, j: nat, k: nat): nat
    requires AllOnTicks(samples, pids, ts)
  {
    if pids == [] then 0
    else
      var s := Series(samples, pids[|pids| - 1]);
      assert AllOnTicks(samples, pids[..|pids| - 1], ts);
      assert OnTicks(s, ts);
      Spent(samples, pids[..|pids| - 1], ts, j, k) + Monus(CpuBy(s, k), CpuBy(s, j))
  }

  /** What the readings before `n` add to the CPU percentage at tick `k`. */
  function CpuShare(series: seq<Sample>, k: nat, n: nat, tck: real): real
    requires n <= |series| && tck > 0.0
  {
    if k < n then ReadingAt(series, k, tck).cpu else 0.0
  }

  /** All processes' CPU percentage at tick `k`. */
  function CpuSum(samples: seq<Sample>, pids: seq<nat>, k: nat, tck: real): real
    requires tck > 0.0
  {
    if pids == [] then 0.0
    else
      var s := Series(samples, pids[|pids| - 1]);
      CpuSum(samples, pids[..|pids| - 1], k, tck) + CpuShare(s, k, |s|, tck)
  }

  lemma {:induction false} CpuSumBeyond(samples: seq<Sample>, pids: seq<nat>, k: nat, tck: real)
    requires tck > 0.0 && k >= Longest(samples, pids)
    ensures CpuSum(samples, pids, k, tck) == 0.0
  {
    if pids != [] {
      hide ReadingAt;
      CpuSumBeyond(samples, pids[..|pids| - 1], k, tck);
    }
  }

  predicate BoardOn(b: Board, ts: seq<nat>) {
    |b| <= |ts| && forall k :: 0 <= k < |b| ==> b[k].at == ts[k]
  }

  /** The board after the reading of tick `k`: added to its entry, or a new last one. */
  function Posted(b: Board, r: Reading, k: nat): Board
    requires k <= |b|
  {
    if k < |b| then b[k := b[k].Add(r)] else b + [Open(r)]
  }

  lemma {:induction false} PostOn(b: Board, r: Reading, ts: seq<nat>, k: nat)
    requires StrictlyIncreasing(ts) && BoardOn(b, ts) && k < |ts| && k <= |b| && r.at == ts[k]
    ensures Upsert(b, r) == Posted(b, r, k) && BoardOn(Upsert(b, r), ts)
  {
    if k < |b| {
      UpsertAt(b, r, k);
    } else {
      UpsertAfterAll(b, r);
    }
  }

  function CpuOf(b: Board, k: nat): real {
    if k < |b| then b[k].cpu else 0.0
  }

  /** `c` is `b` plus the CPU shares of the readings before `n`. */
  predicate Gained(c: Board, b: Board, series: seq<Sample>, n: nat, tck: real)
    requires tck > 0.0
  {
    && n <= |series| && |c| == MaxNat(|b|, n)
    && forall k :: 0 <= k < |c| ==> c[k].cpu == CpuOf(b, k) + CpuShare(series, k, n, tck)
  }

  lemma {:induction false} GainedMore(c: Board, b: Board, series: seq<Sample>, k: nat, tck: real)
    requires tck > 0.0 && k < |series| && Gained(c, b, series, k, tck)
    ensures k <= |c| && Gained(Posted(c, ReadingAt(series, k, tck), k), b, series, k + 1, tck)
  {
    hide ReadingAt, Max;
    var d := Posted(c, ReadingAt(series, k, tck), k);
    forall i | 0 <= i < |d|
      ensures d[i].cpu == CpuOf(b, i) + CpuShare(series, i, k + 1, tck)
    {
      assert i < |c| ==> c[i].cpu == CpuOf(b, i) + CpuShare(series, i, k, tck);
    }
  }

  lemma {:induction false} GainedNothing(b: Board, series: seq<Sample>, tck: real)
    requires tck > 0.0
    ensures AddSeries(b, series, 0, tck) == b && Gained(b, b, series, 0, tck)
  {}

  lemma {:induction false} GainedLength(c: Board, b: Board, series: seq<Sample>, k: nat, tck: real)
    requires tck > 0.0 && Gained(c, b, series, k, tck)
    ensures k <= |c|
  {}

  lemma {:induction false} ReadingOfTick(series: seq<Sample>, ts: seq<nat>, n: nat, tck: real)
    requires OnTicks(series, ts) && 0 < n <= |series| && tck > 0.0
    ensures n <= |ts| && ReadingAt(series, n - 1, tck).at == ts[n - 1]
  {}

  lemma {:induction false} AddSeriesStep(b: Board, series: seq<Sample>, n: nat, tck: real)
    requires 0 < n <= |series| && tck > 0.0
    ensures AddSeries(b, series, n, tck) == Upsert(AddSeries(b, series, n - 1, tck), ReadingAt(series, n - 1, tck))
  {}

  lemma {:induction false} SeriesOnBoard(b: Board, series: seq<Sample>, ts: seq<nat>, n: nat, tck: real)
    requires OnTicks(series, ts) && StrictlyIncreasing(ts) && n <= |series| && tck > 0.0 && BoardOn(b, ts)
    ensures BoardOn(AddSeries(b, series, n, tck), ts) && Gained(AddSeries(b, series, n, tck), b, series, n, tck)
  {
    hide *;
    if n == 0 {
      GainedNothing(b, series, tck);
    } else {
      var c := AddSeries(b, series, n - 1, tck);
      SeriesOnBoard(b, series, ts, n - 1, tck);
      ReadingOfTick(series, ts, n, tck);
      GainedLength(c, b, series, n - 1, tck);
      PostOn(c, ReadingAt(series, n - 1, tck), ts, n - 1);
      GainedMore(c, b, series, n - 1, tck);
      AddSeriesStep(b, series, n, tck);
    }
  }

  /** When processes are read on every tick until they are gone, the board has one
      entry per tick, with the summed percentages. */
  lemma {:induction false} BoardOfTicks(samples: seq<Sample>, pids: seq<nat>, ts: seq<nat>, tck: real)
    requires AllOnTicks(samples, pids, ts) && StrictlyIncreasing(ts) && tck > 0.0
    ensures var b := RollupOf(samples, pids, tck).board;
            && |b| == Longest(samples, pids) && BoardOn(b, ts)
            && forall k :: 0 <= k < |b| ==> b[k].cpu == CpuSum(samples, pids, k, tck)
  {
    if pids != [] {
      hide AddSeries, ReadingAt, StrictlyIncreasing, CpuShare;
      var n := |pids| - 1;
      var front, series := pids[..n], Series(samples, pids[n]);
      assert AllOnTicks(samples, front, ts);
      assert OnTicks(series, ts);
      BoardOfTicks(samples, front, ts, tck);
      var b := RollupOf(samples, front, tck).board;
      SeriesOnBoard(b, series, ts, |series|, tck);
      forall k: nat
        ensures CpuOf(b, k) == CpuSum(samples, front, k, tck)
      {
        if k >= |b| {
          CpuSumBeyond(samples, front, k, tck);
        }
      }
    }
  }

  lemma {:induction false} Distribute(a: real, b: real, w: real)
    ensures Times(a + b, w) == Times(a, w) + Times(b, w)
  {}

  lemma {:induction false} Cancel(x: real, y: real, w: real)
    requires w > 0.0 && Times(x, w) <= Times(y, w)
    ensures x <= y
  {
    assert (x - y) * w <= 0.0;
  }

  /** The weight of an interval: its milliseconds times the tick rate. */
  function Weight(ms: nat, tck: real): (w: real)
    requires tck > 0.0
    ensures w >= 0.0
    ensures ms > 0 ==> w > 0.0
  {
    Scale(0.0, ms as real, tck);
    Times(ms as real, tck)
  }

  lemma {:induction false} WeightAdds(a: nat, b: nat, tck: real)
    requires tck > 0.0
    ensures Weight(a + b, tck) == Weight(a, tck) + Weight(b, tck)
  {
    Distribute(a as real, b as real, tck);
  }

  /** What a rate is: over its weight, a hundred thousand times the ticks. */
  lemma {:induction false} RateIs(ticks: nat, ms: nat, tck: real)
    requires tck > 0.0 && ms > 0
    ensures Times(Rate(ticks, ms, tck), Weight(ms, tck)) == 100000.0 * ticks as real
  {
    var dt := ms as real / 1000.0;
    var a := ticks as real / tck;
    var b := a / dt;
    assert a * tck == ticks as real;
    assert b * dt == a;
    assert Rate(ticks, ms, tck) == b * 100.0;
    Regroup(b, dt, tck);
    assert (ms as real) * tck == (1000.0 * dt) * tck;
  }

  lemma {:induction false} Regroup(b: real, dt: real, tck: real)
    ensures (b * 100.0) * ((1000.0 * dt) * tck) == 100000.0 * ((b * dt) * tck)
  {}

  lemma {:induction false} RateAdds(a: nat, b: nat, ms: nat, tck: real)
    requires tck > 0.0
    ensures Rate(a + b, ms, tck) == Rate(a, ms, tck) + Rate(b, ms, tck)
  {
    if ms > 0 {
      hide Rate, Times;
      var w := Weight(ms, tck);
      RateIs(a, ms, tck);
      RateIs(b, ms, tck);
      RateIs(a + b, ms, tck);
      Distribute(Rate(a, ms, tck), Rate(b, ms, tck), w);
      Cancel(Rate(a + b, ms, tck), Rate(a, ms, tck) + Rate(b, ms, tck), w);
      Cancel(Rate(a, ms, tck) + Rate(b, ms, tck), Rate(a + b, ms, tck), w);
    }
  }

  lemma {:induction false} RateOfNothing(ms: nat, tck: real)
    requires tck > 0.0
    ensures Rate(0, ms, tck) == 0.0
  {}

  lemma {:induction false} ShareIsRate(s: seq<Sample>, ts: seq<nat>, k: nat, tck: real)
    requires OnTicks(s, ts) && StrictlyIncreasing(ts) && 0 < k < |ts| && tck > 0.0
    ensures CpuShare(s, k, |s|, tck) == Rate(Monus(CpuBy(s, k), CpuBy(s, k - 1)), ts[k] - ts[k - 1], tck)
  {
    hide Rate;
    RateOfNothing(ts[k] - ts[k - 1], tck);
  }

  /** The summed percentage of a tick is the rate of the ticks all processes spent in it. */
  lemma {:induction false} CpuSumIsRate(samples: seq<Sample>, pids: seq<nat>, ts: seq<nat>, k: nat, tck: real)
    requires AllOnTicks(samples, pids, ts) && StrictlyIncreasing(ts) && 0 < k < |ts| && tck > 0.0
    ensures CpuSum(samples, pids, k, tck) == Rate(Spent(samples, pids, ts, k - 1, k), ts[k] - ts[k - 1], tck)
  {
    hide Rate, CpuShare;
    var ms := ts[k] - ts[k - 1];
    if pids != [] {
      var n := |pids| - 1;
      assert AllOnTicks(samples, pids[..n], ts);
      CpuSumIsRate(samples, pids[..n], ts, k, tck);
      var s := Series(samples, pids[n]);
      assert OnTicks(s, ts);
      ShareIsRate(s, ts, k, tck);
      RateAdds(Spent(samples, pids[..n], ts, k - 1, k), Monus(CpuBy(s, k), CpuBy(s, k - 1)), ms, tck);
    } else {
      RateOfNothing(ms, tck);
    }
  }

  lemma {:induction false} CounterGrows(s: seq<Sample>, j: nat, k: nat)
    requires s != [] && NeverFalls(Values(Cpu, s)) && j <= k
    ensures CpuBy(s, j) <= CpuBy(s, k)
  {
    var c, a, b := Values(Cpu, s), if j < |s| then j else |s| - 1, if k < |s| then k else |s| - 1;
    assert c[a] <= c[b] || a == b;
  }

  lemma {:induction false} SpentAdds(samples: seq<Sample>, pids: seq<nat>, ts: seq<nat>, k: nat)
    requires AllOnTicks(samples, pids, ts) && CountersGrow(samples, pids) && k > 0
    ensures Spent(samples, pids, ts, 0, k) == Spent(samples, pids, ts, 0, k - 1) + Spent(samples, pids, ts, k - 1, k)
  {
    if pids != [] {
      hide CpuBy;
      var n := |pids| - 1;
      assert AllOnTicks(samples, pids[..n], ts);
      assert CountersGrow(samples, pids[..n]);
      SpentAdds(samples, pids[..n], ts, k);
      var s := Series(samples, pids[n]);
      assert OnTicks(s, ts);
      CounterGrows(s, 0, k - 1);
      CounterGrows(s, k - 1, k);
    }
  }

  lemma {:induction false} SpentNothing(samples: seq<Sample>, pids: seq<nat>, ts: seq<nat>)
    requires AllOnTicks(samples, pids, ts)
    ensures Spent(samples, pids, ts, 0, 0) == 0
  {
    if pids != [] {
      assert AllOnTicks(samples, pids[..|pids| - 1], ts);
      SpentNothing(samples, pids[..|pids| - 1], ts);
    }
  }

  /** Up to each tick, the ticks spent stay below the peak over the elapsed time. */
  lemma {:induction false} SpentBelowPeak(
    samples: seq<Sample>, pids: seq<nat>, ts: seq<nat>, tck: real, peak: real, k: nat)
    requires AllOnTicks(samples, pids, ts) && CountersGrow(samples, pids) && StrictlyIncreasing(ts) && k < |ts| && tck > 0.0
    requires forall j :: 0 < j < |ts| ==> CpuSum(samples, pids, j, tck) <= peak
    ensures ts[0] <= ts[k]
    ensures 100000.0 * Spent(samples, pids, ts, 0, k) as real <= Times(peak, Weight(ts[k] - ts[0], tck))
  {
    if k == 0 {
      SpentNothing(samples, pids, ts);
    } else {
      var ms := ts[k] - ts[k - 1];
      SpentBelowPeak(samples, pids, ts, tck, peak, k - 1);
      SpentAdds(samples, pids, ts, k);
      CpuSumIsRate(samples, pids, ts, k, tck);
      var step := Spent(samples, pids, ts, k - 1, k);
      assert Rate(step, ms, tck) <= peak;
      hide *;
      RateIs(step, ms, tck);
      Scale(Rate(step, ms, tck), peak, Weight(ms, tck));
      WeightAdds(ts[k - 1] - ts[0], ms, tck);
      Distribute2(peak, Weight(ts[k - 1] - ts[0], tck), Weight(ms, tck));
    }
  }

  lemma {:induction false} Distribute2(w: real, a: real, b: real)
    ensures Times(w, a + b) == Times(w, a) + Times(w, b)
  {}

  /** The exact totals: all ticks spent, over the life of the longest-lived process. */
  lemma {:induction false} RollupTotals(samples: seq<Sample>, pids: seq<nat>, ts: seq<nat>, tck: real)
    requires AllOnTicks(samples, pids, ts) && StrictlyIncreasing(ts) && pids != [] && tck > 0.0
    ensures var r, n := RollupOf(samples, pids, tck), Longest(samples, pids);
            && 0 < n <= |ts| && ts[0] <= ts[n - 1]
            && r.ticks == Spent(samples, pids, ts, 0, |ts| - 1)
            && r.spanS == (ts[n - 1] - ts[0]) as real / 1000.0
    decreases pids
  {
    hide AddSeries, Series;
    var m := |pids| - 1;
    LongestFits(samples, pids, ts);
    assert AllOnTicks(samples, pids[..m], ts);
    assert OnTicks(Series(samples, pids[m]), ts);
    if m > 0 {
      RollupTotals(samples, pids[..m], ts, tck);
    }
  }

  /** The peak bounds the series and, unless it is zero, is one of its values. */
  lemma {:induction false} GreatestBounds(xs: seq<real>)
    ensures Greatest(xs) >= 0.0 && forall i :: 0 <= i < |xs| ==> xs[i] <= Greatest(xs)
    ensures Greatest(xs) != 0.0 ==> Greatest(xs) in xs
  {
    if xs != [] {
      var n := |xs| - 1;
      GreatestBounds(xs[..n]);
      assert forall i :: 0 <= i < n ==> xs[..n][i] == xs[i];
    }
  }

  lemma {:induction false} PeakBounds(b: Board, k: nat)
    requires 0 < k < |b|
    ensures b[k].cpu <= Greatest(CpuSeries(Measured(b)))
  {
    GreatestBounds(CpuSeries(Measured(b)));
    assert CpuSeries(Measured(b))[k - 1] == b[k].cpu;
  }

  function Mean(ticks: nat, spanS: real, tck: real): real
    requires tck > 0.0
  {
    if spanS > 0.0 then ticks as real / tck / spanS * 100.0 else 0.0
  }

  lemma {:induction false} MeanOfTotals(ticks: nat, ms: nat, tck: real, peak: real)
    requires tck > 0.0 && peak >= 0.0 && 100000.0 * ticks as real <= Times(peak, Weight(ms, tck))
    ensures Mean(ticks, ms as real / 1000.0, tck) <= peak
  {
    if ms > 0 {
      RateIs(ticks, ms, tck);
      Cancel(Rate(ticks, ms, tck), peak, Weight(ms, tck));
    }
  }

  lemma {:induction false} PeakOfTicks(samples: seq<Sample>, pids: seq<nat>, ts: seq<nat>, tck: real, peak: real)
    requires AllOnTicks(samples, pids, ts) && StrictlyIncreasing(ts) && |ts| == Longest(samples, pids) && tck > 0.0
    requires peak == Greatest(CpuSeries(Measured(RollupOf(samples, pids, tck).board)))
    ensures peak >= 0.0 && forall j :: 0 < j < |ts| ==> CpuSum(samples, pids, j, tck) <= peak
  {
    hide Greatest, CpuSeries, Measured, RollupOf, AllOnTicks, StrictlyIncreasing, CpuSum, Longest;
    var b := RollupOf(samples, pids, tck).board;
    GreatestBounds(CpuSeries(Measured(b)));
    BoardOfTicks(samples, pids, ts, tck);
    forall j | 0 < j < |ts|
      ensures CpuSum(samples, pids, j, tck) <= peak
    {
      PeakBounds(b, j);
    }
  }

  lemma {:induction false} MeanOfTicks(samples: seq<Sample>, pids: seq<nat>, ts: seq<nat>, tck: real, r: Rollup)
    requires AllOnTicks(samples, pids, ts) && StrictlyIncreasing(ts) && CountersGrow(samples, pids)
    requires pids != [] && |ts| == Longest(samples, pids) && tck > 0.0 && r == RollupOf(samples, pids, tck)
    ensures Mean(r.ticks, r.spanS, tck) <= Greatest(CpuSeries(Measured(r.board)))
  {
    hide *;
    var peak := Greatest(CpuSeries(Measured(r.board)));
    RollupTotals(samples, pids, ts, tck);
    PeakOfTicks(samples, pids, ts, tck, peak);
    SpentBelowPeak(samples, pids, ts, tck, peak, |ts| - 1);
    MeanOfTotals(r.ticks, ts[|ts| - 1] - ts[0], tck, peak);
  }

  /** When every process is read on every tick until it is gone, at strictly
      increasing times and with counters that never fall, the mean CPU percentage,
      which comes from the exact totals, never exceeds the peak, which comes from
      the ticks. */
  lemma {:induction false} MeanBelowPeak(samples: seq<Sample>, ts: seq<nat>, tck: real)
    requires samples != [] && tck > 0.0
    requires AllOnTicks(samples, PidsOf(samples), ts) && |ts| == Longest(samples, PidsOf(samples))
    requires StrictlyIncreasing(ts) && CountersGrow(samples, PidsOf(samples))
    ensures AggregateOf(samples, tck).Some?
    ensures AggregateOf(samples, tck).value.cpuPctMean <= AggregateOf(samples, tck).value.cpuPctPeak
  {
    hide Series, RollupOf, Greatest, CpuSeries, Measured, NearestRank, GreatestNat, HostSeries, CountersGrow, StrictlyIncreasing,
         Longest, AllOnTicks;
    assert PidsOf(samples) != [];
    hide PidsOf;
    MeanOfTicks(samples, PidsOf(samples), ts, tck, RollupOf(samples, PidsOf(samples), tck));
  }

  // ----- The mean against the peak, as the sampler ticks -----

  /** The samples are those of a run of the sampler: each process was read on every
      tick, stamped with its millisecond, until it was gone. */
  predicate SampledBy(samples: seq<Sample>, start: nat, ticks: seq<nat>) {
    AllOnTicks(samples, PidsOf(samples), Stamps(start, ticks))
  }

  /** Over every run whose ticks are at most `late`, and any processes read in it with
      counters that never fall, the mean CPU percentage is at most the peak. */
  ghost predicate NeverAbove(interval: nat, late: nat, tck: real)
    requires tck > 0.0
  {
    forall start: nat, polls: seq<nat>, samples: seq<Sample> ::
      Clock(start, polls) && Punctual(start, interval, polls, late) && samples != []
      && SampledBy(samples, start, Polls(start, interval, polls).ticks) && CountersGrow(samples, PidsOf(samples)) ==>
      MeanAtMostPeak(samples, tck)
  }

  predicate MeanAtMostPeak(samples: seq<Sample>, tck: real)
    requires tck > 0.0
  {
    var agg := AggregateOf(samples, tck);
    agg.Some? && agg.value.cpuPctMean <= agg.value.cpuPctPeak
  }

  /** Whenever the lateness of the ticks lets the interval tell them apart, the mean
      of a sampled run never exceeds its peak. */
  lemma {:induction false} SampledMeanBelowPeak(
    start: nat, interval: nat, late: nat, polls: seq<nat>, samples: seq<Sample>, tck: real)
    requires interval > 0 && Distinguishes(interval, late)
    requires Clock(start, polls) && Punctual(start, interval, polls, late)
    requires samples != [] && tck > 0.0 && SampledBy(samples, start, Polls(start, interval, polls).ticks)
    requires CountersGrow(samples, PidsOf(samples))
    ensures MeanAtMostPeak(samples, tck)
  {
    var ms, pids := Stamps(start, Polls(start, interval, polls).ticks), PidsOf(samples);
    StampsDistinct(interval, late);
    assert StrictlyIncreasing(ms);
    LongestFits(samples, pids, ms);
    UpToLongest(samples, pids, ms, Longest(samples, pids));
    MeanBelowPeak(samples, ms[..Longest(samples, pids)], tck);
  }

  lemma {:induction false} UpToLongest(samples: seq<Sample>, pids: seq<nat>, ts: seq<nat>, n: nat)
    requires AllOnTicks(samples, pids, ts) && StrictlyIncreasing(ts) && Longest(samples, pids) <= n <= |ts|
    ensures AllOnTicks(samples, pids, ts[..n]) && StrictlyIncreasing(ts[..n])
  {
    if pids != [] {
      var m := |pids| - 1;
      assert AllOnTicks(samples, pids[..m], ts);
      UpToLongest(samples, pids[..m], ts, n);
      assert OnTicks(Series(samples, pids[m]), ts);
      forall i | 0 <= i < |pids|
        ensures OnTicks(Series(samples, pids[i]), ts[..n])
      {
        assert i < m ==> pids[..m][i] == pids[i];
      }
    }
  }

  function Busy(ms: nat, ticks: nat): Sample {
    Sample(ms, 1, 0, 0, ticks, 0, 0, 0, [], 0, 0)
  }

  /** One process read at the given times, idle until the last of them. */
  function BusyAtEnd(ms: seq<nat>): (s: seq<Sample>)
    ensures |s| == |ms|
  {
    seq(|ms|, i requires 0 <= i < |ms| => Busy(ms[i], if i == |ms| - 1 then 1 else 0))
  }

  lemma {:induction false} LoneProcess(s: seq<Sample>)
    requires s != [] && forall i :: 0 <= i < |s| ==> s[i].pid == 1
    ensures PidsOf(s) == [1] && Series(s, 1) == s
  {
    var n := |s| - 1;
    if n > 0 {
      LoneProcess(s[..n]);
      assert s == s[..n] + [s[n]];
    } else {
      assert PidsOf(s[..0]) == [] && Series(s[..0], 1) == [] && s == [] + [s[0]];
    }
  }

  /** No entry of the board has any CPU share. */
  predicate Idle(b: Board) {
    forall i :: 0 <= i < |b| ==> b[i].cpu == 0.0
  }

  lemma {:induction false} StaysIdle(b: Board, r: Reading)
    requires Idle(b) && r.cpu == 0.0
    ensures Idle(Upsert(b, r))
  {
    if b != [] && r.at > b[0].at {
      StaysIdle(b[1..], r);
    }
  }

  lemma {:induction false} IdleReading(ms: seq<nat>, i: nat, tck: real)
    requires |ms| >= 2 && ms[|ms| - 2] == ms[|ms| - 1] && i < |ms| && tck > 0.0
    ensures ReadingAt(BusyAtEnd(ms), i, tck).cpu == 0.0
  {
    hide Rate;
    if i > 0 {
      RateOfNothing(Monus(ms[i], ms[i - 1]), tck);
      RateOverNothing(1, tck);
    }
  }

  lemma {:induction false} IdleBoard(ms: seq<nat>, n: nat, tck: real)
    requires |ms| >= 2 && ms[|ms| - 2] == ms[|ms| - 1] && n <= |ms| && tck > 0.0
    ensures Idle(AddSeries([], BusyAtEnd(ms), n, tck))
  {
    hide BusyAtEnd, ReadingAt, Upsert;
    if n > 0 {
      IdleBoard(ms, n - 1, tck);
      IdleReading(ms, n - 1, tck);
      StaysIdle(AddSeries([], BusyAtEnd(ms), n - 1, tck), ReadingAt(BusyAtEnd(ms), n - 1, tck));
    }
  }

  lemma {:induction false} IdlePeak(b: Board)
    requires Idle(b)
    ensures Greatest(CpuSeries(Measured(b))) == 0.0
  {
    GreatestBounds(CpuSeries(Measured(b)));
    hide Greatest;
  }

  lemma {:induction false} RateOverNothing(ticks: nat, tck: real)
    requires tck > 0.0
    ensures Rate(ticks, 0, tck) == 0.0
  {}

  lemma {:induction false} MeanOverZeroPeak(s: seq<Sample>, r: Rollup, tck: real)
    requires s != [] && tck > 0.0 && r == RollupOf(s, PidsOf(s), tck)
    requires r.ticks == 1 && r.spanS > 0.0 && Greatest(CpuSeries(Measured(r.board))) == 0.0
    ensures AggregateOf(s, tck).Some?
    ensures AggregateOf(s, tck).value.cpuPctPeak == 0.0 < AggregateOf(s, tck).value.cpuPctMean
  {
    hide *;
    var mean := r.ticks as real / tck / r.spanS * 100.0;
    PositiveMean(r.spanS, tck);
    SummaryFields(s, r, tck, mean, r.ctx as real / r.spanS);
  }

  lemma {:induction false} BusyRollup(ms: seq<nat>, tck: real)
    requires |ms| >= 2 && ms[0] < ms[|ms| - 1] && tck > 0.0
    ensures var s := BusyAtEnd(ms);
            var r := RollupOf(s, [1], tck);
            PidsOf(s) == [1] && r.board == AddSeries([], s, |ms|, tck) && r.ticks == 1 && r.spanS > 0.0
  {
    var s := BusyAtEnd(ms);
    LoneProcess(s);
    assert s[0] == Busy(ms[0], 0) && s[|ms| - 1] == Busy(ms[|ms| - 1], 1);
    assert RollupOf(s, [], tck) == Rollup([], 0, 0, 0.0);
    hide AddSeries, Series, BusyAtEnd;
    assert [1][..0] == [] && RollupOf(s, [1], tck) == AddProcess(RollupOf(s, [], tck), s, tck);
  }

  /** Ticks that share a millisecond hide what was spent between them from the peak
      but not from the mean. */
  lemma {:induction false} MeanAbovePeak(ms: seq<nat>, tck: real)
    requires |ms| >= 2 && ms[0] < ms[|ms| - 2] == ms[|ms| - 1] && tck > 0.0
    ensures var agg := AggregateOf(BusyAtEnd(ms), tck);
            agg.Some? && agg.value.cpuPctPeak == 0.0 < agg.value.cpuPctMean
  {
    hide *;
    var s := BusyAtEnd(ms);
    BusyRollup(ms, tck);
    IdleBoard(ms, |ms|, tck);
    IdlePeak(RollupOf(s, [1], tck).board);
    assert s != [];
    MeanOverZeroPeak(s, RollupOf(s, [1], tck), tck);
  }

  lemma {:induction false} BusyIsSampled(ms: seq<nat>)
    requires ms != []
    ensures var s := BusyAtEnd(ms);
            AllOnTicks(s, PidsOf(s), ms) && CountersGrow(s, PidsOf(s))
  {
    LoneProcess(BusyAtEnd(ms));
    hide PidsOf, Series;
    var s := BusyAtEnd(ms);
    assert OnTicks(s, ms);
    assert NeverFalls(Values(Cpu, s));
  }

  /** A run whose last two ticks share a millisecond gives samples with a mean above
      their peak. */
  lemma {:induction false} SharingRunIsAbove(interval: nat, late: nat, polls: seq<nat>, tck: real)
    requires SharesLast(interval, late, polls) && tck > 0.0
    ensures !NeverAbove(interval, late, tck)
  {
    var ms := Stamps(0, polls);
    var s := BusyAtEnd(ms);
    assert ms[0] < ms[|ms| - 2] == ms[|ms| - 1];
    BusyIsSampled(ms);
    MeanAbovePeak(ms, tck);
    hide BusyAtEnd, Stamps, AggregateOf, PidsOf, AllOnTicks, CountersGrow, Clock, Punctual, Polls;
    assert SampledBy(s, 0, Polls(0, interval, polls).ticks);
    assert s != [] && !MeanAtMostPeak(s, tck);
  }

  /** Exactly when the mean CPU percentage of a sampled run, whatever runs and ticks at
      most `late`, never exceeds the peak. */
  lemma {:induction false} MeanAgainstPeak(interval: nat, late: nat, tck: real)
    requires interval > 0 && tck > 0.0
    ensures NeverAbove(interval, late, tck) <==> Distinguishes(interval, late)
  {
    hide Distinguishes, SharesLast, MeanAtMostPeak;
    if Distinguishes(interval, late) {
      forall start: nat, polls: seq<nat>, samples: seq<Sample> |
        Clock(start, polls) && Punctual(start, interval, polls, late) && samples != []
        && SampledBy(samples, start, Polls(start, interval, polls).ticks) && CountersGrow(samples, PidsOf(samples))
        ensures MeanAtMostPeak(samples, tck)
      {
        SampledMeanBelowPeak(start, interval, late, polls, samples, tck);
      }
    } else {
      var polls := SharingRun(interval, late);
      SharingRunIsAbove(interval, late, polls, tck);
    }
  }

  /** For one, at three ticks a second with one tick late. */
  lemma {:induction false} SampledMeanAbovePeak(tck: real)
    requires tck > 0.0
    ensures var polls, s := [0, 666666000, 666666666], BusyAtEnd([0, 666, 666]);
            && Clock(0, polls) && SampledBy(s, 0, Polls(0, 333333333, polls).ticks) && CountersGrow(s, PidsOf(s))
            && !MeanAtMostPeak(s, tck)
  {
    TicksMayShareMillisecond();
    BusyIsSampled([0, 666, 666]);
    MeanAbovePeak([0, 666, 666], tck);
    hide AggregateOf, PidsOf, Polls, BusyAtEnd, AllOnTicks, CountersGrow;
  }

  lemma {:induction false} PositiveMean(spanS: real, tck: real)
    requires spanS > 0.0 && tck > 0.0
    ensures 1.0 / tck / spanS * 100.0 > 0.0
  {
    var a := 1.0 / tck;
    assert a > 0.0;
    assert a / spanS > 0.0;
  }

  // ----- Nearest-rank percentile -----

  /** The 95th percentile is a sample of the series, and its greatest one exactly
      when the series is shorter than twenty. */
  lemma {:induction false} SmallSeriesYieldMaximum(values: seq<real>)
    requires values != []
    ensures exists k :: 0 <= k < |values| == |Sorted(values)| && NearestRank(values, 0.95) == Sorted(values)[k]
                        && 20 * k < 19 * |values| <= 20 * (k + 1) && (k == |values| - 1 <==> |values| < 20)
  {
    SortedFacts(values);
    var n := |values|;
    var rank := Ceil(n as real * 0.95);
    FloorCeil(n as real * 0.95);
    assert rank as real - 1.0 < 0.95 * n as real <= rank as real;
    assert 20 * (rank - 1) < 19 * n <= 20 * rank;
    assert 1 <= rank <= n;
    var k := rank - 1;
    assert NearestRank(values, 0.95) == Sorted(values)[k];
  }

  /** No percentile of a series exceeds its peak. */
  lemma {:induction false} PercentileBelowPeak(values: seq<real>, p: real)
    ensures NearestRank(values, p) <= Greatest(values)
  {
    GreatestBounds(values);
    if values != [] {
      SortedFacts(values);
      var s := Sorted(values);
      var v := NearestRank(values, p);
      assert v in multiset(s);
    }
  }
}
