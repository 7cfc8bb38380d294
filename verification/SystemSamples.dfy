/** What the roll-up says of the samples themselves: the counters the system reports for
    each process, and nothing in between. */
module SystemSamples {
  import opened Wrappers
  import opened Statistics
  import opened SystemMetrics
  import opened SystemBoard
  import Totals = SystemTotals

  // ----- What all processes use at one time -----

  /** Ticks a process spent from one sample to the next, in user and in kernel mode. */
  function Worked(prev: Sample, cur: Sample): nat {
    Monus(cur.utimeTicks + cur.stimeTicks, prev.utimeTicks + prev.stimeTicks)
  }

  /** Ticks over the time between two samples, as a percentage of one core. */
  function Percent(ticks: nat, prev: Sample, cur: Sample, tck: real): real
    requires tck > 0.0
  {
    if cur.elapsedMs <= prev.elapsedMs then 0.0
    else 100000.0 * ticks as real / (cur.elapsedMs - prev.elapsedMs) as real / tck
  }

  function CpuAt(samples: seq<Sample>, t: nat, tck: real): real
    requires tck > 0.0
  {
    if samples == [] then 0.0
    else
      var front, s := samples[..|samples| - 1], samples[|samples| - 1];
      CpuAt(front, t, tck) +
      if s.elapsedMs != t then 0.0
      else match Previous(front, s.pid) case None => 0.0 case Some(p) => Percent(Worked(p, s), p, s, tck)
  }

  function HotAt(samples: seq<Sample>, t: nat, tck: real): real
    requires tck > 0.0
  {
    if samples == [] then 0.0
    else
      var front, s := samples[..|samples| - 1], samples[|samples| - 1];
      var hot := if s.elapsedMs != t then 0.0
        else match Previous(front, s.pid)
          case None => 0.0
          case Some(p) => Percent(HottestDelta(p.threadTicks, s.threadTicks), p, s, tck);
      var before := HotAt(front, t, tck);
      if before < hot then hot else before
  }

  function RssAt(samples: seq<Sample>, t: nat): nat {
    if samples == [] then 0
    else
      var s := samples[|samples| - 1];
      RssAt(samples[..|samples| - 1], t) + if s.elapsedMs == t then s.rssKib else 0
  }

  function PssAt(samples: seq<Sample>, t: nat): nat {
    if samples == [] then 0
    else
      var s := samples[|samples| - 1];
      PssAt(samples[..|samples| - 1], t) + if s.elapsedMs == t then s.pssKib else 0
  }

  lemma {:induction false} RateIsPercent(ticks: nat, prev: Sample, cur: Sample, tck: real)
    requires tck > 0.0
    ensures Rate(ticks, Monus(cur.elapsedMs, prev.elapsedMs), tck) == Percent(ticks, prev, cur, tck)
  {
    if cur.elapsedMs > prev.elapsedMs {
      var ms := cur.elapsedMs - prev.elapsedMs;
      var w := Totals.Weight(ms, tck);
      Totals.RateIs(ticks, ms, tck);
      TwoQuotients(100000.0 * ticks as real, ms as real, tck);
      hide Rate, Percent, Times;
      Totals.Cancel(Rate(ticks, ms, tck), Percent(ticks, prev, cur, tck), w);
      Totals.Cancel(Percent(ticks, prev, cur, tck), Rate(ticks, ms, tck), w);
    }
  }

  lemma {:induction false} TwoQuotients(a: real, b: real, c: real)
    requires b > 0.0 && c > 0.0
    ensures Times(a / b / c, Times(b, c)) == a
  {
    var q := a / b / c;
    assert q * c == a / b;
    assert (a / b) * b == a;
    assert q * (b * c) == (q * c) * b;
  }

  /** One sample more, at its own time and at any other. */
  lemma {:induction false} AtSnoc(front: seq<Sample>, s: Sample, r: Reading, t: nat, tck: real)
    requires tck > 0.0 && r == ReadingOf(Previous(front, s.pid), s, tck)
    ensures var all, here := front + [s], s.elapsedMs == t;
            && CpuAt(all, t, tck) == CpuAt(front, t, tck) + (if here then r.cpu else 0.0)
            && HotAt(all, t, tck) == Max(HotAt(front, t, tck), if here then r.hot else 0.0)
            && RssAt(all, t) == RssAt(front, t) + (if here then r.rss else 0)
            && PssAt(all, t) == PssAt(front, t) + (if here then r.pss else 0)
  {
    assert (front + [s])[..|front|] == front;
    ReadingIs(Previous(front, s.pid), s, tck);
    hide Percent, HottestDelta, ReadingOf, Previous;
  }

  lemma {:induction false} TakenSnoc(front: seq<Sample>, s: Sample, r: Reading, t: nat, tck: real)
    requires tck > 0.0 && r == ReadingOf(Previous(front, s.pid), s, tck)
    ensures TakenAt(EveryReading(front + [s], tck), t)
         == TakenAt(EveryReading(front, tck), t) + if s.elapsedMs == t then [r] else []
  {
    assert (front + [s])[..|front|] == front;
    var rs := EveryReading(front, tck);
    assert EveryReading(front + [s], tck) == rs + [r] && (rs + [r])[..|rs|] == rs;
    ReadingIs(Previous(front, s.pid), s, tck);
    hide EveryReading, ReadingOf, Previous;
  }

  lemma {:induction false} NotNegative(samples: seq<Sample>, t: nat, tck: real)
    requires tck > 0.0
    ensures HotAt(samples, t, tck) >= 0.0
  {
    if samples != [] {
      hide Percent, HottestDelta, Previous;
      NotNegative(samples[..|samples| - 1], t, tck);
    }
  }

  lemma {:induction false} NothingAt(t: nat, tck: real)
    requires tck > 0.0
    ensures LoadOf(TakenAt(EveryReading([], tck), t)) == Load(CpuAt([], t, tck), HotAt([], t, tck), RssAt([], t), PssAt([], t))
  {}

  /** What the readings of a time add up to, from the samples. */
  lemma {:induction false} LoadAt(samples: seq<Sample>, t: nat, tck: real)
    requires tck > 0.0
    ensures LoadOf(TakenAt(EveryReading(samples, tck), t))
         == Load(CpuAt(samples, t, tck), HotAt(samples, t, tck), RssAt(samples, t), PssAt(samples, t))
  {
    hide LoadOf, EveryReading, ReadingOf, TakenAt, Previous, CpuAt, HotAt, RssAt, PssAt;
    if samples == [] {
      NothingAt(t, tck);
    } else {
      var front, s := samples[..|samples| - 1], samples[|samples| - 1];
      assert samples == front + [s];
      LoadAt(front, t, tck);
      var r := ReadingOf(Previous(front, s.pid), s, tck);
      AtSnoc(front, s, r, t, tck);
      TakenSnoc(front, s, r, t, tck);
      var g := TakenAt(EveryReading(front, tck), t);
      if s.elapsedMs == t {
        LoadSnoc(g, r);
      } else {
        assert g + [] == g;
        NotNegative(front, t, tck);
      }
    }
  }

  lemma {:induction false} ReadingIs(prev: Option<Sample>, s: Sample, tck: real)
    requires tck > 0.0
    ensures var r := ReadingOf(prev, s, tck);
            && r.at == s.elapsedMs && r.rss == s.rssKib && r.pss == s.pssKib
            && (prev.None? ==> r.cpu == r.hot == 0.0)
            && (prev.Some? ==> r.cpu == Percent(Worked(prev.value, s), prev.value, s, tck)
                               && r.hot == Percent(HottestDelta(prev.value.threadTicks, s.threadTicks), prev.value, s, tck))
  {
    hide Rate, Percent, HottestDelta;
    if prev.Some? {
      RateIsPercent(Worked(prev.value, s), prev.value, s, tck);
      RateIsPercent(HottestDelta(prev.value.threadTicks, s.threadTicks), prev.value, s, tck);
    }
  }

  // ----- Peaks and percentiles over the times sampled -----

  /** The greatest of some figures, none of them negative. */
  predicate IsPeak(v: real, xs: seq<real>) {
    v >= 0.0 && (forall x :: x in xs ==> x <= v) && (v in xs || v == 0.0)
  }

  predicate IsGreatest(v: nat, xs: seq<nat>) {
    (forall x :: x in xs ==> x <= v) && (v in xs || v == 0)
  }

  /** One of the figures, with at least 95 in 100 at or below it and fewer below it. */
  predicate IsP95(v: real, xs: seq<real>) {
    if xs == [] then v == 0.0
    else v in xs && 20 * |Statistics.Filter(x => x <= v, xs)| >= 19 * |xs| > 20 * |Statistics.Filter(x => x < v, xs)|
  }

  lemma {:induction false} TwoSides(v: real, xs: seq<real>)
    ensures |Statistics.Filter(x => x <= v, xs)| + |Statistics.Filter(x => x > v, xs)| == |xs|
  {
    if xs != [] {
      TwoSides(v, xs[1..]);
    }
  }

  lemma {:induction false} RankCounts(s: seq<real>, k: nat)
    requires Ascending(s) && k < |s|
    ensures |Statistics.Filter(x => x < s[k], s)| <= k && |Statistics.Filter(x => x <= s[k], s)| >= k + 1
  {
    var v := s[k];
    FilterAtMost(x => x < v, s, 0, k);
    FilterAtMost(x => x > v, s, k + 1, |s| - k - 1);
    TwoSides(v, s);
  }

  lemma {:induction false} NearestRankIsP95(xs: seq<real>)
    ensures IsP95(NearestRank(xs, 0.95), xs)
  {
    if xs != [] {
      Totals.SmallSeriesYieldMaximum(xs);
      SortedFacts(xs);
      var s := Sorted(xs);
      var k :| 0 <= k < |xs| && NearestRank(xs, 0.95) == s[k] && 20 * k < 19 * |xs| <= 20 * (k + 1);
      RankCounts(s, k);
      hide NearestRank, Sorted, Statistics.Filter, Ascending;
      var v := s[k];
      FilterOfPermutation(x => x < v, s, xs);
      FilterOfPermutation(x => x <= v, s, xs);
      assert v in multiset(s);
    }
  }

  lemma {:induction false} GreatestIsPeak(xs: seq<real>)
    ensures IsPeak(Greatest(xs), xs)
  {
    Totals.GreatestBounds(xs);
  }

  lemma {:induction false} GreatestNatIs(xs: seq<nat>)
    ensures IsGreatest(GreatestNat(xs), xs)
  {
    if xs != [] {
      var n := |xs| - 1;
      GreatestNatIs(xs[..n]);
      assert xs == xs[..n] + [xs[n]];
    }
  }

  function CpuOver(samples: seq<Sample>, ts: seq<nat>, tck: real): seq<real>
    requires tck > 0.0
  {
    seq(|ts|, i requires 0 <= i < |ts| => CpuAt(samples, ts[i], tck))
  }

  function HotOver(samples: seq<Sample>, ts: seq<nat>, tck: real): seq<real>
    requires tck > 0.0
  {
    seq(|ts|, i requires 0 <= i < |ts| => HotAt(samples, ts[i], tck))
  }

  function RssOver(samples: seq<Sample>, ts: seq<nat>): seq<nat> {
    seq(|ts|, i requires 0 <= i < |ts| => RssAt(samples, ts[i]))
  }

  function PssOver(samples: seq<Sample>, ts: seq<nat>): seq<nat> {
    seq(|ts|, i requires 0 <= i < |ts| => PssAt(samples, ts[i]))
  }

  /** The times at which some process was read, in order. */
  ghost predicate TimesOf(samples: seq<Sample>, ts: seq<nat>) {
    && (forall i, j :: 0 <= i < j < |ts| ==> ts[i] < ts[j])
    && (forall t: nat :: t in ts <==> ReadAt(samples, t))
  }

  function At(b: Board): seq<nat> {
    seq(|b|, i requires 0 <= i < |b| => b[i].at)
  }

  lemma {:induction false} LookupOfEntry(b: Board, i: nat)
    requires Increasing(b) && i < |b|
    ensures Lookup(b, b[i].at) == Some(b[i])
  {
    if i > 0 {
      LookupOfEntry(b[1..], i - 1);
    }
  }

  lemma {:induction false} LookupFinds(b: Board, t: nat)
    ensures Lookup(b, t).Some? ==> exists i :: 0 <= i < |b| && b[i].at == t
  {
    if b != [] && b[0].at != t {
      LookupFinds(b[1..], t);
      if Lookup(b[1..], t).Some? {
        var i :| 0 <= i < |b[1..]| && b[1..][i].at == t;
        assert b[i + 1].at == t;
      }
    }
  }

  lemma {:induction false} EntryIsLoad(samples: seq<Sample>, b: Board, tck: real, i: nat)
    requires tck > 0.0 && b == RollupOf(samples, PidsOf(samples), tck).board && i < |b|
    ensures b[i].cpu == CpuAt(samples, b[i].at, tck) && b[i].hot == HotAt(samples, b[i].at, tck)
    ensures b[i].rss == RssAt(samples, b[i].at) && b[i].pss == PssAt(samples, b[i].at)
  {
    BoardGroups(samples, tck, b[i].at);
    hide RollupOf, PidsOf, LoadOf, TakenAt, EveryReading, CpuAt, HotAt, RssAt, PssAt, Increasing, Lookup, ReadAt, HostAt;
    LookupOfEntry(b, i);
    LoadAt(samples, b[i].at, tck);
  }

  lemma {:induction false} BoardTimes(samples: seq<Sample>, b: Board, tck: real)
    requires tck > 0.0 && b == RollupOf(samples, PidsOf(samples), tck).board
    ensures TimesOf(samples, At(b))
  {
    hide *;
    BoardGroups(samples, tck, 0);
    forall t: nat
      ensures t in At(b) <==> ReadAt(samples, t)
    {
      BoardGroups(samples, tck, t);
      LookupIsAt(b, t);
    }
    AtIncreases(b);
    TimesAre(samples, At(b));
  }

  lemma {:induction false} LookupIsAt(b: Board, t: nat)
    requires Increasing(b)
    ensures Lookup(b, t).Some? <==> t in At(b)
  {
    hide Increasing, Lookup;
    LookupFinds(b, t);
    if t in At(b) {
      var i :| 0 <= i < |b| && At(b)[i] == t;
      LookupOfEntry(b, i);
    }
    if Lookup(b, t).Some? {
      var i :| 0 <= i < |b| && b[i].at == t;
      assert At(b)[i] == t;
    }
  }

  lemma {:induction false} AtIncreases(b: Board)
    requires Increasing(b)
    ensures forall i, j :: 0 <= i < j < |At(b)| ==> At(b)[i] < At(b)[j]
  {}

  lemma {:induction false} TimesAre(samples: seq<Sample>, ts: seq<nat>)
    requires forall i, j :: 0 <= i < j < |ts| ==> ts[i] < ts[j]
    requires forall t: nat :: t in ts <==> ReadAt(samples, t)
    ensures TimesOf(samples, ts)
  {
    hide ReadAt;
  }

  /** All times but the first, unless there is no other. */
  function Later(ts: seq<nat>): seq<nat> {
    if |ts| > 1 then ts[1..] else ts
  }

  lemma {:induction false} SeriesOver(samples: seq<Sample>, b: Board, tck: real)
    requires tck > 0.0 && b == RollupOf(samples, PidsOf(samples), tck).board
    ensures CpuSeries(Measured(b)) == CpuOver(samples, Later(At(b)), tck)
    ensures HotSeries(Measured(b)) == HotOver(samples, Later(At(b)), tck)
    ensures RssSeries(b) == RssOver(samples, At(b)) && PssSeries(b) == PssOver(samples, At(b))
  {
    hide RollupOf, PidsOf, CpuAt, HotAt, RssAt, PssAt;
    forall i | 0 <= i < |b|
      ensures b[i].cpu == CpuAt(samples, b[i].at, tck) && b[i].hot == HotAt(samples, b[i].at, tck)
      ensures b[i].rss == RssAt(samples, b[i].at) && b[i].pss == PssAt(samples, b[i].at)
    {
      EntryIsLoad(samples, b, tck, i);
    }
    var m := Measured(b);
    assert forall i :: 0 <= i < |m| ==> Later(At(b))[i] == m[i].at;
    assert forall i :: 0 <= i < |m| ==> m[i] == b[if |b| > 1 then i + 1 else i];
  }

  /** The peaks and the percentiles, from the samples: over all times but the first, of
      what all processes used of the cores and of what the hottest thread did; and over
      all times, of the memory that all of them held. */
  lemma {:induction false} PeaksOfSamples(samples: seq<Sample>, tck: real) returns (ts: seq<nat>)
    requires samples != [] && tck > 0.0
    ensures TimesOf(samples, ts)
    ensures AggregateOf(samples, tck).Some? && var agg := AggregateOf(samples, tck).value;
            && IsPeak(agg.cpuPctPeak, CpuOver(samples, Later(ts), tck)) && IsP95(agg.cpuPctP95, CpuOver(samples, Later(ts), tck))
            && IsPeak(agg.hotPeak, HotOver(samples, Later(ts), tck)) && IsP95(agg.hotP95, HotOver(samples, Later(ts), tck))
            && IsGreatest(agg.rssPeakKib, RssOver(samples, ts)) && IsGreatest(agg.pssPeakKib, PssOver(samples, ts))
            && IsP95(agg.hostBusyFracP95, HostSeries(RollupOf(samples, PidsOf(samples), tck).board))
  {
    var b := RollupOf(samples, PidsOf(samples), tck).board;
    AggregateFields(samples, tck, b);
    hide *;
    ts := At(b);
    BoardTimes(samples, b, tck);
    SeriesOver(samples, b, tck);
    GreatestIsPeak(CpuSeries(Measured(b)));
    GreatestIsPeak(HotSeries(Measured(b)));
    NearestRankIsP95(CpuSeries(Measured(b)));
    NearestRankIsP95(HotSeries(Measured(b)));
    NearestRankIsP95(HostSeries(b));
    GreatestNatIs(RssSeries(b));
    GreatestNatIs(PssSeries(b));
  }

  lemma {:induction false} AggregateFields(samples: seq<Sample>, tck: real, b: Board)
    requires samples != [] && tck > 0.0 && b == RollupOf(samples, PidsOf(samples), tck).board
    ensures AggregateOf(samples, tck).Some? && var agg := AggregateOf(samples, tck).value;
            && agg.cpuPctPeak == Greatest(CpuSeries(Measured(b))) && agg.cpuPctP95 == NearestRank(CpuSeries(Measured(b)), 0.95)
            && agg.hotPeak == Greatest(HotSeries(Measured(b))) && agg.hotP95 == NearestRank(HotSeries(Measured(b)), 0.95)
            && agg.hostBusyFracP95 == NearestRank(HostSeries(b), 0.95)
            && agg.rssPeakKib == GreatestNat(RssSeries(b)) && agg.pssPeakKib == GreatestNat(PssSeries(b))
  {
    hide PidsOf, RollupOf, Measured, Greatest, GreatestNat, NearestRank, CpuSeries, HotSeries, RssSeries, PssSeries, HostSeries;
  }

  // ----- Exact totals -----

  /** A counter's first-to-last rise over the samples of one process. */
  function Risen(field: Sample -> nat, s: seq<Sample>): nat {
    if s == [] then 0 else Monus(field(s[|s| - 1]), field(s[0]))
  }

  function RisenOver(field: Sample -> nat, samples: seq<Sample>, pids: seq<nat>): nat {
    if pids == [] then 0
    else RisenOver(field, samples, pids[..|pids| - 1]) + Risen(field, Series(samples, pids[|pids| - 1]))
  }

  /** No process's counter ends below where it began. */
  predicate Grew(field: Sample -> nat, samples: seq<Sample>, pids: seq<nat>) {
    forall i :: 0 <= i < |pids| ==> var s := Series(samples, pids[i]); s != [] ==> field(s[0]) <= field(s[|s| - 1])
  }

  lemma {:induction false} RisesAdd(
    sum: Sample -> nat, a: Sample -> nat, b: Sample -> nat, samples: seq<Sample>, pids: seq<nat>)
    requires (forall s: Sample :: sum(s) == a(s) + b(s)) && Grew(a, samples, pids) && Grew(b, samples, pids)
    ensures RisenOver(sum, samples, pids) == RisenOver(a, samples, pids) + RisenOver(b, samples, pids)
    decreases pids
  {
    if pids != [] {
      hide Series;
      var n := |pids| - 1;
      assert forall i :: 0 <= i < n ==> pids[..n][i] == pids[i];
      RisesAdd(sum, a, b, samples, pids[..n]);
    }
  }

  function User(): Sample -> nat {
    (s: Sample) => s.utimeTicks
  }

  function Kernel(): Sample -> nat {
    (s: Sample) => s.stimeTicks
  }

  function Voluntary(): Sample -> nat {
    (s: Sample) => s.voluntaryCtxt
  }

  function Involuntary(): Sample -> nat {
    (s: Sample) => s.nonvoluntaryCtxt
  }

  function Time(): Sample -> nat {
    (s: Sample) => s.elapsedMs
  }

  /** How long each process was seen, in milliseconds. */
  function Lives(samples: seq<Sample>, pids: seq<nat>): seq<nat> {
    seq(|pids|, i requires 0 <= i < |pids| => Risen(Time(), Series(samples, pids[i])))
  }

  function Work(): Sample -> nat {
    (s: Sample) => s.utimeTicks + s.stimeTicks
  }

  function Switches(): Sample -> nat {
    (s: Sample) => s.voluntaryCtxt + s.nonvoluntaryCtxt
  }

  lemma {:induction false} RollupIs(samples: seq<Sample>, pids: seq<nat>, tck: real)
    requires tck > 0.0
    ensures var r := RollupOf(samples, pids, tck);
            && r.ticks == RisenOver(Work(), samples, pids) && r.ctx == RisenOver(Switches(), samples, pids)
            && exists ms: nat :: r.spanS == ms as real / 1000.0 && IsGreatest(ms, Lives(samples, pids))
  {
    hide AddSeries, Series, IsGreatest, Risen, Max;
    if pids == [] {
      NoLives(samples, pids);
    } else {
      var n := |pids| - 1;
      RollupIs(samples, pids[..n], tck);
      ProcessAdds(RollupOf(samples, pids[..n], tck), Series(samples, pids[n]), tck);
      hide AddProcess;
      var ms: nat :| RollupOf(samples, pids[..n], tck).spanS == ms as real / 1000.0 && IsGreatest(ms, Lives(samples, pids[..n]));
      var life := Risen(Time(), Series(samples, pids[n]));
      assert Lives(samples, pids) == Lives(samples, pids[..n]) + [life];
      LongerLife(ms, life, Lives(samples, pids[..n]));
    }
  }

  lemma {:induction false} NoLives(samples: seq<Sample>, pids: seq<nat>)
    requires pids == []
    ensures IsGreatest(0, Lives(samples, pids))
  {}

  lemma {:induction false} ProcessAdds(acc: Rollup, s: seq<Sample>, tck: real)
    requires tck > 0.0 && acc.spanS >= 0.0
    ensures var r := AddProcess(acc, s, tck);
            && r.ticks == acc.ticks + Risen(Work(), s) && r.ctx == acc.ctx + Risen(Switches(), s)
            && r.spanS == Max(acc.spanS, Risen(Time(), s) as real / 1000.0)
  {
    hide AddSeries;
  }

  lemma {:induction false} LongerLife(ms: nat, life: nat, lives: seq<nat>)
    requires IsGreatest(ms, lives)
    ensures IsGreatest(if ms < life then life else ms, lives + [life])
    ensures Max(ms as real / 1000.0, life as real / 1000.0) == (if ms < life then life else ms) as real / 1000.0
  {}

  /** The exact totals, from the counters as they were read: first to last, over all
      processes, with the means over the longest life. */
  lemma {:induction false} TotalsOfSamples(samples: seq<Sample>, tck: real) returns (ms: nat)
    requires samples != [] && tck > 0.0
    ensures AggregateOf(samples, tck).Some? && var agg, pids := AggregateOf(samples, tck).value, PidsOf(samples);
            && agg.nPids == |pids| && agg.windowS == ms as real / 1000.0 && IsGreatest(ms, Lives(samples, pids))
            && Times(agg.cpuSecondsTotal, tck) == RisenOver(Work(), samples, pids) as real
            && agg.ctxTotal == RisenOver(Switches(), samples, pids)
            && if ms == 0 then agg.cpuPctMean == agg.ctxPerS == 0.0
               else Times(agg.cpuPctMean, agg.windowS) == 100.0 * agg.cpuSecondsTotal
                    && Times(agg.ctxPerS, agg.windowS) == agg.ctxTotal as real
  {
    var r := RollupOf(samples, PidsOf(samples), tck);
    RollupIs(samples, PidsOf(samples), tck);
    ms :| r.spanS == ms as real / 1000.0 && IsGreatest(ms, Lives(samples, PidsOf(samples)));
    TotalFields(samples, tck, r);
    Exact(r, tck);
    hide *;
  }

  lemma {:induction false} TotalFields(samples: seq<Sample>, tck: real, r: Rollup)
    requires samples != [] && tck > 0.0 && r == RollupOf(samples, PidsOf(samples), tck)
    ensures AggregateOf(samples, tck).Some? && var agg := AggregateOf(samples, tck).value;
            && agg.nPids == |PidsOf(samples)| && agg.windowS == r.spanS && agg.ctxTotal == r.ctx
            && agg.cpuSecondsTotal == r.ticks as real / tck
            && agg.cpuPctMean == (if r.spanS > 0.0 then r.ticks as real / tck / r.spanS * 100.0 else 0.0)
            && agg.ctxPerS == (if r.spanS > 0.0 then r.ctx as real / r.spanS else 0.0)
  {
    hide PidsOf, RollupOf, Measured, Greatest, GreatestNat, NearestRank, CpuSeries, HotSeries, RssSeries, PssSeries, HostSeries;
  }

  lemma {:induction false} Exact(r: Rollup, tck: real)
    requires tck > 0.0
    ensures Times(r.ticks as real / tck, tck) == r.ticks as real
    ensures r.spanS > 0.0 ==> Times(r.ticks as real / tck / r.spanS * 100.0, r.spanS) == 100.0 * (r.ticks as real / tck)
                              && Times(r.ctx as real / r.spanS, r.spanS) == r.ctx as real
  {
    var secs := r.ticks as real / tck;
    if r.spanS > 0.0 {
      var m := secs / r.spanS;
      assert m * r.spanS == secs;
      assert (m * 100.0) * r.spanS == 100.0 * (m * r.spanS);
    }
  }

  /** Where no counter ends below where it began, CPU time is user time and system time,
      and context switches are the voluntary and the others. */
  lemma {:induction false} TotalsByMode(samples: seq<Sample>, tck: real)
    requires samples != [] && tck > 0.0
    ensures AggregateOf(samples, tck).Some? && var agg, pids := AggregateOf(samples, tck).value, PidsOf(samples);
            && (Grew(User(), samples, pids) && Grew(Kernel(), samples, pids) ==>
                  Times(agg.cpuSecondsTotal, tck) ==
                  (RisenOver(User(), samples, pids) + RisenOver(Kernel(), samples, pids)) as real)
            && (Grew(Voluntary(), samples, pids) && Grew(Involuntary(), samples, pids) ==>
                  agg.ctxTotal == RisenOver(Voluntary(), samples, pids) + RisenOver(Involuntary(), samples, pids))
  {
    hide *;
    var ms := TotalsOfSamples(samples, tck);
    WorkSplits(samples, PidsOf(samples));
    SwitchesSplit(samples, PidsOf(samples));
  }

  lemma {:induction false} WorkSplits(samples: seq<Sample>, pids: seq<nat>)
    ensures Grew(User(), samples, pids) && Grew(Kernel(), samples, pids) ==>
              RisenOver(Work(), samples, pids) == RisenOver(User(), samples, pids) + RisenOver(Kernel(), samples, pids)
  {
    hide RisenOver, Grew;
    if Grew(User(), samples, pids) && Grew(Kernel(), samples, pids) {
      RisesAdd(Work(), User(), Kernel(), samples, pids);
    }
  }

  lemma {:induction false} SwitchesSplit(samples: seq<Sample>, pids: seq<nat>)
    ensures Grew(Voluntary(), samples, pids) && Grew(Involuntary(), samples, pids) ==>
              RisenOver(Switches(), samples, pids) ==
              RisenOver(Voluntary(), samples, pids) + RisenOver(Involuntary(), samples, pids)
  {
    hide RisenOver, Grew;
    if Grew(Voluntary(), samples, pids) && Grew(Involuntary(), samples, pids) {
      RisesAdd(Switches(), Voluntary(), Involuntary(), samples, pids);
    }
  }

  // ----- Modes do not matter -----

  /** Two readings that differ at most in how ticks are split between the modes, and
      switches between their kinds. */
  predicate Alike(a: Sample, b: Sample) {
    && a.utimeTicks + a.stimeTicks == b.utimeTicks + b.stimeTicks
    && a.voluntaryCtxt + a.nonvoluntaryCtxt == b.voluntaryCtxt + b.nonvoluntaryCtxt
    && a == b.(utimeTicks := a.utimeTicks, stimeTicks := a.stimeTicks, voluntaryCtxt := a.voluntaryCtxt,
               nonvoluntaryCtxt := a.nonvoluntaryCtxt)
  }

  predicate AllAlike(a: seq<Sample>, b: seq<Sample>) {
    |a| == |b| && forall i :: 0 <= i < |a| ==> Alike(a[i], b[i])
  }

  lemma {:induction false} AlikeFront(a: seq<Sample>, b: seq<Sample>)
    requires AllAlike(a, b) && a != []
    ensures AllAlike(a[..|a| - 1], b[..|b| - 1]) && Alike(a[|a| - 1], b[|b| - 1])
  {}

  lemma {:induction false} AlikeSnoc(a: seq<Sample>, b: seq<Sample>, x: Sample, y: Sample)
    requires AllAlike(a, b) && Alike(x, y)
    ensures AllAlike(a + [x], b + [y]) && x.pid == y.pid
  {}

  lemma {:induction false} AlikeSeries(a: seq<Sample>, b: seq<Sample>, pid: nat)
    requires AllAlike(a, b)
    ensures AllAlike(Series(a, pid), Series(b, pid)) && PidsOf(a) == PidsOf(b)
  {
    assert |a| == |b| && AllAlike([], []);
    hide AllAlike, Alike;
    if a != [] {
      AlikeFront(a, b);
      AlikeSeries(a[..|a| - 1], b[..|b| - 1], pid);
      AlikeSnoc(Series(a[..|a| - 1], pid), Series(b[..|b| - 1], pid), a[|a| - 1], b[|b| - 1]);
    }
  }

  lemma {:induction false} AlikeReadings(x: seq<Sample>, y: seq<Sample>, i: nat, tck: real)
    requires AllAlike(x, y) && i < |x| && tck > 0.0
    ensures ReadingAt(x, i, tck) == ReadingAt(y, i, tck)
  {
    hide Rate, HottestDelta;
    assert Alike(x[i], y[i]) && (i > 0 ==> Alike(x[i - 1], y[i - 1]));
  }

  lemma {:induction false} AlikeBoards(board: Board, x: seq<Sample>, y: seq<Sample>, n: nat, tck: real)
    requires AllAlike(x, y) && n <= |x| && tck > 0.0
    ensures AddSeries(board, x, n, tck) == AddSeries(board, y, n, tck)
  {
    hide ReadingAt, Upsert, AllAlike;
    if n > 0 {
      AlikeBoards(board, x, y, n - 1, tck);
      AlikeReadings(x, y, n - 1, tck);
    }
  }

  lemma {:induction false} AlikeProcess(acc: Rollup, x: seq<Sample>, y: seq<Sample>, tck: real)
    requires AllAlike(x, y) && tck > 0.0
    ensures AddProcess(acc, x, tck) == AddProcess(acc, y, tck)
  {
    AlikeBoards(acc.board, x, y, |x|, tck);
    hide AddSeries;
    if x != [] {
      assert Alike(x[0], y[0]) && Alike(x[|x| - 1], y[|x| - 1]);
    }
  }

  lemma {:induction false} AlikeRollups(a: seq<Sample>, b: seq<Sample>, pids: seq<nat>, tck: real)
    requires AllAlike(a, b) && tck > 0.0
    ensures RollupOf(a, pids, tck) == RollupOf(b, pids, tck)
    decreases pids
  {
    if pids != [] {
      hide AddProcess, AllAlike;
      AlikeRollups(a, b, pids[..|pids| - 1], tck);
      AlikeSeries(a, b, pids[|pids| - 1]);
      AlikeProcess(RollupOf(a, pids[..|pids| - 1], tck), Series(a, pids[|pids| - 1]), Series(b, pids[|pids| - 1]), tck);
    }
  }

  /** Ticks moved between user and kernel mode, or switches between voluntary and not,
      change nothing in the roll-up. */
  lemma {:induction false} ModesDoNotMatter(a: seq<Sample>, b: seq<Sample>, tck: real)
    requires AllAlike(a, b) && tck > 0.0
    ensures AggregateOf(a, tck) == AggregateOf(b, tck)
  {
    AlikeSeries(a, b, 0);
    AlikeRollups(a, b, PidsOf(a), tck);
    assert a == [] <==> b == [];
    hide RollupOf, PidsOf, AllAlike, Summarise;
  }
}
