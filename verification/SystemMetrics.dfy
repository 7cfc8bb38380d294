/** The roll-up of a per-process sample series: exact first-to-last totals beside
    a per-tick series. Counter values, time stamps and the tick length `tck` are
    inputs; floating point is real. */
module SystemMetrics {
  import opened Wrappers
  import opened Statistics

  datatype Sample = Sample(
    elapsedMs: nat, pid: nat, rssKib: nat, pssKib: nat, utimeTicks: nat, stimeTicks: nat, voluntaryCtxt: nat,
    nonvoluntaryCtxt: nat, threadTicks: seq<(nat, nat)>, hostBusyTicks: nat, hostTotalTicks: nat)
  {
    function Cpu(): nat {
      utimeTicks + stimeTicks
    }

    function Ctxt(): nat {
      voluntaryCtxt + nonvoluntaryCtxt
    }
  }

  function Max(a: real, b: real): real {
    if a < b then b else a
  }

  function MaxNat(a: nat, b: nat): nat {
    if a < b then b else a
  }

  // ----- Percentages over one interval -----

  /** Ticks spent over an interval of `ms` milliseconds, as a percentage of one core. */
  function Rate(ticks: nat, ms: nat, tck: real): real
    requires tck > 0.0
  {
    var dt := ms as real / 1000.0;
    if dt <= 0.0 then 0.0 else ticks as real / tck / dt * 100.0
  }

  function CpuPercent(prev: Sample, cur: Sample, tck: real): real
    requires tck > 0.0
  {
    Rate(Monus(cur.Cpu(), prev.Cpu()), Monus(cur.elapsedMs, prev.elapsedMs), tck)
  }

  /** The first entry recorded for a thread. */
  function Find(threads: seq<(nat, nat)>, tid: nat): Option<nat> {
    if threads == [] then None
    else if threads[0].0 == tid then Some(threads[0].1)
    else Find(threads[1..], tid)
  }

  function HottestDelta(prev: seq<(nat, nat)>, cur: seq<(nat, nat)>): nat {
    if cur == [] then 0
    else
      var (tid, ticks) := cur[|cur| - 1];
      var hottest := HottestDelta(prev, cur[..|cur| - 1]);
      match Find(prev, tid)
      case Some(before) => MaxNat(hottest, Monus(ticks, before))
      case None => hottest
  }

  function HotThreadPercent(prev: Sample, cur: Sample, tck: real): real
    requires tck > 0.0
  {
    Rate(HottestDelta(prev.threadTicks, cur.threadTicks), Monus(cur.elapsedMs, prev.elapsedMs), tck)
  }

  /** The hottest delta bounds the delta of every thread present in both samples
      and, unless it is zero, is one of them: a thread seen once counts for nothing. */
  lemma {:induction false} HottestIsAttained(prev: seq<(nat, nat)>, cur: seq<(nat, nat)>)
    ensures forall i :: 0 <= i < |cur| && Find(prev, cur[i].0).Some? ==>
              Monus(cur[i].1, Find(prev, cur[i].0).value) <= HottestDelta(prev, cur)
    ensures HottestDelta(prev, cur) != 0 ==>
              (exists i :: 0 <= i < |cur| && Find(prev, cur[i].0).Some?
                        && HottestDelta(prev, cur) == Monus(cur[i].1, Find(prev, cur[i].0).value))
  {
    if cur != [] {
      var n := |cur| - 1;
      var front := cur[..n];
      HottestIsAttained(prev, front);
      assert forall i :: 0 <= i < n ==> front[i] == cur[i];
      var hot := HottestDelta(prev, cur);
      if hot != 0 && hot == HottestDelta(prev, front) {
        var i :| 0 <= i < n && Find(prev, front[i].0).Some? && hot == Monus(front[i].1, Find(prev, front[i].0).value);
        assert cur[i] == front[i];
      }
    }
  }

  // ----- Per-tick board -----

  /** What one sample adds to the tick it belongs to. */
  datatype Reading = Reading(at: nat, cpu: real, hot: real, rss: nat, pss: nat, host: (nat, nat))

  datatype Tick = Tick(at: nat, cpu: real, hot: real, rss: nat, pss: nat, host: (nat, nat)) {
    /** Percentages and memory add up over processes, the hottest thread is the
        greatest, and the first host reading of a tick stands. */
    function Add(r: Reading): Tick {
      Tick(at, cpu + r.cpu, Max(hot, r.hot), rss + r.rss, pss + r.pss, host)
    }
  }

  function Open(r: Reading): Tick {
    Tick(r.at, 0.0, 0.0, 0, 0, r.host).Add(r)
  }

  function ReadingAt(series: seq<Sample>, i: nat, tck: real): Reading
    requires i < |series| && tck > 0.0
  {
    var s := series[i];
    var host := (s.hostBusyTicks, s.hostTotalTicks);
    if i == 0 then Reading(s.elapsedMs, 0.0, 0.0, s.rssKib, s.pssKib, host)
    else
      var p := series[i - 1];
      Reading(s.elapsedMs, CpuPercent(p, s, tck), HotThreadPercent(p, s, tck), s.rssKib, s.pssKib, host)
  }

  /** The ticks in time order, one per `elapsed_ms`: the source's
      ordered maps, which share their keys, as one list of entries. */
  type Board = seq<Tick>

  function Upsert(b: Board, r: Reading): Board {
    if b == [] || r.at < b[0].at then [Open(r)] + b
    else if r.at == b[0].at then [b[0].Add(r)] + b[1..]
    else [b[0]] + Upsert(b[1..], r)
  }

  function AddSeries(b: Board, series: seq<Sample>, n: nat, tck: real): Board
    requires n <= |series| && tck > 0.0
  {
    if n == 0 then b else Upsert(AddSeries(b, series, n - 1, tck), ReadingAt(series, n - 1, tck))
  }

  // ----- Processes and exact totals -----

  /** The distinct processes, in first-seen order. */
  function PidsOf(samples: seq<Sample>): seq<nat> {
    if samples == [] then []
    else
      var pids, pid := PidsOf(samples[..|samples| - 1]), samples[|samples| - 1].pid;
      if pid in pids then pids else pids + [pid]
  }

  function Series(samples: seq<Sample>, pid: nat): seq<Sample> {
    if samples == [] then []
    else
      var front, last := Series(samples[..|samples| - 1], pid), samples[|samples| - 1];
      if last.pid == pid then front + [last] else front
  }

  datatype Rollup = Rollup(board: Board, ctx: nat, ticks: nat, spanS: real)

  function AddProcess(acc: Rollup, series: seq<Sample>, tck: real): Rollup
    requires tck > 0.0
  {
    var board := AddSeries(acc.board, series, |series|, tck);
    if series == [] then acc.(board := board)
    else
      var first, last := series[0], series[|series| - 1];
      Rollup(board, acc.ctx + Monus(last.Ctxt(), first.Ctxt()), acc.ticks + Monus(last.Cpu(), first.Cpu()),
             Max(acc.spanS, Monus(last.elapsedMs, first.elapsedMs) as real / 1000.0))
  }

  function RollupOf(samples: seq<Sample>, pids: seq<nat>, tck: real): Rollup
    requires tck > 0.0
  {
    if pids == [] then Rollup([], 0, 0, 0.0)
    else AddProcess(RollupOf(samples, pids[..|pids| - 1], tck), Series(samples, pids[|pids| - 1]), tck)
  }

  // ----- The summary -----

  datatype SysAgg = SysAgg(
    nPids: nat, cpuPctPeak: real, cpuPctMean: real, cpuPctP95: real, hotPeak: real, hotP95: real, hostBusyFracP95: real,
    rssPeakKib: nat, pssPeakKib: nat, ctxPerS: real, cpuSecondsTotal: real, ctxTotal: nat, windowS: real)

  /** The first tick has no earlier sample to measure against. */
  function Measured(b: Board): Board {
    if |b| > 1 then b[1..] else b
  }

  function Greatest(xs: seq<real>): real {
    if xs == [] then 0.0 else Max(Greatest(xs[..|xs| - 1]), xs[|xs| - 1])
  }

  function GreatestNat(xs: seq<nat>): nat {
    if xs == [] then 0 else MaxNat(GreatestNat(xs[..|xs| - 1]), xs[|xs| - 1])
  }

  function CpuSeries(b: Board): seq<real> {
    seq(|b|, i requires 0 <= i < |b| => b[i].cpu)
  }

  function HotSeries(b: Board): seq<real> {
    seq(|b|, i requires 0 <= i < |b| => b[i].hot)
  }

  function RssSeries(b: Board): seq<nat> {
    seq(|b|, i requires 0 <= i < |b| => b[i].rss)
  }

  function PssSeries(b: Board): seq<nat> {
    seq(|b|, i requires 0 <= i < |b| => b[i].pss)
  }

  /** Busy fractions of the host between consecutive ticks; a stalled total is skipped. */
  function HostSeries(b: Board): seq<real> {
    if |b| < 2 then []
    else
      var n := |b| - 1;
      var prev, cur := b[n - 1].host, b[n].host;
      var dtotal := Monus(cur.1, prev.1);
      HostSeries(b[..n]) + if dtotal > 0 then [Monus(cur.0, prev.0) as real / dtotal as real] else []
  }

  function Clamp01(p: real): real {
    if p < 0.0 then 0.0 else if p > 1.0 then 1.0 else p
  }

  /** The nearest-rank percentile. */
  function NearestRank(values: seq<real>, p: real): real {
    if values == [] then 0.0
    else
      SortedFacts(values);
      var n := |values|;
      var rank := Ceil(n as real * Clamp01(p));
      var i := if rank - 1 < 0 then 0 else rank - 1;
      Sorted(values)[if i < n - 1 then i else n - 1]
  }

  function Summarise(r: Rollup, nPids: nat, tck: real): SysAgg
    requires tck > 0.0
  {
    var measured := Measured(r.board);
    var cpuSeconds := r.ticks as real / tck;
    SysAgg(
      nPids, Greatest(CpuSeries(measured)), if r.spanS > 0.0 then cpuSeconds / r.spanS * 100.0 else 0.0,
      NearestRank(CpuSeries(measured), 0.95), Greatest(HotSeries(measured)), NearestRank(HotSeries(measured), 0.95),
      NearestRank(HostSeries(r.board), 0.95), GreatestNat(RssSeries(r.board)), GreatestNat(PssSeries(r.board)),
      if r.spanS > 0.0 then r.ctx as real / r.spanS else 0.0, cpuSeconds, r.ctx, r.spanS)
  }

  function AggregateOf(samples: seq<Sample>, tck: real): Option<SysAgg>
    requires tck > 0.0
  {
    if samples == [] then None
    else Some(Summarise(RollupOf(samples, PidsOf(samples), tck), |PidsOf(samples)|, tck))
  }

  method Filter(samples: seq<Sample>, pid: nat) returns (series: seq<Sample>)
    ensures series == Series(samples, pid)
  {
    series := [];
    for i := 0 to |samples|
      invariant series == Series(samples[..i], pid)
    {
      assert samples[..i + 1][..i] == samples[..i];
      if samples[i].pid == pid {
        series := series + [samples[i]];
      }
    }
    assert samples[..|samples|] == samples;
  }

  method Pids(samples: seq<Sample>) returns (pids: seq<nat>)
    ensures pids == PidsOf(samples)
  {
    pids := [];
    for i := 0 to |samples|
      invariant pids == PidsOf(samples[..i])
    {
      assert samples[..i + 1][..i] == samples[..i];
      if samples[i].pid !in pids {
        pids := pids + [samples[i].pid];
      }
    }
    assert samples[..|samples|] == samples;
  }

  /** The pass over one process: its readings go onto the board, each against the
      sample before it. */
  method Post(board: Board, series: seq<Sample>, tck: real) returns (b: Board)
    requires tck > 0.0
    ensures b == AddSeries(board, series, |series|, tck)
  {
    b := board;
    var prev: Option<Sample> := None;
    for i := 0 to |series|
      invariant b == AddSeries(board, series, i, tck)
      invariant prev == if i == 0 then None else Some(series[i - 1])
    {
      var s := series[i];
      var cpu := if prev.Some? then CpuPercent(prev.value, s, tck) else 0.0;
      var hot := if prev.Some? then HotThreadPercent(prev.value, s, tck) else 0.0;
      b := Upsert(b, Reading(s.elapsedMs, cpu, hot, s.rssKib, s.pssKib, (s.hostBusyTicks, s.hostTotalTicks)));
      prev := Some(s);
    }
  }

  method Peaks(measured: Board) returns (peak: real, hotPeak: real, cpuSeries: seq<real>, hotSeries: seq<real>)
    ensures cpuSeries == CpuSeries(measured) && hotSeries == HotSeries(measured)
    ensures peak == Greatest(cpuSeries) && hotPeak == Greatest(hotSeries)
  {
    peak, hotPeak, cpuSeries, hotSeries := 0.0, 0.0, [], [];
    for i := 0 to |measured|
      invariant cpuSeries == CpuSeries(measured[..i]) && hotSeries == HotSeries(measured[..i])
      invariant peak == Greatest(cpuSeries) && hotPeak == Greatest(hotSeries)
    {
      var t := measured[i];
      peak, hotPeak := Max(peak, t.cpu), Max(hotPeak, t.hot);
      assert (cpuSeries + [t.cpu])[..i] == cpuSeries && (hotSeries + [t.hot])[..i] == hotSeries;
      cpuSeries, hotSeries := cpuSeries + [t.cpu], hotSeries + [t.hot];
    }
    assert measured[..|measured|] == measured;
  }

  method HostFractions(board: Board) returns (fractions: seq<real>)
    ensures fractions == HostSeries(board)
  {
    fractions := [];
    var prev: Option<(nat, nat)> := None;
    for i := 0 to |board|
      invariant prev == if i == 0 then None else Some(board[i - 1].host)
      invariant fractions == HostSeries(board[..i])
    {
      assert board[..i + 1][..i] == board[..i];
      var cur := board[i].host;
      if prev.Some? {
        var dtotal := Monus(cur.1, prev.value.1);
        if dtotal > 0 {
          fractions := fractions + [Monus(cur.0, prev.value.0) as real / dtotal as real];
        }
      }
      prev := Some(cur);
    }
    assert board[..|board|] == board;
  }

  method RollUp(samples: seq<Sample>, pids: seq<nat>, tck: real) returns (acc: Rollup)
    requires tck > 0.0
    ensures acc == RollupOf(samples, pids, tck)
  {
    acc := Rollup([], 0, 0, 0.0);
    for i := 0 to |pids|
      invariant acc == RollupOf(samples, pids[..i], tck)
    {
      assert pids[..i + 1][..i] == pids[..i];
      var series := Filter(samples, pids[i]);
      var board := Post(acc.board, series, tck);
      acc := acc.(board := board);
      if series != [] {
        var first, last := series[0], series[|series| - 1];
        acc := acc.(ctx := acc.ctx + Monus(last.Ctxt(), first.Ctxt()),
                    ticks := acc.ticks + Monus(last.Cpu(), first.Cpu()),
                    spanS := Max(acc.spanS, Monus(last.elapsedMs, first.elapsedMs) as real / 1000.0));
      }
    }
    assert pids[..|pids|] == pids;
  }

  /** The whole roll-up; None for an empty series. */
  method Aggregate(samples: seq<Sample>, tck: real) returns (agg: Option<SysAgg>)
    requires tck > 0.0
    ensures agg == AggregateOf(samples, tck)
  {
    if samples == [] {
      return None;
    }
    hide *;
    var pids := Pids(samples);
    var acc := RollUp(samples, pids, tck);
    var peak, hotPeak, cpuSeries, hotSeries := Peaks(Measured(acc.board));
    var hostSeries := HostFractions(acc.board);
    var cpuSeconds := acc.ticks as real / tck;
    var mean, ctxPerS := 0.0, 0.0;
    if acc.spanS > 0.0 {
      mean, ctxPerS := cpuSeconds / acc.spanS * 100.0, acc.ctx as real / acc.spanS;
    }
    SummaryFields(samples, acc, tck, mean, ctxPerS);
    agg := Some(SysAgg(
      |pids|, peak, mean, NearestRank(cpuSeries, 0.95), hotPeak, NearestRank(hotSeries, 0.95),
      NearestRank(hostSeries, 0.95), GreatestNat(RssSeries(acc.board)), GreatestNat(PssSeries(acc.board)),
      ctxPerS, cpuSeconds, acc.ctx, acc.spanS));
  }

  lemma {:induction false} SummaryFields(samples: seq<Sample>, r: Rollup, tck: real, mean: real, ctxPerS: real)
    requires samples != [] && tck > 0.0 && r == RollupOf(samples, PidsOf(samples), tck)
    requires mean == if r.spanS > 0.0 then r.ticks as real / tck / r.spanS * 100.0 else 0.0
    requires ctxPerS == if r.spanS > 0.0 then r.ctx as real / r.spanS else 0.0
    ensures var measured := Measured(r.board);
            AggregateOf(samples, tck) == Some(SysAgg(
              |PidsOf(samples)|, Greatest(CpuSeries(measured)), mean, NearestRank(CpuSeries(measured), 0.95),
              Greatest(HotSeries(measured)), NearestRank(HotSeries(measured), 0.95),
              NearestRank(HostSeries(r.board), 0.95), GreatestNat(RssSeries(r.board)), GreatestNat(PssSeries(r.board)),
              ctxPerS, r.ticks as real / tck, r.ctx, r.spanS))
  {
    hide PidsOf, RollupOf, Measured, Greatest, GreatestNat, NearestRank, CpuSeries, HotSeries, RssSeries, PssSeries, HostSeries;
  }
}
