/** Application-level metrics of a run: the loss, duplicate and reorder counts of
    an arrival sequence, one flow's accumulator, and the pooling of several
    connections into one summary. Floating-point numbers are reals; counters do
    not wrap, except the sequence-number span, whose 64-bit wrap is modelled. */
module AppMetrics {
  import opened Wrappers
  import opened Statistics

  const U64: int := 0x1_0000_0000_0000_0000

  type u64 = x: int | 0 <= x < 0x1_0000_0000_0000_0000

  datatype Integrity = Integrity(received: nat, distinct: nat, lost: nat, duplicate: nat, reordered: nat) {
    function Plus(o: Integrity): Integrity {
      Integrity(received + o.received, distinct + o.distinct, lost + o.lost, duplicate + o.duplicate, reordered + o.reordered)
    }
  }

  const NOTHING: Integrity := Integrity(0, 0, 0, 0, 0)

  // ----- Sequence integrity -----

  function MinOf(s: seq<u64>): u64
    requires s != []
  {
    var n := |s| - 1;
    if n == 0 || s[n] < MinOf(s[..n]) then s[n] else MinOf(s[..n])
  }

  function MaxOf(s: seq<u64>): u64
    requires s != []
  {
    var n := |s| - 1;
    if n == 0 || s[n] > MaxOf(s[..n]) then s[n] else MaxOf(s[..n])
  }

  function Distinct(s: seq<u64>): set<int> {
    set x: int | x in s
  }

  /** Steps down from one arrival to the next. */
  function Descents(s: seq<u64>): nat {
    if |s| < 2 then 0
    else Descents(s[..|s| - 1]) + if s[|s| - 1] < s[|s| - 2] then 1 else 0
  }

  /** The span of the sequence numbers, in 64 bits. */
  function Span(s: seq<u64>): nat
    requires s != []
  {
    (MaxOf(s) - MinOf(s) + 1) % U64
  }

  function IntegrityOf(s: seq<u64>): Integrity {
    if s == [] then NOTHING
    else
      DistinctAtMost(s);
      var distinct := |Distinct(s)|;
      Integrity(|s|, distinct, Monus(Span(s), distinct), |s| - distinct, Descents(s))
  }

  lemma {:induction false} DistinctAtMost(s: seq<u64>)
    ensures |Distinct(s)| <= |s|
    ensures s != [] ==> |Distinct(s)| > 0
  {
    if s != [] {
      var n := |s| - 1;
      DistinctAtMost(s[..n]);
      assert s == s[..n] + [s[n]];
      assert Distinct(s) == Distinct(s[..n]) + {s[n]};
    }
  }

  /** The one pass over the arrivals. */
  method MeasureIntegrity(seqs: seq<u64>) returns (r: Integrity)
    ensures r == IntegrityOf(seqs)
  {
    if seqs == [] {
      return NOTHING;
    }
    var seen: set<int> := {};
    var min: u64, max: u64, reordered: nat := U64 - 1, 0, 0;
    var prev := seqs[0];
    var i := 0;
    while i < |seqs|
      invariant 0 <= i <= |seqs|
      invariant seen == Distinct(seqs[..i])
      invariant min == if i == 0 then U64 - 1 else MinOf(seqs[..i])
      invariant max == if i == 0 then 0 else MaxOf(seqs[..i])
      invariant reordered == Descents(seqs[..i])
      invariant prev == if i == 0 then seqs[0] else seqs[i - 1]
    {
      var s := seqs[i];
      assert seqs[..i + 1][..i] == seqs[..i];
      seen := seen + {s};
      min := if s < min then s else min;
      max := if s > max then s else max;
      if i > 0 && s < prev {
        reordered := reordered + 1;
      }
      prev := s;
      i := i + 1;
    }
    assert seqs[..i] == seqs;
    DistinctAtMost(seqs);
    var received, distinct := |seqs|, |seen|;
    var span := (max - min + 1) % U64;
    r := Integrity(received, distinct, Monus(span, distinct), received - distinct, reordered);
  }

  lemma {:induction false} Extremes(s: seq<u64>)
    requires s != []
    ensures MinOf(s) in s && MaxOf(s) in s && forall x :: x in s ==> MinOf(s) <= x <= MaxOf(s)
  {
    var n := |s| - 1;
    var t := s[..n];
    assert s == t + [s[n]];
    if n > 0 {
      Extremes(t);
    }
    forall x | x in s
      ensures MinOf(s) <= x <= MaxOf(s)
    {
      assert x == s[n] || x in t;
    }
  }

  function Range(lo: int, hi: int): (r: set<int>)
    requires lo <= hi + 1
    ensures forall x :: x in r <==> lo <= x <= hi
    ensures |r| == hi - lo + 1
    decreases hi - lo + 1
  {
    if lo == hi + 1 then {} else Range(lo, hi - 1) + {hi}
  }

  /** The sequence numbers of the observed range that never arrived. */
  function Absent(s: seq<u64>): set<int>
    requires s != []
  {
    set x | MinOf(s) <= x <= MaxOf(s) && x !in s
  }

  lemma {:induction false} PresentOrAbsent(s: seq<u64>)
    requires s != []
    ensures |Distinct(s)| + |Absent(s)| == MaxOf(s) - MinOf(s) + 1
  {
    Extremes(s);
    assert Distinct(s) + Absent(s) == Range(MinOf(s), MaxOf(s));
    assert Distinct(s) !! Absent(s);
  }

  /** Every arrival is distinct or a duplicate, and `lost` is exactly the number
      of absent values, unless the arrivals span all of the 64-bit range: then the
      span wraps to zero and nothing is reported lost. */
  lemma {:induction false} IntegrityCounts(s: seq<u64>)
    requires s != [] && |s| < U64
    ensures var r := IntegrityOf(s); r.received == |s| == r.distinct + r.duplicate && r.distinct == |Distinct(s)|
    ensures var r := IntegrityOf(s);
            r.lost == |Absent(s)| && r.distinct + r.lost == MaxOf(s) - MinOf(s) + 1
            <==> !(MinOf(s) == 0 && MaxOf(s) == U64 - 1)
    ensures MinOf(s) == 0 && MaxOf(s) == U64 - 1 ==> IntegrityOf(s).lost == 0 < |Absent(s)|
  {
    PresentOrAbsent(s);
    DistinctAtMost(s);
    var span := MaxOf(s) - MinOf(s) + 1;
    if span == U64 {
      assert span % U64 == 0;
    } else {
      assert span % U64 == span;
    }
  }

  lemma {:induction false} SameMembers(a: seq<u64>, b: seq<u64>)
    requires multiset(a) == multiset(b)
    ensures |a| == |b| && Distinct(a) == Distinct(b)
  {
    assert |a| == |multiset(a)| && |b| == |multiset(b)|;
    forall x
      ensures x in a <==> x in b
    {
      assert x in a <==> x in multiset(a);
      assert x in b <==> x in multiset(b);
    }
  }

  /** All counts but `reordered` ignore the order of arrival. */
  lemma {:induction false} CountsIgnoreOrder(a: seq<u64>, b: seq<u64>)
    requires multiset(a) == multiset(b)
    ensures IntegrityOf(a).(reordered := 0) == IntegrityOf(b).(reordered := 0)
  {
    SameMembers(a, b);
    if a != [] {
      Extremes(a);
      Extremes(b);
      assert MinOf(a) in Distinct(b) && MaxOf(a) in Distinct(b);
      assert MinOf(b) in Distinct(a) && MaxOf(b) in Distinct(a);
    }
  }

  predicate NonDecreasing(s: seq<u64>) {
    forall i, j :: 0 <= i < j < |s| ==> s[i] <= s[j]
  }

  /** Nothing is counted as reordered exactly when the arrivals never decrease. */
  lemma {:induction false} ReorderedZero(s: seq<u64>)
    ensures IntegrityOf(s).reordered == Descents(s)
    ensures Descents(s) == 0 <==> NonDecreasing(s)
  {
    if |s| >= 2 {
      var n := |s| - 1;
      ReorderedZero(s[..n]);
      if NonDecreasing(s[..n]) && s[n - 1] <= s[n] {
        forall i | 0 <= i < n
          ensures s[i] <= s[n]
        {
          assert s[..n][i] <= s[..n][n - 1];
        }
      } else if !NonDecreasing(s[..n]) {
        var i, j :| 0 <= i < j < n && s[..n][i] > s[..n][j];
        assert s[i] > s[j];
      }
    }
  }

  /** The count the module documentation describes: arrivals below some earlier one. */
  function LateArrivals(s: seq<u64>): nat {
    if |s| < 2 then 0
    else LateArrivals(s[..|s| - 1]) + if s[|s| - 1] < MaxOf(s[..|s| - 1]) then 1 else 0
  }

  /** Arrival `i` is below the highest so far, yet not below its predecessor. */
  predicate ClimbsBelowMax(s: seq<u64>, i: nat)
    requires 0 < i < |s|
  {
    s[i - 1] <= s[i] < MaxOf(s[..i])
  }

  predicate NeverClimbs(s: seq<u64>) {
    forall i :: 0 < i < |s| ==> !ClimbsBelowMax(s, i)
  }

  lemma {:induction false} NeverClimbsSnoc(s: seq<u64>)
    requires |s| >= 2
    ensures NeverClimbs(s) <==> NeverClimbs(s[..|s| - 1]) && !ClimbsBelowMax(s, |s| - 1)
  {
    var t := s[..|s| - 1];
    forall i | 0 < i < |t|
      ensures ClimbsBelowMax(s, i) <==> ClimbsBelowMax(t, i)
    {
      assert t[..i] == s[..i];
    }
  }

  /** The code counts steps down, which is at most the documented count, and equal
      to it exactly when no arrival climbs below the highest seen so far. */
  lemma {:induction false} ReorderedAgainstDocumentation(s: seq<u64>)
    ensures Descents(s) <= LateArrivals(s)
    ensures Descents(s) == LateArrivals(s) <==> NeverClimbs(s)
  {
    if |s| >= 2 {
      var n := |s| - 1;
      ReorderedAgainstDocumentation(s[..n]);
      NeverClimbsSnoc(s);
      Extremes(s[..n]);
      assert s[..n][n - 1] in s[..n];
    }
  }

  /** 9, 1, 2: the last arrival is late, but no step down. */
  lemma {:induction false} LateWithoutStep()
    ensures Descents([9, 1, 2]) == 1 && LateArrivals([9, 1, 2]) == 2
  {
    var s: seq<u64> := [9, 1, 2];
    assert s[..2] == [9, 1] && s[..2][..1] == [9];
  }

  // ----- One flow -----

  function GapSum(xs: seq<real>): real {
    if |xs| < 2 then 0.0 else GapSum(xs[..|xs| - 1]) + Abs(xs[|xs| - 1] - xs[|xs| - 2])
  }

  function Jitter(xs: seq<real>): real {
    if |xs| < 2 then 0.0 else GapSum(xs) / (|xs| - 1) as real
  }

  method MeasureJitter(latencies: seq<real>) returns (j: real)
    ensures j == Jitter(latencies)
  {
    if |latencies| < 2 {
      return 0.0;
    }
    var acc, i := 0.0, 1;
    while i < |latencies|
      invariant 1 <= i <= |latencies|
      invariant acc == GapSum(latencies[..i])
    {
      assert latencies[..i + 1][..i] == latencies[..i];
      acc := acc + Abs(latencies[i] - latencies[i - 1]);
      i := i + 1;
    }
    assert latencies[..i] == latencies;
    j := acc / (|latencies| - 1) as real;
  }

  lemma {:induction false} GapSumZero(xs: seq<real>)
    ensures GapSum(xs) >= 0.0
    ensures GapSum(xs) == 0.0 <==> forall i :: 0 <= i < |xs| ==> xs[i] == xs[0]
  {
    if |xs| >= 2 {
      var n := |xs| - 1;
      GapSumZero(xs[..n]);
      assert forall i :: 0 <= i < n ==> xs[..n][i] == xs[i];
      assert Abs(xs[n] - xs[n - 1]) == 0.0 <==> xs[n] == xs[n - 1];
    }
  }

  /** Jitter is zero exactly when all latencies are the same. */
  lemma {:induction false} JitterZero(xs: seq<real>)
    ensures Jitter(xs) >= 0.0
    ensures Jitter(xs) == 0.0 <==> forall i :: 0 <= i < |xs| ==> xs[i] == xs[0]
  {
    GapSumZero(xs);
    if |xs| >= 2 {
      var j, m := Jitter(xs), (|xs| - 1) as real;
      assert j * m == GapSum(xs);
      assert j < 0.0 ==> j * m < 0.0;
      assert j > 0.0 ==> j * m > 0.0;
    }
  }

  /** The absolute differences of consecutive samples. */
  function Gaps(xs: seq<real>): (gs: seq<real>)
    requires xs != []
    ensures |gs| == |xs| - 1
  {
    seq(|xs| - 1, i requires 0 <= i < |xs| - 1 => Abs(xs[i + 1] - xs[i]))
  }

  lemma {:induction false} GapSumIsTotal(xs: seq<real>)
    requires xs != []
    ensures GapSum(xs) == TotalOf(Gaps(xs))
  {
    if |xs| >= 2 {
      var n := |xs| - 1;
      GapSumIsTotal(xs[..n]);
      var gs := Gaps(xs);
      assert gs[..n - 1] == Gaps(xs[..n]) && gs == gs[..n - 1] + [gs[n - 1]];
      SumSnoc(gs[..n - 1], gs[n - 1]);
    }
  }

  lemma {:induction false} SumSnoc(xs: seq<real>, x: real)
    ensures TotalOf(xs + [x]) == TotalOf(xs) + x
  {
    if xs == [] {
      assert xs + [x] == [x] && [x][1..] == [];
    } else {
      assert (xs + [x])[1..] == xs[1..] + [x];
      SumSnoc(xs[1..], x);
    }
  }

  /** Jitter is the mean of the gaps, none for fewer than two samples. */
  lemma {:induction false} JitterIsMeanGap(xs: seq<real>)
    ensures Jitter(xs) == if |xs| < 2 then 0.0 else Mean(Gaps(xs))
  {
    if |xs| >= 2 {
      GapSumIsTotal(xs);
    }
  }

  function ThroughputGbps(bytes: nat, secs: real): real {
    if secs <= 0.0 then 0.0 else bytes as real * 8.0 / 1000000000.0 / secs
  }

  function MessageRate(messages: nat, secs: real): real {
    if secs <= 0.0 then 0.0 else messages as real / secs
  }

  /** Over a second, a gigabit per second is a thousand million bits. */
  lemma {:induction false} RatesAre(bytes: nat, messages: nat, secs: real)
    ensures secs > 0.0 ==> Times(ThroughputGbps(bytes, secs), secs) * 1000000000.0 == 8.0 * bytes as real
    ensures secs > 0.0 ==> Times(MessageRate(messages, secs), secs) == messages as real
    ensures secs <= 0.0 ==> ThroughputGbps(bytes, secs) == MessageRate(messages, secs) == 0.0
  {
    if secs > 0.0 {
      QuotientTimes(bytes as real * 8.0 / 1000000000.0, secs);
      QuotientTimes(messages as real, secs);
    }
  }

  /** The loss is the percentage that the lost messages are of all that were sent, and
      zero exactly when none is lost. */
  lemma {:induction false} LossIs(distinct: nat, lost: nat)
    ensures Times(LossPct(distinct, lost), (distinct + lost) as real) == 100.0 * lost as real
    ensures LossPct(distinct, lost) == 0.0 <==> lost == 0
  {
    if distinct + lost > 0 {
      var q := lost as real / (distinct + lost) as real;
      QuotientTimes(lost as real, (distinct + lost) as real);
      assert Times(q * 100.0, (distinct + lost) as real) == 100.0 * (q * (distinct + lost) as real);
    }
  }

  function LossPct(distinct: nat, lost: nat): real {
    if distinct + lost > 0 then lost as real / (distinct + lost) as real * 100.0 else 0.0
  }

  datatype FlowSummary = FlowSummary(
    messages: nat, bytes: nat, durationS: real, throughputGbps: real, messageRate: real, latencyUs: Summary,
    jitterUs: real, integrity: Integrity, integrityFailures: nat, boundaryViolations: nat, lossPct: real,
    outliersRemoved: int)

  /** What one flow has accumulated. */
  datatype Flow = Flow(
    latenciesUs: seq<real>, seqs: seq<u64>, bytes: nat, integrityFailures: nat, boundaryViolations: nat, durationS: real)
  {
    predicate Paired() {
      |latenciesUs| == |seqs|
    }
  }

  function Trim(removeOutliers: bool, xs: seq<real>): (seq<real>, int) {
    if removeOutliers then RemoveOutliersIqr(xs) else (xs, 0)
  }

  function FinishOf(math: Math, flow: Flow, removeOutliers: bool): FlowSummary {
    var integ := IntegrityOf(flow.seqs);
    var (samples, removed) := Trim(removeOutliers, flow.latenciesUs);
    var messages := |flow.seqs|;
    FlowSummary(
      messages, flow.bytes, flow.durationS, ThroughputGbps(flow.bytes, flow.durationS),
      MessageRate(messages, flow.durationS), Summarize(math, samples), Jitter(flow.latenciesUs), integ,
      flow.integrityFailures, flow.boundaryViolations,
      if integ.received + integ.lost > 0 then LossPct(integ.distinct, integ.lost) else 0.0, removed)
  }

  lemma {:induction false} FlowLoss(math: Math, flow: Flow, removeOutliers: bool)
    ensures var s := FinishOf(math, flow, removeOutliers);
            s.integrity == IntegrityOf(flow.seqs) && s.lossPct == LossPct(s.integrity.distinct, s.integrity.lost)
  {
    DistinctAtMost(flow.seqs);
    hide Summarize, Jitter, Trim;
  }

  /** What one flow's summary says of the flow. */
  lemma {:induction false} FinishMeaning(math: Math, flow: Flow, removeOutliers: bool)
    ensures var s := FinishOf(math, flow, removeOutliers);
            && s.messages == |flow.seqs| && s.bytes == flow.bytes && s.durationS == flow.durationS
            && s.integrityFailures == flow.integrityFailures && s.boundaryViolations == flow.boundaryViolations
            && (if flow.durationS > 0.0
                then Times(s.throughputGbps, flow.durationS) * 1000000000.0 == 8.0 * flow.bytes as real
                     && Times(s.messageRate, flow.durationS) == |flow.seqs| as real
                else s.throughputGbps == s.messageRate == 0.0)
            && s.jitterUs == (if |flow.latenciesUs| < 2 then 0.0 else Mean(Gaps(flow.latenciesUs)))
    ensures var s := FinishOf(math, flow, removeOutliers);
            if removeOutliers then
              (s.latencyUs, s.outliersRemoved) ==
              (Summarize(math, RemoveOutliersIqr(flow.latenciesUs).0), RemoveOutliersIqr(flow.latenciesUs).1)
            else (s.latencyUs, s.outliersRemoved) == (Summarize(math, flow.latenciesUs), 0)
  {
    RatesAre(flow.bytes, |flow.seqs|, flow.durationS);
    JitterIsMeanGap(flow.latenciesUs);
    hide Summarize, Jitter, IntegrityOf, ThroughputGbps, MessageRate, LossPct, RemoveOutliersIqr, Times, Mean, Gaps;
  }

  /** The loss of one flow is what is absent from the observed range, as a percentage
      of that range, unless the range is all of the 64-bit space. */
  lemma {:induction false} LossOfRange(math: Math, flow: Flow, removeOutliers: bool)
    requires flow.seqs != [] && |flow.seqs| < U64 && !(MinOf(flow.seqs) == 0 && MaxOf(flow.seqs) == U64 - 1)
    ensures var s, q := FinishOf(math, flow, removeOutliers), flow.seqs;
            && Times(s.lossPct, (MaxOf(q) - MinOf(q) + 1) as real) == 100.0 * |Absent(q)| as real
            && (s.lossPct == 0.0 <==> Absent(q) == {})
  {
    IntegrityCounts(flow.seqs);
    FlowLoss(math, flow, removeOutliers);
    LossIs(IntegrityOf(flow.seqs).distinct, IntegrityOf(flow.seqs).lost);
    hide FinishOf, IntegrityOf, LossPct, Times;
  }

  class FlowMetrics {
    var latenciesUs: seq<real>
    var seqs: seq<u64>
    var bytes: nat
    var integrityFailures: nat
    var boundaryViolations: nat
    var durationS: real

    function View(): Flow
      reads this
    {
      Flow(latenciesUs, seqs, bytes, integrityFailures, boundaryViolations, durationS)
    }

    predicate Valid()
      reads this
    {
      View().Paired()
    }

    constructor ()
      ensures Valid() && View() == Flow([], [], 0, 0, 0, 0.0)
    {
      latenciesUs, seqs := [], [];
      bytes, integrityFailures, boundaryViolations, durationS := 0, 0, 0, 0.0;
    }

    method Record(number: u64, latencyNs: u64, wireBytes: nat)
      requires Valid()
      modifies this
      ensures Valid()
      ensures View() == old(View()).(
                latenciesUs := old(latenciesUs) + [latencyNs as real / 1000.0],
                seqs := old(seqs) + [number],
                bytes := old(bytes) + wireBytes)
    {
      seqs := seqs + [number];
      latenciesUs := latenciesUs + [latencyNs as real / 1000.0];
      bytes := bytes + wireBytes;
    }

    method RecordIntegrityFailure()
      requires Valid()
      modifies this
      ensures Valid() && View() == old(View()).(integrityFailures := old(integrityFailures) + 1)
    {
      integrityFailures := integrityFailures + 1;
    }

    method RecordBoundaryViolation()
      requires Valid()
      modifies this
      ensures Valid() && View() == old(View()).(boundaryViolations := old(boundaryViolations) + 1)
    {
      boundaryViolations := boundaryViolations + 1;
    }

    method SetDuration(secs: real)
      requires Valid()
      modifies this
      ensures Valid() && View() == old(View()).(durationS := secs)
    {
      durationS := secs;
    }

    method Finish(math: Math, removeOutliers: bool) returns (s: FlowSummary)
      ensures s == FinishOf(math, View(), removeOutliers)
    {
      var integ := MeasureIntegrity(seqs);
      var trimmed := Trim(removeOutliers, latenciesUs);
      var jitterUs := MeasureJitter(latenciesUs);
      var messages := |seqs|;
      var lossPct := 0.0;
      if integ.received + integ.lost > 0 {
        DistinctAtMost(seqs);
        lossPct := integ.lost as real / (integ.distinct + integ.lost) as real * 100.0;
      }
      s := FlowSummary(
        messages, bytes, durationS, ThroughputGbps(bytes, durationS), MessageRate(messages, durationS),
        Summarize(math, trimmed.0), jitterUs, integ, integrityFailures, boundaryViolations, lossPct, trimmed.1);
    }
  }

  // ----- Several connections -----

  /** What the pooling loop adds up, apart from the latency samples. */
  datatype Totals = Totals(
    bytes: nat, integrity: Integrity, jitterWeighted: real, jitterWeight: nat, integrityFailures: nat,
    boundaryViolations: nat)
  {
    function Plus(o: Totals): Totals {
      Totals(bytes + o.bytes, integrity.Plus(o.integrity), jitterWeighted + o.jitterWeighted,
             jitterWeight + o.jitterWeight, integrityFailures + o.integrityFailures,
             boundaryViolations + o.boundaryViolations)
    }
  }

  const NO_TOTALS: Totals := Totals(0, NOTHING, 0.0, 0, 0, 0)

  function TotalsOf(f: Flow): Totals {
    var mi := IntegrityOf(f.seqs);
    Totals(f.bytes, mi, Jitter(f.latenciesUs) * mi.received as real, mi.received, f.integrityFailures, f.boundaryViolations)
  }

  function Total(flows: seq<Flow>): Totals {
    if flows == [] then NO_TOTALS
    else Total(flows[..|flows| - 1]).Plus(TotalsOf(flows[|flows| - 1]))
  }

  function Pooled(flows: seq<Flow>): seq<real> {
    if flows == [] then [] else Pooled(flows[..|flows| - 1]) + flows[|flows| - 1].latenciesUs
  }

  function WeightedJitter(t: Totals): real {
    if t.jitterWeight > 0 then t.jitterWeighted / t.jitterWeight as real else 0.0
  }

  /** The run's summary from its totals and pooled samples. */
  function Combine(math: Math, t: Totals, pooled: seq<real>, durationS: real, removeOutliers: bool): FlowSummary {
    var (samples, removed) := Trim(removeOutliers, pooled);
    FlowSummary(
      t.integrity.received, t.bytes, durationS, ThroughputGbps(t.bytes, durationS),
      MessageRate(t.integrity.received, durationS), Summarize(math, samples),
      WeightedJitter(t), t.integrity,
      t.integrityFailures, t.boundaryViolations, LossPct(t.integrity.distinct, t.integrity.lost), removed)
  }

  function AggregateOf(math: Math, flows: seq<Flow>, durationS: real, removeOutliers: bool): FlowSummary {
    Combine(math, Total(flows), Pooled(flows), durationS, removeOutliers)
  }

  function Views(metrics: seq<FlowMetrics>): seq<Flow>
    reads metrics
  {
    if metrics == [] then [] else Views(metrics[..|metrics| - 1]) + [metrics[|metrics| - 1].View()]
  }

  method AggregateRun(math: Math, metrics: seq<FlowMetrics>, durationS: real, removeOutliers: bool)
    returns (s: FlowSummary)
    ensures s == AggregateOf(math, Views(metrics), durationS, removeOutliers)
  {
    hide IntegrityOf, Jitter, Combine, Total, Pooled, Views;
    var allLat: seq<real>, t := [], NO_TOTALS;
    var i := 0;
    NoViews(metrics[..0]);
    while i < |metrics|
      invariant 0 <= i <= |metrics|
      invariant allLat == Pooled(Views(metrics[..i])) && t == Total(Views(metrics[..i]))
    {
      var m := metrics[i];
      allLat := allLat + m.latenciesUs;
      var mi := MeasureIntegrity(m.seqs);
      var j := MeasureJitter(m.latenciesUs);
      t := t.Plus(Totals(m.bytes, mi, j * mi.received as real, mi.received, m.integrityFailures, m.boundaryViolations));
      ViewsSnoc(metrics, i);
      TotalSnoc(Views(metrics[..i]), m.View());
      i := i + 1;
    }
    assert metrics[..i] == metrics;
    s := Combine(math, t, allLat, durationS, removeOutliers);
  }

  lemma {:induction false} NoViews(metrics: seq<FlowMetrics>)
    requires metrics == []
    ensures Total(Views(metrics)) == NO_TOTALS && Pooled(Views(metrics)) == []
  {}

  lemma {:induction false} ViewsSnoc(metrics: seq<FlowMetrics>, i: nat)
    requires i < |metrics|
    ensures Views(metrics[..i + 1]) == Views(metrics[..i]) + [metrics[i].View()]
  {
    assert metrics[..i + 1][..i] == metrics[..i];
  }

  lemma {:induction false} TotalSnoc(flows: seq<Flow>, f: Flow)
    ensures Total(flows + [f]) == Total(flows).Plus(TotalsOf(f))
    ensures Pooled(flows + [f]) == Pooled(flows) + f.latenciesUs
  {
    hide TotalsOf;
    assert (flows + [f])[..|flows|] == flows;
  }

  function Without(flows: seq<Flow>, i: nat): seq<Flow>
    requires i < |flows|
  {
    flows[..i] + flows[i + 1..]
  }

  /** Any one connection can be split off the totals. */
  lemma {:induction false} SplitOff(flows: seq<Flow>, i: nat)
    requires i < |flows|
    ensures Total(flows) == Total(Without(flows, i)).Plus(TotalsOf(flows[i]))
    ensures multiset(Pooled(flows)) == multiset(Pooled(Without(flows, i))) + multiset(flows[i].latenciesUs)
  {
    hide *;
    var n := |flows| - 1;
    var front, last := flows[..n], flows[n];
    assert flows == front + [last];
    TotalSnoc(front, last);
    if i == n {
      WithoutLast(flows);
    } else {
      SplitOff(front, i);
      WithoutFront(front, last, i);
      TotalSnoc(Without(front, i), last);
      PlusCommutes(Total(Without(front, i)), TotalsOf(flows[i]), TotalsOf(last));
    }
  }

  lemma {:induction false} WithoutLast(flows: seq<Flow>)
    requires flows != []
    ensures Without(flows, |flows| - 1) == flows[..|flows| - 1]
  {}

  lemma {:induction false} WithoutFront(front: seq<Flow>, last: Flow, i: nat)
    requires i < |front|
    ensures Without(front + [last], i) == Without(front, i) + [last]
  {}

  lemma {:induction false} PlusCommutes(a: Totals, b: Totals, c: Totals)
    ensures a.Plus(b).Plus(c) == a.Plus(c).Plus(b)
  {}

  lemma {:induction false} TotalOfPermutation(a: seq<Flow>, b: seq<Flow>)
    requires multiset(a) == multiset(b)
    ensures Total(a) == Total(b) && multiset(Pooled(a)) == multiset(Pooled(b))
  {
    hide *;
    if a == [] {
      assert |multiset(b)| == 0;
    } else {
      var n := |a| - 1;
      assert a == a[..n] + [a[n]];
      assert a[n] in multiset(a);
      var i := Place(b, a[n]);
      TotalOfPermutation(a[..n], Without(b, i));
      SplitOff(b, i);
      TotalSnoc(a[..n], a[n]);
    }
  }

  lemma {:induction false} Place(b: seq<Flow>, f: Flow) returns (i: nat)
    requires f in multiset(b)
    ensures i < |b| && b[i] == f && multiset(Without(b, i)) == multiset(b) - multiset{f}
  {
    i :| 0 <= i < |b| && b[i] == f;
    assert b == b[..i] + [b[i]] + b[i + 1..];
  }

  /** Pooling does not depend on the order of the connections. */
  lemma {:induction false} AggregateOfPermutation(
    math: Math, a: seq<Flow>, b: seq<Flow>, durationS: real, removeOutliers: bool)
    requires multiset(a) == multiset(b)
    ensures AggregateOf(math, a, durationS, removeOutliers) == AggregateOf(math, b, durationS, removeOutliers)
  {
    hide Total, Trim, Summarize;
    TotalOfPermutation(a, b);
    TrimOfPermutation(removeOutliers, Pooled(a), Pooled(b));
    SummaryOfPermutation(math, Trim(removeOutliers, Pooled(a)).0, Trim(removeOutliers, Pooled(b)).0);
  }

  /** Two totals add up to a third, count by count. */
  predicate AddUp(t: Totals, x: Totals, y: Totals) {
    && t.bytes == x.bytes + y.bytes && t.jitterWeighted == x.jitterWeighted + y.jitterWeighted
    && t.jitterWeight == x.jitterWeight + y.jitterWeight && t.integrityFailures == x.integrityFailures + y.integrityFailures
    && t.boundaryViolations == x.boundaryViolations + y.boundaryViolations
    && CountsAddUp(t.integrity, x.integrity, y.integrity)
  }

  predicate CountsAddUp(t: Integrity, x: Integrity, y: Integrity) {
    && t.received == x.received + y.received && t.distinct == x.distinct + y.distinct && t.lost == x.lost + y.lost
    && t.duplicate == x.duplicate + y.duplicate && t.reordered == x.reordered + y.reordered
  }

  lemma {:induction false} AddUpMore(t: Totals, x: Totals, y: Totals, d: Totals)
    requires AddUp(t, x, y)
    ensures AddUp(t.Plus(d), x, y.Plus(d))
  {}

  lemma {:induction false} TotalOfConcat(a: seq<Flow>, b: seq<Flow>)
    ensures AddUp(Total(a + b), Total(a), Total(b))
    decreases b
  {
    hide *;
    if b == [] {
      assert a + b == a;
      AddNothing(Total(a), b);
    } else {
      var n := |b| - 1;
      TotalOfConcat(a, b[..n]);
      assert a + b == (a + b[..n]) + [b[n]] && b == b[..n] + [b[n]];
      TotalSnoc(a + b[..n], b[n]);
      TotalSnoc(b[..n], b[n]);
      AddUpMore(Total(a + b[..n]), Total(a), Total(b[..n]), TotalsOf(b[n]));
    }
  }

  lemma {:induction false} AddNothing(t: Totals, none: seq<Flow>)
    requires none == []
    ensures AddUp(t, t, Total(none))
  {}

  lemma {:induction false} WeightIsReceived(flows: seq<Flow>)
    ensures Total(flows).jitterWeight == Total(flows).integrity.received
    ensures var t := Total(flows); Times(WeightedJitter(t), t.jitterWeight as real) == t.jitterWeighted
  {
    NoWeight(flows);
    var t := Total(flows);
    hide Total;
    if t.jitterWeight > 0 {
      QuotientTimes(t.jitterWeighted, t.jitterWeight as real);
    }
  }

  lemma {:induction false} NoWeight(flows: seq<Flow>)
    ensures Total(flows).jitterWeight == Total(flows).integrity.received
    ensures Total(flows).jitterWeight == 0 ==> Total(flows).jitterWeighted == 0.0
  {
    if flows != [] {
      hide IntegrityOf, Jitter;
      NoWeight(flows[..|flows| - 1]);
      var f := flows[|flows| - 1];
      assert IntegrityOf(f.seqs).received == 0 ==> Jitter(f.latenciesUs) * 0.0 == 0.0;
    }
  }

  /** Pooling two groups of connections adds up their counts, weighs their jitter by
      their messages, and takes loss and rates from what was added up. */
  lemma {:induction false} AggregateOfConcat(math: Math, a: seq<Flow>, b: seq<Flow>, durationS: real, removeOutliers: bool)
    ensures var s, x, y := AggregateOf(math, a + b, durationS, removeOutliers), AggregateOf(math, a, durationS, removeOutliers),
              AggregateOf(math, b, durationS, removeOutliers);
            && s.messages == x.messages + y.messages && s.bytes == x.bytes + y.bytes
            && CountsAddUp(s.integrity, x.integrity, y.integrity)
            && s.integrityFailures == x.integrityFailures + y.integrityFailures
            && s.boundaryViolations == x.boundaryViolations + y.boundaryViolations
            && Times(s.jitterUs, s.messages as real) == Times(x.jitterUs, x.messages as real) + Times(y.jitterUs, y.messages as real)
  {
    TotalOfConcat(a, b);
    WeightIsReceived(a);
    WeightIsReceived(b);
    WeightIsReceived(a + b);
    hide Total, WeightedJitter, Trim, Summarize, ThroughputGbps, MessageRate, LossPct, Times;
  }

  /** The loss and the rates of a run, whatever connections it pools. */
  lemma {:induction false} AggregateMeaning(math: Math, flows: seq<Flow>, durationS: real, removeOutliers: bool)
    ensures var s := AggregateOf(math, flows, durationS, removeOutliers);
            && s.durationS == durationS && s.messages == s.integrity.received
            && Times(s.lossPct, (s.integrity.distinct + s.integrity.lost) as real) == 100.0 * s.integrity.lost as real
            && (s.lossPct == 0.0 <==> s.integrity.lost == 0)
            && (if durationS > 0.0
                then Times(s.throughputGbps, durationS) * 1000000000.0 == 8.0 * s.bytes as real
                     && Times(s.messageRate, durationS) == s.messages as real
                else s.throughputGbps == s.messageRate == 0.0)
  {
    var t := Total(flows);
    RatesAre(t.bytes, t.integrity.received, durationS);
    LossIs(t.integrity.distinct, t.integrity.lost);
    hide Total, WeightedJitter, Trim, Summarize, ThroughputGbps, MessageRate, LossPct, Times;
  }

  /** And what the pooled samples are: those of all connections. */
  lemma {:induction false} PooledOfConcat(a: seq<Flow>, b: seq<Flow>)
    ensures Pooled(a + b) == Pooled(a) + Pooled(b)
    decreases b
  {
    if b == [] {
      assert a + b == a;
    } else {
      var n := |b| - 1;
      PooledOfConcat(a, b[..n]);
      assert a + b == (a + b[..n]) + [b[n]] && b == b[..n] + [b[n]];
      hide *;
      TotalSnoc(a + b[..n], b[n]);
      TotalSnoc(b[..n], b[n]);
      Regroup(Pooled(a), Pooled(b[..n]), b[n].latenciesUs);
    }
  }

  lemma {:induction false} Regroup(a: seq<real>, b: seq<real>, c: seq<real>)
    ensures (a + b) + c == a + (b + c)
  {}

  lemma {:induction false} TrimOfPermutation(removeOutliers: bool, xs: seq<real>, ys: seq<real>)
    requires multiset(xs) == multiset(ys)
    ensures multiset(Trim(removeOutliers, xs).0) == multiset(Trim(removeOutliers, ys).0)
    ensures Trim(removeOutliers, xs).1 == Trim(removeOutliers, ys).1
  {
    if removeOutliers {
      OutliersOfPermutation(xs, ys);
    }
  }

  /** On a single connection pooling is that connection's own summary. */
  lemma {:induction false} AggregateOfOne(math: Math, flow: Flow, removeOutliers: bool)
    requires flow.Paired()
    ensures AggregateOf(math, [flow], flow.durationS, removeOutliers) == FinishOf(math, flow, removeOutliers)
  {
    hide IntegrityOf, Jitter, Trim, Summarize, WeightedJitter;
    TotalSnoc([], flow);
    assert [] + [flow] == [flow];
    assert Pooled([flow]) == flow.latenciesUs;
    NothingPlus(TotalsOf(flow));
    Received(flow.seqs);
    WeightedJitterOfOne(flow);
  }

  lemma {:induction false} WeightedJitterOfOne(flow: Flow)
    requires flow.Paired()
    ensures WeightedJitter(TotalsOf(flow)) == Jitter(flow.latenciesUs)
  {
    if flow.seqs != [] {
      Unweighted(Jitter(flow.latenciesUs), |flow.seqs|);
    }
  }

  lemma {:induction false} NothingPlus(t: Totals)
    ensures NO_TOTALS.Plus(t) == t
  {}

  lemma {:induction false} Received(s: seq<u64>)
    ensures var r := IntegrityOf(s); r.received == |s| == r.distinct + r.duplicate && (s != [] ==> r.distinct > 0)
  {
    DistinctAtMost(s);
  }

  lemma {:induction false} Unweighted(j: real, n: nat)
    requires n > 0
    ensures j * n as real / n as real == j
  {}

  lemma {:induction false} PooledCount(flows: seq<Flow>)
    requires forall i :: 0 <= i < |flows| ==> flows[i].Paired()
    ensures |Pooled(flows)| == Total(flows).integrity.received == Total(flows).jitterWeight
    ensures var g := Total(flows).integrity; g.received == g.distinct + g.duplicate
  {
    if flows != [] {
      PooledCount(flows[..|flows| - 1]);
      DistinctAtMost(flows[|flows| - 1].seqs);
    }
  }

  /** No message is lost in the pooling: every one is a sample or a removed
      outlier, and is distinct or a duplicate; the loss is a percentage. */
  lemma {:induction false} AggregateAccountsForAll(math: Math, flows: seq<Flow>, durationS: real, removeOutliers: bool)
    requires forall i :: 0 <= i < |flows| ==> flows[i].Paired()
    ensures var s := AggregateOf(math, flows, durationS, removeOutliers);
            && s.latencyUs.n + s.outliersRemoved == s.messages == s.integrity.distinct + s.integrity.duplicate
            && 0.0 <= s.lossPct <= 100.0
  {
    hide Total, Summarize;
    PooledCount(flows);
    TrimCount(removeOutliers, Pooled(flows));
    SummaryCount(math, Trim(removeOutliers, Pooled(flows)).0);
    var t := Total(flows).integrity;
    if t.distinct + t.lost > 0 {
      Percentage(t.lost, t.distinct + t.lost);
    }
  }

  lemma {:induction false} TrimCount(removeOutliers: bool, xs: seq<real>)
    ensures var (kept, removed) := Trim(removeOutliers, xs); |kept| + removed == |xs|
  {}

  lemma {:induction false} SummaryCount(math: Math, xs: seq<real>)
    ensures Summarize(math, xs).n == |xs|
  {}

  lemma {:induction false} Percentage(a: nat, b: nat)
    requires a <= b && b > 0
    ensures 0.0 <= a as real / b as real * 100.0 <= 100.0
  {
    var q := a as real / b as real;
    assert q * b as real == a as real;
    assert q > 1.0 ==> q * b as real > b as real;
    assert q < 0.0 ==> q * b as real < 0.0;
  }
}
