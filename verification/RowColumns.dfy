/** What stands in each column of a scenario's row, by the name of the column, and what
    the artifacts beside it read back as, in terms of the fields that were measured. */
module RowColumns {
  import opened Wrappers
  import opened Text
  import opened Csv
  import opened Statistics
  import opened SummaryRow

  // ----- What a key names -----

  function Word(b: bool): string {
    if b then "true" else "false"
  }

  function PatternWord(p: TrafficPattern): string {
    match p
    case Sustained => "sustained"
    case Periodic => "periodic"
    case Burst => "burst"
    case Ramp => "ramp"
  }

  function RunField(f: Format, r: Record, k: AggregateKey): string {
    match k
    case Runs => Decimal(|r.stats.runs|)
    case ThroughputMean => f.num(r.stats.throughputGbps.mean, 4)
    case ThroughputCi95 => f.num(r.stats.throughputGbps.ci95, 4)
    case ThroughputMin => f.num(r.stats.throughputGbps.min, 4)
    case ThroughputMax => f.num(r.stats.throughputGbps.max, 4)
    case LatencyMean => f.num(r.stats.latencyMeanUs.mean, 3)
    case LatencyMeanCi95 => f.num(r.stats.latencyMeanUs.ci95, 3)
    case LatencyP99Mean => f.num(r.stats.latencyP99Us.mean, 3)
    case LatencyP99Ci95 => f.num(r.stats.latencyP99Us.ci95, 3)
    case HandshakeMean => f.num(r.stats.handshakeMeanUs, 3)
    case LossPct => f.num(r.stats.lossPct, 4)
    case TotalLost => Decimal(r.stats.totalLost)
    case IntegrityFailures => Decimal(TotalIntegrityFailures(r.stats.runs))
    case BoundaryViolations => Decimal(TotalBoundaryViolations(r.stats.runs))
    case Overloaded => Word(r.stats.lossPct > r.lossThresholdPct)
    case ProtocolInEffect => if r.effective.Some? then r.effective.value.inEffect else r.protocol
    case OverheadAnalytical => if r.overhead.Some? then Decimal(r.overhead.value) else ""
    case OverheadCaptureVerified => "false"
    case ThroughputStddev => f.num(r.stats.throughputGbps.stddev, 4)
    case ThroughputCov => f.num(r.stats.throughputGbps.cov, 4)
  }

  function CalibrationField(f: Format, c: Calibration, k: CalibrationKey): string {
    match k
    case CeilingGbps => f.num(c.ceilingGbps, 4)
    case Headroom => f.num(c.headroom, 2)
    case HarnessLimited => Word(c.harnessLimited)
    case Dut => c.dut
    case Bottleneck => c.bottleneck
    case CeilingTransport => c.ceilingTransport
  }

  function SysField(f: Format, a: SysAgg, throughput: real, k: SysKey): string {
    match k
    case CpuPctPeak => f.num(a.cpuPctPeak, 1)
    case CpuPctMean => f.num(a.cpuPctMean, 1)
    case CpuPctP95 => f.num(a.cpuPctP95, 1)
    case CpuHotThreadPctP95 => f.num(a.cpuHotThreadPctP95, 1)
    case HostBusyFracP95 => f.num(a.hostBusyFracP95, 3)
    case CpuSecondsTotal => f.num(a.cpuSecondsTotal, 4)
    case CtxSwitchesTotal => Decimal(a.ctxSwitchesTotal)
    case CtxSwitchesPerS => f.num(a.ctxSwitchesPerS, 1)
    case RssPeakKib => Decimal(a.rssPeakKib)
    case PssPeakKib => Decimal(a.pssPeakKib)
    case GbpsPerCore => if a.cpuPctPeak > 0.0 then f.num(100.0 * throughput / a.cpuPctPeak, 4) else ""
  }

  function PerfField(f: Format, p: Perf, k: PerfKey): string {
    match k
    case Cycles => NatCell(p.cycles)
    case Instructions => NatCell(p.instructions)
    case Ipc => NumCell(f, p.ipc, 3)
    case CacheReferences => NatCell(p.cacheReferences)
    case CacheMisses => NatCell(p.cacheMisses)
    case ContextSwitches => NatCell(p.contextSwitches)
    case Syscalls => NatCell(p.syscalls)
    case TaskClockMs => NumCell(f, p.taskClockMs, 3)
    case DurationS => NumCell(f, p.durationS, 6)
  }

  /** Copies per message need a message, and one of the two directions counted. */
  function MemField(f: Format, m: MemCopies, messages: nat, k: MemKey): string {
    match k
    case CopiesPerMsg =>
      if messages > 0 && (m.copyToUser.Some? || m.copyFromUser.Some?)
      then f.num((m.copyToUser.GetOr(0) + m.copyFromUser.GetOr(0)) as real / messages as real, 3) else ""
    case CopyToUser => NatCell(m.copyToUser)
    case CopyFromUser => NatCell(m.copyFromUser)
    case SpliceSyscalls => NatCell(m.splice)
    case PollSyscalls => if m.poll.Some? then NatCell(m.poll) else NatCell(m.ppoll)
    case IoUringEnter => NatCell(m.ioUringEnter)
  }

  function SweepField(f: Format, s: Sweep, k: SweepKey): string {
    match k
    case SaturationGbps => f.num(s.saturationGbps, 4)
    case MaxLossfreeGbps => f.num(s.maxLossfreeGbps, 4)
    case KneeOfferedMbps => f.num(s.kneeOfferedMbps, 3)
  }

  function RttField(f: Format, t: Rtt, k: RttKey): string {
    match k
    case RttMean => f.num(t.meanUs, 3)
    case RttCi95 => f.num(t.meanCi95, 3)
    case RttP50 => f.num(t.p50Us, 3)
    case RttP99 => f.num(t.p99Us, 3)
    case RttSamples => Decimal(t.samples)
  }

  function ConnField(f: Format, c: Conn, k: ConnKey): string {
    match k
    case ConnsPerSec => f.num(c.connsPerSec, 1)
    case ConnsPerSecCi95 => f.num(c.connsPerSecCi95, 1)
    case ConnHandshakeP50 => f.num(c.handshakeP50Us, 3)
    case ConnHandshakeP99 => f.num(c.handshakeP99Us, 3)
    case ConnTotal => Decimal(c.totalConns)
  }

  /** Nothing when there was no handshake at all. */
  function EffectiveField(f: Format, e: Effective, k: EffectiveKey): string {
    var all := e.resumedHandshakes + e.fullHandshakes;
    if all == 0 then ""
    else match k
      case ResumedFraction => f.num(e.resumedHandshakes as real / all as real, 3)
      case ResumedHandshakes => Decimal(e.resumedHandshakes)
      case FullHandshakes => Decimal(e.fullHandshakes)
  }

  function ConfigField(r: Record, k: ConfigKey): string {
    match k
    case Name => r.name
    case Category => r.category.GetOr("")
    case Transport => r.transport
    case Protocol => r.protocol
    case Pattern => PatternWord(r.pattern)
    case MessageBytes => Decimal(r.messageBytes)
    case PayloadBytes => Decimal(if r.messageBytes >= 24 then r.messageBytes - 24 else 0)
    case Connections => Decimal(r.connections)
    case GatewayEnabled => Word(r.gatewayEnabled)
    case WarmupSecs => Decimal(r.warmupSecs)
    case MeasureSecs => Decimal(r.measureSecs)
    case CooldownSecs => Decimal(r.cooldownSecs)
    case OutlierRemoval => Word(r.removeOutliers)
  }

  function LiveField(f: Format, r: Record, k: LiveKey): string {
    match k
    case Scenario => r.name
    case JitterMean => f.num(MeanJitter(r.stats.runs), 3)
    case CoCorrected => Word(r.stats.coCorrected)
    case SendLagMean => f.num(r.stats.sendLagMeanUs, 3)
    case SendLagMax => f.num(r.stats.sendLagMaxUs, 3)
  }

  /** The measured field that a key names, as it is printed; blank where there is none. */
  function Field(f: Format, r: Record, k: Key): string {
    match k
    case C(c) => ConfigField(r, c)
    case A(a) => RunField(f, r, a)
    case Cal(c) => if r.cal.Some? then CalibrationField(f, r.cal.value, c) else ""
    case S(s) => if r.sys.Some? then SysField(f, r.sys.value, r.stats.throughputGbps.mean, s) else ""
    case P(p) => if r.perf.Some? then PerfField(f, r.perf.value, p) else ""
    case M(m) => if r.mem.Some? then MemField(f, r.mem.value, TotalMessages(r.stats.runs), m) else ""
    case Sw(s) => if r.sweep.Some? then SweepField(f, r.sweep.value, s) else ""
    case R(t) => if r.stats.rtt.Some? then RttField(f, r.stats.rtt.value, t) else ""
    case Cn(c) => if r.stats.conn.Some? then ConnField(f, r.stats.conn.value, c) else ""
    case E(e) => if r.effective.Some? then EffectiveField(f, r.effective.value, e) else ""
    case L(l) => LiveField(f, r, l)
  }

  // ----- The columns of the live row -----

  /** The row has a column for the key, and `cell` stands in it. */
  ghost predicate Shows(f: Format, r: Record, k: Key, cell: string) {
    && k in Headers() && |LiveRow(f, r)| == |Headers()|
    && forall i :: 0 <= i < |Headers()| && Headers()[i] == k ==> LiveRow(f, r)[i] == cell
  }

  predicate LiveAgree(f: Format, r: Record, h: seq<Key>, c: seq<string>) {
    |h| == |c| && forall i :: 0 <= i < |h| && Unpersisted(h[i]) ==> c[i] == Field(f, r, h[i])
  }

  lemma {:induction false} LiveAgreeAppends(
    f: Format, r: Record, h: seq<Key>, c: seq<string>, h': seq<Key>, c': seq<string>)
    requires LiveAgree(f, r, h, c) && LiveAgree(f, r, h', c')
    ensures LiveAgree(f, r, h + h', c + c')
  {
    hide Unpersisted, Field;
    forall i | 0 <= i < |h + h'| && Unpersisted((h + h')[i])
      ensures (c + c')[i] == Field(f, r, (h + h')[i])
    {
      if i < |h| {
        assert (h + h')[i] == h[i] && (c + c')[i] == c[i];
      } else {
        assert (h + h')[i] == h'[i - |h|] && (c + c')[i] == c'[i - |c|];
      }
    }
  }

  lemma {:induction false} LossLive(f: Format, r: Record)
    ensures LiveAgree(f, r, LossHeaders(), LossCells(f, r)) && LiveAgree(f, r, LagHeaders(), LagCells(f, r))
  {
    hide Decimal, TotalIntegrityFailures, TotalBoundaryViolations, MeanJitter;
  }

  lemma {:induction false} FrontLive(f: Format, r: Record)
    ensures LiveAgree(f, r, RunHeaders(), RunCells(f, r))
    ensures LiveAgree(f, r, CalibrationHeaders() + LimitHeaders() + CpuHeaders(),
                      CalibrationCells(f, r) + LimitCells(f, r) + CpuCells(f, r))
  {
    hide Decimal, Bool, Field;
  }

  lemma {:induction false} BackLive(f: Format, r: Record)
    ensures LiveAgree(f, r, RttHeaders() + ConnHeaders() + PerfHeaders(), RttCells(f, r) + ConnCells(f, r) + PerfCells(f, r))
    ensures LiveAgree(f, r, MemHeaders() + TailHeaders(), MemCells(f, r) + TailCells(f, r))
  {
    hide Decimal, Bool, Field, NatCell, NumCell;
  }

  lemma {:induction false} LiveRowLive(f: Format, r: Record)
    ensures LiveAgree(f, r, Headers(), LiveRow(f, r))
  {
    FrontLive(f, r);
    LossLive(f, r);
    BackLive(f, r);
    RowInFive(f, r);
    hide *;
    var h, c := RunHeaders(), RunCells(f, r);
    LiveAgreeAppends(f, r, h, c, LossHeaders(), LossCells(f, r));
    h, c := h + LossHeaders(), c + LossCells(f, r);
    var h', c' := CalibrationHeaders() + LimitHeaders() + CpuHeaders(), CalibrationCells(f, r) + LimitCells(f, r) + CpuCells(f, r);
    LiveAgreeAppends(f, r, h, c, h', c');
    h, c := h + h', c + c';
    h', c' := RttHeaders() + ConnHeaders() + PerfHeaders(), RttCells(f, r) + ConnCells(f, r) + PerfCells(f, r);
    LiveAgreeAppends(f, r, h, c, h', c');
    h, c := h + h', c + c';
    LiveAgreeAppends(f, r, h, c, LagHeaders(), LagCells(f, r));
    h, c := h + LagHeaders(), c + LagCells(f, r);
    LiveAgreeAppends(f, r, h, c, MemHeaders() + TailHeaders(), MemCells(f, r) + TailCells(f, r));
  }

  lemma {:induction false} RowInFive(f: Format, r: Record)
    ensures Headers() == RunHeaders() + LossHeaders() + (CalibrationHeaders() + LimitHeaders() + CpuHeaders())
                         + (RttHeaders() + ConnHeaders() + PerfHeaders()) + LagHeaders() + (MemHeaders() + TailHeaders())
    ensures LiveRow(f, r) == RunCells(f, r) + LossCells(f, r) + (CalibrationCells(f, r) + LimitCells(f, r) + CpuCells(f, r))
                             + (RttCells(f, r) + ConnCells(f, r) + PerfCells(f, r)) + LagCells(f, r)
                             + (MemCells(f, r) + TailCells(f, r))
  {
    hide RunHeaders, LossHeaders, CalibrationHeaders, LimitHeaders, CpuHeaders, RttHeaders, ConnHeaders, PerfHeaders, LagHeaders,
         MemHeaders, TailHeaders, RunCells, LossCells, CalibrationCells, LimitCells, CpuCells, RttCells, ConnCells, PerfCells,
         LagCells, MemCells, TailCells;
  }

  lemma {:induction false} ShowsLive(f: Format, r: Record, k: Key)
    requires k in Headers() && Unpersisted(k)
    ensures Shows(f, r, k, Field(f, r, k))
  {
    LiveRowLive(f, r);
    hide Headers, LiveRow, Field, Unpersisted;
  }

  lemma {:induction false} ShowsPersisted(f: Format, r: Record, k: Key)
    requires k in Headers() && !Unpersisted(k)
    ensures Shows(f, r, k, RebuiltCell(f, r, k))
  {
    LiveRowAgrees(f, r);
    hide Headers, LiveRow, RebuiltCell, Unpersisted;
  }

  lemma {:induction false} PerCore(throughput: real, peak: real)
    requires peak > 0.0
    ensures throughput / (peak / 100.0) == 100.0 * throughput / peak
  {
    var x := throughput / (peak / 100.0);
    assert x * (peak / 100.0) == throughput;
    assert x * peak == 100.0 * throughput;
  }

  lemma {:induction false} FieldIsCell(f: Format, r: Record, k: Key)
    requires !Unpersisted(k) && k != C(Category)
    ensures !k.C? && !k.L? ==> SummaryCell(f, r, k).GetOr("") == Field(f, r, k)
    ensures RebuiltCell(f, r, k) == Field(f, r, k)
  {
    hide Decimal, TotalIntegrityFailures, TotalBoundaryViolations, TotalMessages, MeanJitter;
    if r.sys.Some? && r.sys.value.cpuPctPeak > 0.0 {
      PerCore(r.stats.throughputGbps.mean, r.sys.value.cpuPctPeak);
    }
  }

  /** Every column of the live row shows the field it names. */
  lemma {:induction false} ColumnsShowFields(f: Format, r: Record, k: Key)
    requires k in Headers()
    ensures Shows(f, r, k, Field(f, r, k))
  {
    TextColumns();
    hide *;
    if Unpersisted(k) {
      ShowsLive(f, r, k);
    } else {
      ShowsPersisted(f, r, k);
      FieldIsCell(f, r, k);
    }
  }

  /** Looked up in the row by the name in the header, a column gives the field. */
  lemma {:induction false} ReadByName(f: Format, r: Record, k: Key)
    requires ValidFormat(f) && k in Headers()
    ensures Column(HeaderNames(f), LiveRow(f, r), f.spell(k)) == Field(f, r, k)
  {
    ColumnsShowFields(f, r, k);
    hide Headers, LiveRow, Field;
    var i :| 0 <= i < |Headers()| && Headers()[i] == k;
    assert HeaderNames(f)[i] == f.spell(k);
  }

  lemma {:induction false} LiveColumnsExist()
    ensures forall k :: Unpersisted(k) ==> k in Headers()
  {
    assert L(JitterMean) == LossHeaders()[0];
    assert L(CoCorrected) == LagHeaders()[0] && L(SendLagMean) == LagHeaders()[1] && L(SendLagMax) == LagHeaders()[2];
    forall k | Unpersisted(k)
      ensures k in Headers()
    {
      hide LossHeaders, LagHeaders, Headers;
      HeaderGroups(k);
    }
  }

  /** The four columns that no artifact persists: the jitter shown is the mean of the
      runs' jitters. */
  lemma {:induction false} LiveColumns(f: Format, r: Record) returns (jitter: real)
    ensures Shows(f, r, L(SendLagMean), f.num(r.stats.sendLagMeanUs, 3))
    ensures Shows(f, r, L(SendLagMax), f.num(r.stats.sendLagMaxUs, 3))
    ensures Shows(f, r, L(CoCorrected), if r.stats.coCorrected then "true" else "false")
    ensures Shows(f, r, L(JitterMean), f.num(jitter, 3))
    ensures Times(jitter, |r.stats.runs| as real) == TotalJitter(r.stats.runs) && (r.stats.runs == [] ==> jitter == 0.0)
  {
    jitter := MeanJitter(r.stats.runs);
    MeanTimesRuns(r.stats.runs);
    hide Headers, Shows, MeanJitter, TotalJitter, Field;
    LiveColumn(f, r, SendLagMean);
    LiveColumn(f, r, SendLagMax);
    LiveColumn(f, r, CoCorrected);
    LiveColumn(f, r, JitterMean);
  }

  lemma {:induction false} LiveColumn(f: Format, r: Record, l: LiveKey)
    requires l != Scenario
    ensures Shows(f, r, L(l), LiveField(f, r, l))
  {
    hide *;
    LiveColumnsExist();
    LiveFieldIs(f, r, l);
    ColumnsShowFields(f, r, L(l));
  }

  lemma {:induction false} LiveFieldIs(f: Format, r: Record, l: LiveKey)
    requires l != Scenario
    ensures Unpersisted(L(l)) && Field(f, r, L(l)) == LiveField(f, r, l)
  {
    hide LiveField, ConfigField, RunField, CalibrationField, SysField, PerfField, MemField, SweepField, RttField, ConnField,
         EffectiveField;
  }

  lemma {:induction false} MeanTimesRuns(runs: seq<Run>)
    ensures Times(MeanJitter(runs), |runs| as real) == TotalJitter(runs) && (runs == [] ==> MeanJitter(runs) == 0.0)
  {}

  /** Records with the same field under a column have the same cell there. */
  lemma {:induction false} SameFieldSameCell(f: Format, r: Record, q: Record, i: nat)
    requires i < |Headers()| && Field(f, r, Headers()[i]) == Field(f, q, Headers()[i])
    ensures |LiveRow(f, r)| == |LiveRow(f, q)| == |Headers()| && LiveRow(f, r)[i] == LiveRow(f, q)[i]
  {
    hide Headers, LiveRow, Field;
    ColumnsShowFields(f, r, Headers()[i]);
    ColumnsShowFields(f, q, Headers()[i]);
  }

  /** A change of one of the live-only fields shows in its own column and no other. */
  lemma {:induction false} LagChangesOneColumn(f: Format, r: Record, v: real, c: bool, i: nat)
    requires i < |Headers()|
    ensures |LiveRow(f, r)| == |Headers()|
    ensures var q := r.(stats := r.stats.(sendLagMeanUs := v));
            Headers()[i] != L(SendLagMean) ==> |LiveRow(f, q)| == |Headers()| && LiveRow(f, q)[i] == LiveRow(f, r)[i]
    ensures var q := r.(stats := r.stats.(sendLagMaxUs := v));
            Headers()[i] != L(SendLagMax) ==> |LiveRow(f, q)| == |Headers()| && LiveRow(f, q)[i] == LiveRow(f, r)[i]
    ensures var q := r.(stats := r.stats.(coCorrected := c));
            Headers()[i] != L(CoCorrected) ==> |LiveRow(f, q)| == |Headers()| && LiveRow(f, q)[i] == LiveRow(f, r)[i]
  {
    LiveRowShape(f, r);
    hide Headers, LiveRow;
    if Headers()[i] != L(SendLagMean) {
      SameFieldSameCell(f, r, r.(stats := r.stats.(sendLagMeanUs := v)), i);
    }
    if Headers()[i] != L(SendLagMax) {
      SameFieldSameCell(f, r, r.(stats := r.stats.(sendLagMaxUs := v)), i);
    }
    if Headers()[i] != L(CoCorrected) {
      SameFieldSameCell(f, r, r.(stats := r.stats.(coCorrected := c)), i);
    }
  }

  lemma {:induction false} TotalsOfUpdate(runs: seq<Run>, k: nat, j: real)
    requires k < |runs|
    ensures var more := runs[k := runs[k].(jitterUs := j)];
            && TotalJitter(more) == TotalJitter(runs) - runs[k].jitterUs + j && TotalMessages(more) == TotalMessages(runs)
            && TotalIntegrityFailures(more) == TotalIntegrityFailures(runs)
            && TotalBoundaryViolations(more) == TotalBoundaryViolations(runs)
  {
    var more := runs[k := runs[k].(jitterUs := j)];
    if k == 0 {
      assert more[1..] == runs[1..];
    } else {
      TotalsOfUpdate(runs[1..], k - 1, j);
      assert more[1..] == runs[1..][k - 1 := runs[k].(jitterUs := j)];
    }
  }

  /** The jitter of one run shows in the jitter column alone, by its part of the mean. */
  lemma {:induction false} JitterChangesOneColumn(f: Format, r: Record, k: nat, j: real, i: nat)
    requires k < |r.stats.runs| && i < |Headers()|
    ensures |LiveRow(f, r)| == |Headers()|
    ensures var more := r.stats.runs[k := r.stats.runs[k].(jitterUs := j)];
            && (Headers()[i] != L(JitterMean) ==>
                  var q := r.(stats := r.stats.(runs := more));
                  |LiveRow(f, q)| == |Headers()| && LiveRow(f, q)[i] == LiveRow(f, r)[i])
            && TotalJitter(more) == TotalJitter(r.stats.runs) - r.stats.runs[k].jitterUs + j
  {
    LiveRowShape(f, r);
    TotalsOfUpdate(r.stats.runs, k, j);
    hide *;
    if Headers()[i] != L(JitterMean) {
      var more := r.stats.runs[k := r.stats.runs[k].(jitterUs := j)];
      OtherRunsSameField(f, r, more, Headers()[i]);
      SameFieldSameCell(f, r, r.(stats := r.stats.(runs := more)), i);
    }
  }

  lemma {:induction false} OtherRunsSameField(f: Format, r: Record, more: seq<Run>, k: Key)
    requires k != L(JitterMean) && |more| == |r.stats.runs| && TotalMessages(more) == TotalMessages(r.stats.runs)
    requires TotalIntegrityFailures(more) == TotalIntegrityFailures(r.stats.runs)
    requires TotalBoundaryViolations(more) == TotalBoundaryViolations(r.stats.runs)
    ensures Field(f, r.(stats := r.stats.(runs := more)), k) == Field(f, r, k)
  {
    hide Decimal, TotalIntegrityFailures, TotalBoundaryViolations, TotalMessages, MeanJitter, CalibrationField,
         SysField, PerfField, MemField, SweepField, RttField, ConnField, EffectiveField;
  }

  /** The totals over runs add up, one run's own being its fields. */
  lemma {:induction false} TotalsAddUp(a: seq<Run>, b: seq<Run>)
    ensures TotalJitter(a + b) == TotalJitter(a) + TotalJitter(b)
    ensures TotalMessages(a + b) == TotalMessages(a) + TotalMessages(b)
    ensures TotalIntegrityFailures(a + b) == TotalIntegrityFailures(a) + TotalIntegrityFailures(b)
    ensures TotalBoundaryViolations(a + b) == TotalBoundaryViolations(a) + TotalBoundaryViolations(b)
    ensures |a| == 1 ==> TotalJitter(a) == a[0].jitterUs && TotalMessages(a) == a[0].messages
                         && TotalIntegrityFailures(a) == a[0].integrityFailures
                         && TotalBoundaryViolations(a) == a[0].boundaryViolations
    decreases a
  {
    if a == [] {
      assert a + b == b;
    } else {
      TotalsAddUp(a[1..], b);
      assert (a + b)[1..] == a[1..] + b;
    }
  }

  // ----- The artifacts, by key -----

  /** Whatever `summary.csv` reads back under a key is the field the key names, and
      what it does not list is blank. */
  lemma {:induction false} SummaryShowsFields(f: Format, r: Record, k: Key)
    requires ValidFormat(f) && OneLine(r) && !k.C? && !k.L?
    ensures var m := KeyValues(SummaryText(f, r));
            (if f.spell(k) in m then m[f.spell(k)] else "") == Field(f, r, k)
  {
    SummaryReads(f, r, k);
    FieldIsCell(f, r, k);
    hide SummaryCell, Field, KeyValues, SummaryText;
  }

  /** `config.csv` reads back as the configuration, field by field. */
  lemma {:induction false} ConfigShowsFields(f: Format, r: Record, c: ConfigKey)
    requires ValidFormat(f) && OneLine(r) && '\n' !in r.category.GetOr("")
    ensures var m := KeyValues(ConfigText(f, r));
            && f.spell(C(c)) in m && m[f.spell(C(c))] == ConfigField(r, c)
            && f.spell(A(Runs)) in m && m[f.spell(A(Runs))] == Decimal(r.runsRequested)
            && f.spell(A(OverheadAnalytical)) in m && m[f.spell(A(OverheadAnalytical))] == Field(f, r, A(OverheadAnalytical))
            && f.spell(A(OverheadCaptureVerified)) in m && m[f.spell(A(OverheadCaptureVerified))] == "false"
  {
    ConfigCells(r, c);
    hide ConfigCell, ConfigField, Decimal, KeyValues, ConfigText, ConfigKeys, NatCell;
    ConfigRead(f, r, C(c));
    ConfigRead(f, r, A(Runs));
    ConfigRead(f, r, A(OverheadAnalytical));
    ConfigRead(f, r, A(OverheadCaptureVerified));
  }

  lemma {:induction false} ConfigCells(r: Record, c: ConfigKey)
    ensures ConfigCell(r, C(c)) == Some(ConfigField(r, c))
    ensures ConfigCell(r, A(Runs)) == Some(Decimal(r.runsRequested))
    ensures ConfigCell(r, A(OverheadAnalytical)) == Some(if r.overhead.Some? then Decimal(r.overhead.value) else "")
    ensures ConfigCell(r, A(OverheadCaptureVerified)) == Some("false")
  {
    hide Decimal;
  }

  lemma {:induction false} ConfigRead(f: Format, r: Record, k: Key)
    requires ValidFormat(f) && OneLine(r) && '\n' !in r.category.GetOr("") && ConfigCell(r, k).Some?
    ensures var m := KeyValues(ConfigText(f, r)); f.spell(k) in m && m[f.spell(k)] == ConfigCell(r, k).value
  {
    var cell := k => ConfigCell(r, k);
    forall k
      ensures ConfigCell(r, k).Some? ==> '\n' !in ConfigCell(r, k).value
    {
      if k != C(Category) {
        ConfigCellIsOneLine(f, r, k);
      }
    }
    hide ConfigCell, ConfigKeys, KeyValues, Emitted, KeyValueText;
    EmittedPairs(f, ConfigKeys(), cell);
    PairsReadBack(ConfigPairs(f, r));
    EmittedReads(f, ConfigKeys(), cell, k);
    WrittenKeysAreListed(f, r, k);
  }
}
