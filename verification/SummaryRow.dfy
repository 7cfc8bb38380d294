/** The columns of the cross-scenario table, the key/value artifacts each
    scenario persists, and the row rebuilt from those artifacts. */
module SummaryRow {
  import opened Wrappers
  import opened Text
  import opened Csv

  // ----- Column and key names -----

  datatype ConfigKey =
    | Name | Category | Transport | Protocol | Pattern | MessageBytes | PayloadBytes | Connections
    | GatewayEnabled | WarmupSecs | MeasureSecs | CooldownSecs | OutlierRemoval

  datatype AggregateKey =
    | Runs | ThroughputMean | ThroughputCi95 | ThroughputStddev | ThroughputMin | ThroughputMax | ThroughputCov
    | LatencyMean | LatencyMeanCi95 | LatencyP99Mean | LatencyP99Ci95 | HandshakeMean | LossPct | TotalLost
    | IntegrityFailures | BoundaryViolations | Overloaded | ProtocolInEffect | OverheadAnalytical
    | OverheadCaptureVerified

  datatype CalibrationKey = CeilingGbps | Headroom | HarnessLimited | Dut | Bottleneck | CeilingTransport

  datatype SysKey =
    | CpuPctPeak | CpuPctMean | CpuPctP95 | CpuHotThreadPctP95 | HostBusyFracP95 | CpuSecondsTotal
    | CtxSwitchesTotal | CtxSwitchesPerS | RssPeakKib | PssPeakKib | GbpsPerCore

  datatype PerfKey =
    | Cycles | Instructions | Ipc | CacheReferences | CacheMisses | ContextSwitches | Syscalls | TaskClockMs | DurationS

  datatype MemKey = CopiesPerMsg | CopyToUser | CopyFromUser | SpliceSyscalls | PollSyscalls | IoUringEnter

  datatype SweepKey = SaturationGbps | MaxLossfreeGbps | KneeOfferedMbps

  datatype RttKey = RttMean | RttCi95 | RttP50 | RttP99 | RttSamples

  datatype ConnKey = ConnsPerSec | ConnsPerSecCi95 | ConnHandshakeP50 | ConnHandshakeP99 | ConnTotal

  datatype EffectiveKey = ResumedFraction | ResumedHandshakes | FullHandshakes

  /** Columns that only the live row fills. */
  datatype LiveKey = Scenario | JitterMean | CoCorrected | SendLagMean | SendLagMax

  /** Every name that heads a column or labels a key/value pair, grouped by the
      part of a record it describes. */
  datatype Key =
    | C(c: ConfigKey) | A(a: AggregateKey) | Cal(cal: CalibrationKey) | S(s: SysKey) | P(p: PerfKey) | M(m: MemKey)
    | Sw(sw: SweepKey) | R(r: RttKey) | Cn(cn: ConnKey) | E(e: EffectiveKey) | L(l: LiveKey)

  /** How floats are printed to a number of decimals, and how keys are spelled. */
  datatype Format = Format(num: (real, nat) -> string, spell: Key -> string)

  /** Spellings are distinct and nothing printed contains a line feed. */
  ghost predicate ValidFormat(f: Format) {
    && (forall a, b :: f.spell(a) == f.spell(b) ==> a == b)
    && (forall k :: '\n' !in f.spell(k))
    && (forall v, d :: '\n' !in f.num(v, d))
  }

  // ----- What one measured scenario hands to the writers -----

  datatype Aggregate = Aggregate(mean: real, ci95: real, stddev: real, min: real, max: real, cov: real)

  datatype Run = Run(integrityFailures: nat, boundaryViolations: nat, jitterUs: real, messages: nat)

  datatype Rtt = Rtt(meanUs: real, meanCi95: real, p50Us: real, p99Us: real, samples: nat)

  datatype Conn = Conn(connsPerSec: real, connsPerSecCi95: real, handshakeP50Us: real, handshakeP99Us: real, totalConns: nat)

  datatype Stats = Stats(
    runs: seq<Run>, throughputGbps: Aggregate, latencyMeanUs: Aggregate, latencyP99Us: Aggregate,
    handshakeMeanUs: real, lossPct: real, totalLost: nat, rtt: Option<Rtt>, conn: Option<Conn>,
    coCorrected: bool, sendLagMeanUs: real, sendLagMaxUs: real)

  datatype Calibration = Calibration(
    ceilingGbps: real, headroom: real, harnessLimited: bool, dut: string, bottleneck: string, ceilingTransport: string)

  datatype Sweep = Sweep(saturationGbps: real, maxLossfreeGbps: real, kneeOfferedMbps: real)

  datatype SysAgg = SysAgg(
    cpuPctPeak: real, cpuPctMean: real, cpuPctP95: real, cpuHotThreadPctP95: real, hostBusyFracP95: real,
    cpuSecondsTotal: real, ctxSwitchesTotal: nat, ctxSwitchesPerS: real, rssPeakKib: nat, pssPeakKib: nat)

  datatype Perf = Perf(
    cycles: Option<nat>, instructions: Option<nat>, ipc: Option<real>, cacheReferences: Option<nat>,
    cacheMisses: Option<nat>, contextSwitches: Option<nat>, syscalls: Option<nat>, taskClockMs: Option<real>,
    durationS: Option<real>)

  datatype MemCopies = MemCopies(
    copyToUser: Option<nat>, copyFromUser: Option<nat>, splice: Option<nat>, poll: Option<nat>,
    ppoll: Option<nat>, ioUringEnter: Option<nat>)
  {
    function CopiesPerMsg(messages: nat): Option<real> {
      if messages == 0 || (copyToUser.None? && copyFromUser.None?) then None
      else Some((copyToUser.GetOr(0) + copyFromUser.GetOr(0)) as real / messages as real)
    }
  }

  /** `inEffect` is the protocol the gateway logs show was in effect. */
  datatype Effective = Effective(inEffect: string, resumedHandshakes: nat, fullHandshakes: nat) {
    function ResumedFraction(): Option<real> {
      var total := resumedHandshakes + fullHandshakes;
      if total == 0 then None else Some(resumedHandshakes as real / total as real)
    }
  }

  datatype TrafficPattern = Sustained | Periodic | Burst | Ramp {
    function Printed(): string {
      match this
      case Sustained => "sustained"
      case Periodic => "periodic"
      case Burst => "burst"
      case Ramp => "ramp"
    }
  }

  /** Scenario, resolved run parameters, statistics and optional artifacts. */
  datatype Record = Record(
    name: string, category: Option<string>, transport: string, protocol: string, pattern: TrafficPattern,
    messageBytes: nat, connections: nat, gatewayEnabled: bool, runsRequested: nat, warmupSecs: nat,
    measureSecs: nat, cooldownSecs: nat, removeOutliers: bool, overhead: Option<nat>, stats: Stats,
    cal: Option<Calibration>, sweep: Option<Sweep>, sys: Option<SysAgg>, perf: Option<Perf>,
    mem: Option<MemCopies>, effective: Option<Effective>, lossThresholdPct: real)
  {
    function EffectiveLabel(): string {
      match effective
      case Some(e) => e.inEffect
      case None => protocol
    }

    predicate IsOverloaded() {
      stats.lossPct > lossThresholdPct
    }
  }

  /** Every text of the record that has a column is a single line. */
  predicate OneLine(r: Record) {
    && '\n' !in r.name && '\n' !in r.transport && '\n' !in r.protocol && '\n' !in r.EffectiveLabel()
    && (r.cal.Some? ==> '\n' !in r.cal.value.dut && '\n' !in r.cal.value.bottleneck && '\n' !in r.cal.value.ceilingTransport)
  }

  function TotalMessages(runs: seq<Run>): nat {
    if runs == [] then 0 else runs[0].messages + TotalMessages(runs[1..])
  }

  function TotalIntegrityFailures(runs: seq<Run>): nat {
    if runs == [] then 0 else runs[0].integrityFailures + TotalIntegrityFailures(runs[1..])
  }

  function TotalBoundaryViolations(runs: seq<Run>): nat {
    if runs == [] then 0 else runs[0].boundaryViolations + TotalBoundaryViolations(runs[1..])
  }

  function TotalJitter(runs: seq<Run>): real {
    if runs == [] then 0.0 else runs[0].jitterUs + TotalJitter(runs[1..])
  }

  function MeanJitter(runs: seq<Run>): real {
    if runs == [] then 0.0 else TotalJitter(runs) / |runs| as real
  }

  function Bool(b: bool): string {
    if b then "true" else "false"
  }

  function Count(o: Option<nat>): Option<string> {
    match o
    case Some(v) => Some(Decimal(v))
    case None => None
  }

  function Num(f: Format, o: Option<real>, decimals: nat): Option<string> {
    match o
    case Some(v) => Some(f.num(v, decimals))
    case None => None
  }

  function NatCell(o: Option<nat>): string {
    Count(o).GetOr("")
  }

  function NumCell(f: Format, o: Option<real>, decimals: nat): string {
    Num(f, o, decimals).GetOr("")
  }

  const HEADER_LEN: nat := 24

  // ----- The two key/value artifacts -----

  /** The value written under a key of `config.csv`. */
  function ConfigCell(r: Record, k: Key): Option<string> {
    match k
    case C(Name) => Some(r.name)
    case C(Category) => Some(r.category.GetOr(""))
    case C(Transport) => Some(r.transport)
    case C(Protocol) => Some(r.protocol)
    case C(Pattern) => Some(r.pattern.Printed())
    case C(MessageBytes) => Some(Decimal(r.messageBytes))
    case C(PayloadBytes) => Some(Decimal(Monus(r.messageBytes, HEADER_LEN)))
    case C(Connections) => Some(Decimal(r.connections))
    case C(GatewayEnabled) => Some(Bool(r.gatewayEnabled))
    case C(WarmupSecs) => Some(Decimal(r.warmupSecs))
    case C(MeasureSecs) => Some(Decimal(r.measureSecs))
    case C(CooldownSecs) => Some(Decimal(r.cooldownSecs))
    case C(OutlierRemoval) => Some(Bool(r.removeOutliers))
    case A(Runs) => Some(Decimal(r.runsRequested))
    case A(OverheadAnalytical) => Some(NatCell(r.overhead))
    case A(OverheadCaptureVerified) => Some("false")
    case _ => None
  }

  function AggregateCell(f: Format, r: Record, k: AggregateKey): string {
    var thr, lat, p99 := r.stats.throughputGbps, r.stats.latencyMeanUs, r.stats.latencyP99Us;
    match k
    case Runs => Decimal(|r.stats.runs|)
    case ThroughputMean => f.num(thr.mean, 4)
    case ThroughputCi95 => f.num(thr.ci95, 4)
    case ThroughputStddev => f.num(thr.stddev, 4)
    case ThroughputMin => f.num(thr.min, 4)
    case ThroughputMax => f.num(thr.max, 4)
    case ThroughputCov => f.num(thr.cov, 4)
    case LatencyMean => f.num(lat.mean, 3)
    case LatencyMeanCi95 => f.num(lat.ci95, 3)
    case LatencyP99Mean => f.num(p99.mean, 3)
    case LatencyP99Ci95 => f.num(p99.ci95, 3)
    case HandshakeMean => f.num(r.stats.handshakeMeanUs, 3)
    case LossPct => f.num(r.stats.lossPct, 4)
    case TotalLost => Decimal(r.stats.totalLost)
    case IntegrityFailures => Decimal(TotalIntegrityFailures(r.stats.runs))
    case BoundaryViolations => Decimal(TotalBoundaryViolations(r.stats.runs))
    case Overloaded => Bool(r.IsOverloaded())
    case ProtocolInEffect => r.EffectiveLabel()
    case OverheadAnalytical => NatCell(r.overhead)
    case OverheadCaptureVerified => "false"
  }

  function CalibrationCell(f: Format, c: Calibration, k: CalibrationKey): string {
    match k
    case CeilingGbps => f.num(c.ceilingGbps, 4)
    case Headroom => f.num(c.headroom, 2)
    case HarnessLimited => Bool(c.harnessLimited)
    case Dut => c.dut
    case Bottleneck => c.bottleneck
    case CeilingTransport => c.ceilingTransport
  }

  function SysCell(f: Format, a: SysAgg, throughput: real, k: SysKey): Option<string> {
    match k
    case CpuPctPeak => Some(f.num(a.cpuPctPeak, 1))
    case CpuPctMean => Some(f.num(a.cpuPctMean, 1))
    case CpuPctP95 => Some(f.num(a.cpuPctP95, 1))
    case CpuHotThreadPctP95 => Some(f.num(a.cpuHotThreadPctP95, 1))
    case HostBusyFracP95 => Some(f.num(a.hostBusyFracP95, 3))
    case CpuSecondsTotal => Some(f.num(a.cpuSecondsTotal, 4))
    case CtxSwitchesTotal => Some(Decimal(a.ctxSwitchesTotal))
    case CtxSwitchesPerS => Some(f.num(a.ctxSwitchesPerS, 1))
    case RssPeakKib => Some(Decimal(a.rssPeakKib))
    case PssPeakKib => Some(Decimal(a.pssPeakKib))
    case GbpsPerCore =>
      if a.cpuPctPeak > 0.0 then Some(f.num(throughput / (a.cpuPctPeak / 100.0), 4)) else None
  }

  function PerfCell(f: Format, p: Perf, k: PerfKey): Option<string> {
    match k
    case Cycles => Count(p.cycles)
    case Instructions => Count(p.instructions)
    case Ipc => Num(f, p.ipc, 3)
    case CacheReferences => Count(p.cacheReferences)
    case CacheMisses => Count(p.cacheMisses)
    case ContextSwitches => Count(p.contextSwitches)
    case Syscalls => Count(p.syscalls)
    case TaskClockMs => Num(f, p.taskClockMs, 3)
    case DurationS => Num(f, p.durationS, 6)
  }

  function MemCell(f: Format, m: MemCopies, messages: nat, k: MemKey): Option<string> {
    match k
    case CopiesPerMsg => Num(f, m.CopiesPerMsg(messages), 3)
    case CopyToUser => Count(m.copyToUser)
    case CopyFromUser => Count(m.copyFromUser)
    case SpliceSyscalls => Count(m.splice)
    case PollSyscalls => Count(m.poll.Or(m.ppoll))
    case IoUringEnter => Count(m.ioUringEnter)
  }

  function SweepCell(f: Format, s: Sweep, k: SweepKey): string {
    match k
    case SaturationGbps => f.num(s.saturationGbps, 4)
    case MaxLossfreeGbps => f.num(s.maxLossfreeGbps, 4)
    case KneeOfferedMbps => f.num(s.kneeOfferedMbps, 3)
  }

  function RttCell(f: Format, r: Rtt, k: RttKey): string {
    match k
    case RttMean => f.num(r.meanUs, 3)
    case RttCi95 => f.num(r.meanCi95, 3)
    case RttP50 => f.num(r.p50Us, 3)
    case RttP99 => f.num(r.p99Us, 3)
    case RttSamples => Decimal(r.samples)
  }

  function ConnCell(f: Format, c: Conn, k: ConnKey): string {
    match k
    case ConnsPerSec => f.num(c.connsPerSec, 1)
    case ConnsPerSecCi95 => f.num(c.connsPerSecCi95, 1)
    case ConnHandshakeP50 => f.num(c.handshakeP50Us, 3)
    case ConnHandshakeP99 => f.num(c.handshakeP99Us, 3)
    case ConnTotal => Decimal(c.totalConns)
  }

  function EffectiveCell(f: Format, e: Effective, k: EffectiveKey): Option<string> {
    match e.ResumedFraction()
    case None => None
    case Some(frac) =>
      match k
      case ResumedFraction => Some(f.num(frac, 3))
      case ResumedHandshakes => Some(Decimal(e.resumedHandshakes))
      case FullHandshakes => Some(Decimal(e.fullHandshakes))
  }

  /** The value written under a key of `summary.csv`, if the key is written. */
  function SummaryCell(f: Format, r: Record, k: Key): Option<string> {
    match k
    case A(a) => Some(AggregateCell(f, r, a))
    case Cal(c) => if r.cal.Some? then Some(CalibrationCell(f, r.cal.value, c)) else None
    case S(s) => if r.sys.Some? then SysCell(f, r.sys.value, r.stats.throughputGbps.mean, s) else None
    case P(p) => if r.perf.Some? then PerfCell(f, r.perf.value, p) else None
    case M(m) => if r.mem.Some? then MemCell(f, r.mem.value, TotalMessages(r.stats.runs), m) else None
    case Sw(s) => if r.sweep.Some? then Some(SweepCell(f, r.sweep.value, s)) else None
    case R(t) => if r.stats.rtt.Some? then Some(RttCell(f, r.stats.rtt.value, t)) else None
    case Cn(c) => if r.stats.conn.Some? then Some(ConnCell(f, r.stats.conn.value, c)) else None
    case E(e) => if r.effective.Some? then EffectiveCell(f, r.effective.value, e) else None
    case C(_) => None
    case L(_) => None
  }

  /** The keys of `config.csv` after the category. */
  function LaterKeys(): seq<Key> {
    [ C(Transport), C(Protocol), C(Pattern), C(MessageBytes), C(PayloadBytes), A(OverheadAnalytical),
      A(OverheadCaptureVerified), C(Connections), C(GatewayEnabled), A(Runs), C(WarmupSecs), C(MeasureSecs),
      C(CooldownSecs), C(OutlierRemoval) ]
  }

  /** The order in which `config.csv` is written. */
  function ConfigKeys(): seq<Key> {
    [C(Name), C(Category)] + LaterKeys()
  }

  function AggregateKeys(): seq<Key> {
    [ A(Runs), A(ThroughputMean), A(ThroughputCi95), A(ThroughputStddev), A(ThroughputMin), A(ThroughputMax),
      A(ThroughputCov), A(LatencyMean), A(LatencyMeanCi95), A(LatencyP99Mean), A(LatencyP99Ci95), A(HandshakeMean),
      A(LossPct), A(TotalLost), A(IntegrityFailures), A(BoundaryViolations), A(Overloaded), A(ProtocolInEffect),
      A(OverheadAnalytical), A(OverheadCaptureVerified) ]
  }

  function GatewayKeys(): seq<Key> {
    [ Cal(CeilingGbps), Cal(Headroom), Cal(HarnessLimited), Cal(Dut), Cal(Bottleneck), Cal(CeilingTransport),
      S(CpuPctPeak), S(CpuPctMean), S(CpuPctP95), S(CpuHotThreadPctP95), S(HostBusyFracP95), S(CpuSecondsTotal),
      S(CtxSwitchesTotal), S(CtxSwitchesPerS), S(RssPeakKib), S(PssPeakKib), S(GbpsPerCore) ]
  }

  function PerfKeys(): seq<Key> {
    [ P(Cycles), P(Instructions), P(Ipc), P(CacheReferences), P(CacheMisses), P(ContextSwitches), P(Syscalls),
      P(TaskClockMs), P(DurationS) ]
  }

  function MemKeys(): seq<Key> {
    [ M(CopiesPerMsg), M(CopyToUser), M(CopyFromUser), M(SpliceSyscalls), M(PollSyscalls), M(IoUringEnter) ]
  }

  function ModeKeys(): seq<Key> {
    [ Sw(SaturationGbps), Sw(MaxLossfreeGbps), Sw(KneeOfferedMbps), R(RttMean), R(RttCi95), R(RttP50), R(RttP99),
      R(RttSamples) ]
  }

  function ConnKeys(): seq<Key> {
    [ Cn(ConnsPerSec), Cn(ConnsPerSecCi95), Cn(ConnHandshakeP50), Cn(ConnHandshakeP99), Cn(ConnTotal),
      E(ResumedFraction), E(ResumedHandshakes), E(FullHandshakes) ]
  }

  /** The order in which `summary.csv` is written. */
  function SummaryKeys(): seq<Key> {
    AggregateKeys() + GatewayKeys() + PerfKeys() + MemKeys() + ModeKeys() + ConnKeys()
  }

  /** The pairs of an artifact: the keys in order, those without a value left out. */
  function Emitted(f: Format, keys: seq<Key>, cell: Key -> Option<string>): seq<seq<string>> {
    if keys == [] then []
    else
      var init, last := keys[..|keys| - 1], keys[|keys| - 1];
      Emitted(f, init, cell) + if cell(last).Some? then [[f.spell(last), cell(last).value]] else []
  }

  function ConfigPairs(f: Format, r: Record): seq<seq<string>> {
    Emitted(f, ConfigKeys(), k => ConfigCell(r, k))
  }

  function SummaryPairs(f: Format, r: Record): seq<seq<string>> {
    Emitted(f, SummaryKeys(), k => SummaryCell(f, r, k))
  }

  /** The text of `config.csv`. */
  function ConfigText(f: Format, r: Record): string {
    KeyValueText(ConfigPairs(f, r))
  }

  /** The text of a scenario's `summary.csv`. */
  function SummaryText(f: Format, r: Record): string {
    KeyValueText(SummaryPairs(f, r))
  }

  // ----- The live row, cell by cell in header order -----

  function RunHeaders(): seq<Key> {
    [ L(Scenario), C(Transport), C(Protocol), C(MessageBytes), C(Connections), A(Runs), A(ThroughputMean),
      A(ThroughputCi95), A(ThroughputMin), A(ThroughputMax), A(LatencyMean), A(LatencyMeanCi95), A(LatencyP99Mean),
      A(LatencyP99Ci95) ]
  }

  function RunCells(f: Format, r: Record): seq<string> {
    var thr, lat, p99 := r.stats.throughputGbps, r.stats.latencyMeanUs, r.stats.latencyP99Us;
    [ r.name, r.transport, r.protocol, Decimal(r.messageBytes), Decimal(r.connections), Decimal(|r.stats.runs|),
      f.num(thr.mean, 4), f.num(thr.ci95, 4), f.num(thr.min, 4), f.num(thr.max, 4),
      f.num(lat.mean, 3), f.num(lat.ci95, 3), f.num(p99.mean, 3), f.num(p99.ci95, 3) ]
  }

  function LossHeaders(): seq<Key> {
    [ L(JitterMean), A(HandshakeMean), A(LossPct), A(TotalLost), A(IntegrityFailures), A(BoundaryViolations),
      A(OverheadAnalytical), A(OverheadCaptureVerified) ]
  }

  function LossCells(f: Format, r: Record): seq<string> {
    [ f.num(MeanJitter(r.stats.runs), 3), f.num(r.stats.handshakeMeanUs, 3), f.num(r.stats.lossPct, 4),
      Decimal(r.stats.totalLost), Decimal(TotalIntegrityFailures(r.stats.runs)),
      Decimal(TotalBoundaryViolations(r.stats.runs)), NatCell(r.overhead), "false" ]
  }

  function CalibrationHeaders(): seq<Key> {
    [ Cal(CeilingGbps), Cal(Headroom), Cal(HarnessLimited), Cal(Dut) ]
  }

  function CalibrationCells(f: Format, r: Record): seq<string> {
    match r.cal
    case Some(c) => [ f.num(c.ceilingGbps, 4), f.num(c.headroom, 2), Bool(c.harnessLimited), c.dut ]
    case None => ["", "", "", ""]
  }

  function LimitHeaders(): seq<Key> {
    [ Sw(SaturationGbps), Sw(MaxLossfreeGbps), A(Overloaded), A(ProtocolInEffect) ]
  }

  function LimitCells(f: Format, r: Record): seq<string> {
    (match r.sweep
     case Some(s) => [ f.num(s.saturationGbps, 4), f.num(s.maxLossfreeGbps, 4) ]
     case None => ["", ""])
    + [ Bool(r.IsOverloaded()), r.EffectiveLabel() ]
  }

  function CpuHeaders(): seq<Key> {
    [ S(CpuPctPeak), S(CpuPctMean), S(RssPeakKib), S(PssPeakKib), S(GbpsPerCore), Cal(Bottleneck) ]
  }

  function CpuCells(f: Format, r: Record): seq<string> {
    (match r.sys
     case Some(a) =>
       [ f.num(a.cpuPctPeak, 1), f.num(a.cpuPctMean, 1), Decimal(a.rssPeakKib), Decimal(a.pssPeakKib),
         if a.cpuPctPeak > 0.0 then f.num(r.stats.throughputGbps.mean / (a.cpuPctPeak / 100.0), 4) else "" ]
     case None => ["", "", "", "", ""])
    + [ if r.cal.Some? then r.cal.value.bottleneck else "" ]
  }

  function RttHeaders(): seq<Key> {
    [ R(RttMean), R(RttCi95), R(RttP50), R(RttP99) ]
  }

  function RttCells(f: Format, r: Record): seq<string> {
    match r.stats.rtt
    case Some(t) => [ f.num(t.meanUs, 3), f.num(t.meanCi95, 3), f.num(t.p50Us, 3), f.num(t.p99Us, 3) ]
    case None => ["", "", "", ""]
  }

  function ConnHeaders(): seq<Key> {
    [ Cn(ConnsPerSec), Cn(ConnsPerSecCi95), Cn(ConnHandshakeP50), Cn(ConnHandshakeP99) ]
  }

  function ConnCells(f: Format, r: Record): seq<string> {
    match r.stats.conn
    case Some(c) =>
      [ f.num(c.connsPerSec, 1), f.num(c.connsPerSecCi95, 1), f.num(c.handshakeP50Us, 3), f.num(c.handshakeP99Us, 3) ]
    case None => ["", "", "", ""]
  }

  function PerfHeaders(): seq<Key> {
    [ P(Cycles), P(Instructions), P(Ipc), P(CacheReferences), P(CacheMisses), P(ContextSwitches), P(Syscalls),
      P(TaskClockMs), P(DurationS) ]
  }

  function PerfCells(f: Format, r: Record): seq<string> {
    match r.perf
    case Some(p) =>
      [ NatCell(p.cycles), NatCell(p.instructions), NumCell(f, p.ipc, 3), NatCell(p.cacheReferences),
        NatCell(p.cacheMisses), NatCell(p.contextSwitches), NatCell(p.syscalls), NumCell(f, p.taskClockMs, 3),
        NumCell(f, p.durationS, 6) ]
    case None => ["", "", "", "", "", "", "", "", ""]
  }

  function LagHeaders(): seq<Key> {
    [ L(CoCorrected), L(SendLagMean), L(SendLagMax), S(CtxSwitchesTotal), S(CtxSwitchesPerS), S(CpuSecondsTotal) ]
  }

  function LagCells(f: Format, r: Record): seq<string> {
    [ Bool(r.stats.coCorrected), f.num(r.stats.sendLagMeanUs, 3), f.num(r.stats.sendLagMaxUs, 3),
      if r.sys.Some? then Decimal(r.sys.value.ctxSwitchesTotal) else "",
      if r.sys.Some? then f.num(r.sys.value.ctxSwitchesPerS, 1) else "",
      if r.sys.Some? then f.num(r.sys.value.cpuSecondsTotal, 4) else "" ]
  }

  function MemHeaders(): seq<Key> {
    [ M(CopiesPerMsg), M(CopyToUser), M(CopyFromUser), M(SpliceSyscalls), M(PollSyscalls), M(IoUringEnter) ]
  }

  function MemCells(f: Format, r: Record): seq<string> {
    match r.mem
    case Some(m) =>
      [ NumCell(f, m.CopiesPerMsg(TotalMessages(r.stats.runs)), 3), NatCell(m.copyToUser), NatCell(m.copyFromUser),
        NatCell(m.splice), NatCell(m.poll.Or(m.ppoll)), NatCell(m.ioUringEnter) ]
    case None => ["", "", "", "", "", ""]
  }

  function TailHeaders(): seq<Key> {
    [ E(ResumedFraction), S(CpuHotThreadPctP95), S(HostBusyFracP95), Cal(CeilingTransport) ]
  }

  function TailCells(f: Format, r: Record): seq<string> {
    [ if r.effective.Some? then NumCell(f, r.effective.value.ResumedFraction(), 3) else "",
      if r.sys.Some? then f.num(r.sys.value.cpuHotThreadPctP95, 1) else "",
      if r.sys.Some? then f.num(r.sys.value.hostBusyFracP95, 3) else "",
      if r.cal.Some? then r.cal.value.ceilingTransport else "" ]
  }

  /** The columns of the cross-scenario table. */
  function Headers(): seq<Key> {
    RunHeaders() + LossHeaders() + CalibrationHeaders() + LimitHeaders() + CpuHeaders() + RttHeaders()
    + ConnHeaders() + PerfHeaders() + LagHeaders() + MemHeaders() + TailHeaders()
  }

  /** The row a scenario contributes when it is measured. */
  function LiveRow(f: Format, r: Record): seq<string> {
    RunCells(f, r) + LossCells(f, r) + CalibrationCells(f, r) + LimitCells(f, r) + CpuCells(f, r) + RttCells(f, r)
    + ConnCells(f, r) + PerfCells(f, r) + LagCells(f, r) + MemCells(f, r) + TailCells(f, r)
  }

  function HeaderNames(f: Format): (hs: seq<string>)
    ensures |hs| == |Headers()|
  {
    seq(|Headers()|, i requires 0 <= i < |Headers()| => f.spell(Headers()[i]))
  }

  // ----- The rebuilt row -----

  /** The cell under one header: from the summary first and the configuration
      second, blank when neither has it. */
  function FoundCell(f: Format, config: map<string, string>, summary: map<string, string>, header: string): string {
    var key := if header == f.spell(L(Scenario)) then f.spell(C(Name)) else header;
    if key in summary then summary[key] else if key in config then config[key] else ""
  }

  /** `reconstruct_summary_row`: one cell per header. */
  function ReconstructedRow(f: Format, config: map<string, string>, summary: map<string, string>): (row: seq<string>)
    ensures |row| == |Headers()|
  {
    seq(|Headers()|, i requires 0 <= i < |Headers()| => FoundCell(f, config, summary, HeaderNames(f)[i]))
  }

  /** The columns no artifact persists. */
  predicate Unpersisted(k: Key) {
    k in {L(JitterMean), L(CoCorrected), L(SendLagMean), L(SendLagMax)}
  }

  /** A row with the unpersisted columns blanked. */
  function Persisted(row: seq<string>): (p: seq<string>)
    requires |row| == |Headers()|
    ensures |p| == |row|
  {
    seq(|row|, i requires 0 <= i < |row| => if Unpersisted(Headers()[i]) then "" else row[i])
  }

  // ----- Reading the artifacts back -----

  lemma {:induction false} EmittedReads(f: Format, keys: seq<Key>, cell: Key -> Option<string>, k: Key)
    requires ValidFormat(f)
    ensures var m := MapOf(Emitted(f, keys, cell));
            (f.spell(k) in m <==> k in keys && cell(k).Some?) &&
            (f.spell(k) in m ==> m[f.spell(k)] == cell(k).value)
  {
    if keys != [] {
      var init, last := keys[..|keys| - 1], keys[|keys| - 1];
      EmittedReads(f, init, cell, k);
      assert keys == init + [last];
      if cell(last).Some? {
        MapOfSnoc(Emitted(f, init, cell), [f.spell(last), cell(last).value]);
      } else {
        assert Emitted(f, keys, cell) == Emitted(f, init, cell);
      }
    }
  }

  lemma {:induction false} EmittedPairs(f: Format, keys: seq<Key>, cell: Key -> Option<string>)
    requires ValidFormat(f) && forall k :: k in keys && cell(k).Some? ==> '\n' !in cell(k).value
    ensures Pairs(Emitted(f, keys, cell))
  {
    if keys != [] {
      var init, last := keys[..|keys| - 1], keys[|keys| - 1];
      assert keys == init + [last];
      EmittedPairs(f, init, cell);
    }
  }

  lemma {:induction false} EmittedAppends(f: Format, a: seq<Key>, b: seq<Key>, cell: Key -> Option<string>)
    ensures Emitted(f, a + b, cell) == Emitted(f, a, cell) + Emitted(f, b, cell)
    decreases b
  {
    if b == [] {
      assert a + b == a;
    } else {
      var last := |b| - 1;
      assert (a + b)[..|a| + last] == a + b[..last] && (a + b)[|a| + last] == b[last];
      EmittedAppends(f, a, b[..last], cell);
    }
  }

  lemma {:induction false} DecimalIsOneLine(n: nat)
    ensures '\n' !in Decimal(n)
  {
    assert forall i :: 0 <= i < |Decimal(n)| ==> IsDigit(Decimal(n)[i]);
  }

  lemma {:induction false} ConfigCellIsOneLine(f: Format, r: Record, k: Key)
    requires ValidFormat(f) && OneLine(r) && k != C(Category)
    ensures ConfigCell(r, k).Some? ==> '\n' !in ConfigCell(r, k).value
  {
    AllDecimalsAreOneLine();
  }

  lemma {:induction false} SummaryCellIsOneLine(f: Format, r: Record, k: Key)
    requires ValidFormat(f) && OneLine(r)
    ensures SummaryCell(f, r, k).Some? ==> '\n' !in SummaryCell(f, r, k).value
  {
    AllDecimalsAreOneLine();
  }

  lemma {:induction false} AggregateKeysAreListed(a: AggregateKey)
    ensures A(a) in AggregateKeys()
  {
    match a { case Runs => case ThroughputMean => case ThroughputCi95 => case ThroughputStddev => case ThroughputMin =>
              case ThroughputMax => case ThroughputCov => case LatencyMean => case LatencyMeanCi95 =>
              case LatencyP99Mean => case LatencyP99Ci95 => case HandshakeMean => case LossPct => case TotalLost =>
              case IntegrityFailures => case BoundaryViolations => case Overloaded => case ProtocolInEffect =>
              case OverheadAnalytical => case OverheadCaptureVerified => }
  }

  lemma {:induction false} GatewayKeysAreListed(c: CalibrationKey, s: SysKey)
    ensures Cal(c) in GatewayKeys() && S(s) in GatewayKeys()
  {
    match c { case CeilingGbps => case Headroom => case HarnessLimited => case Dut => case Bottleneck =>
              case CeilingTransport => }
    match s { case CpuPctPeak => case CpuPctMean => case CpuPctP95 => case CpuHotThreadPctP95 => case HostBusyFracP95 =>
              case CpuSecondsTotal => case CtxSwitchesTotal => case CtxSwitchesPerS => case RssPeakKib =>
              case PssPeakKib => case GbpsPerCore => }
  }

  lemma {:induction false} CounterKeysAreListed(p: PerfKey, m: MemKey)
    ensures P(p) in PerfKeys() && M(m) in MemKeys()
  {
    match p { case Cycles => case Instructions => case Ipc => case CacheReferences => case CacheMisses =>
              case ContextSwitches => case Syscalls => case TaskClockMs => case DurationS => }
    match m { case CopiesPerMsg => case CopyToUser => case CopyFromUser => case SpliceSyscalls =>
              case PollSyscalls => case IoUringEnter => }
  }

  lemma {:induction false} ModeKeysAreListed(s: SweepKey, r: RttKey, c: ConnKey, e: EffectiveKey)
    ensures Sw(s) in ModeKeys() && R(r) in ModeKeys() && Cn(c) in ConnKeys() && E(e) in ConnKeys()
  {
    match s { case SaturationGbps => case MaxLossfreeGbps => case KneeOfferedMbps => }
    match r { case RttMean => case RttCi95 => case RttP50 => case RttP99 => case RttSamples => }
    match c { case ConnsPerSec => case ConnsPerSecCi95 => case ConnHandshakeP50 => case ConnHandshakeP99 =>
              case ConnTotal => }
    match e { case ResumedFraction => case ResumedHandshakes => case FullHandshakes => }
  }

  /** Every key with a value is in the writing order. */
  lemma {:induction false} WrittenKeysAreListed(f: Format, r: Record, k: Key)
    ensures ConfigCell(r, k).Some? ==> k in ConfigKeys()
    ensures SummaryCell(f, r, k).Some? ==> k in SummaryKeys()
  {
    match k
    case A(a) => AggregateKeysAreListed(a);
    case Cal(c) => GatewayKeysAreListed(c, CpuPctPeak);
    case S(s) => GatewayKeysAreListed(Dut, s);
    case P(p) => CounterKeysAreListed(p, CopyToUser);
    case M(m) => CounterKeysAreListed(Cycles, m);
    case Sw(s) => ModeKeysAreListed(s, RttMean, ConnTotal, ResumedFraction);
    case R(t) => ModeKeysAreListed(SaturationGbps, t, ConnTotal, ResumedFraction);
    case Cn(c) => ModeKeysAreListed(SaturationGbps, RttMean, c, ResumedFraction);
    case E(e) => ModeKeysAreListed(SaturationGbps, RttMean, ConnTotal, e);
    case C(_) =>
    case L(_) =>
  }

  /** The key a column is looked up by. */
  function KeyOf(header: Key): Key {
    if header == L(Scenario) then C(Name) else header
  }

  /** The cell written for a column in the two artifacts, blank if there is none. */
  function RebuiltCell(f: Format, r: Record, header: Key): string {
    SummaryCell(f, r, KeyOf(header)).Or(ConfigCell(r, KeyOf(header))).GetOr("")
  }

  /** What the category reads as, the one free text without a column: its own pair,
      and whatever pairs its further lines pass for. */
  function CategoryRead(f: Format, r: Record): map<string, string> {
    Read([[f.spell(C(Category)), r.category.GetOr("")]])
  }

  /** A line of the category is taken for the column: no later pair wins over it. */
  predicate Taken(f: Format, r: Record, header: Key) {
    var key := KeyOf(header);
    f.spell(key) in CategoryRead(f, r) && SummaryCell(f, r, key).None? && key !in LaterKeys()
  }

  predicate HarmlessAt(f: Format, r: Record, header: Key) {
    Taken(f, r, header) ==> CategoryRead(f, r)[f.spell(KeyOf(header))] == RebuiltCell(f, r, header)
  }

  /** Columns taken from the category's lines have what they would have had. */
  predicate Harmless(f: Format, r: Record) {
    forall h :: h in Headers() ==> HarmlessAt(f, r, h)
  }

  lemma {:induction false} SummaryReads(f: Format, r: Record, k: Key)
    requires ValidFormat(f) && OneLine(r)
    ensures var m := KeyValues(SummaryText(f, r));
            (f.spell(k) in m <==> SummaryCell(f, r, k).Some?) && (f.spell(k) in m ==> m[f.spell(k)] == SummaryCell(f, r, k).value)
  {
    var cell := k => SummaryCell(f, r, k);
    forall k
      ensures SummaryCell(f, r, k).Some? ==> '\n' !in SummaryCell(f, r, k).value
    {
      SummaryCellIsOneLine(f, r, k);
    }
    hide SummaryCell, SummaryKeys, KeyValues, Emitted, KeyValueText;
    EmittedPairs(f, SummaryKeys(), cell);
    PairsReadBack(SummaryPairs(f, r));
    EmittedReads(f, SummaryKeys(), cell, k);
    WrittenKeysAreListed(f, r, k);
  }

  lemma {:induction false} PartReads(f: Format, r: Record, keys: seq<Key>, k: Key)
    requires ValidFormat(f) && OneLine(r) && C(Category) !in keys
    ensures var m := Read(Emitted(f, keys, k => ConfigCell(r, k)));
            (f.spell(k) in m <==> k in keys && ConfigCell(r, k).Some?)
            && (f.spell(k) in m ==> m[f.spell(k)] == ConfigCell(r, k).value)
  {
    var cell := k => ConfigCell(r, k);
    forall k | k in keys
      ensures ConfigCell(r, k).Some? ==> '\n' !in ConfigCell(r, k).value
    {
      ConfigCellIsOneLine(f, r, k);
    }
    hide ConfigCell, Read, Emitted;
    EmittedPairs(f, keys, cell);
    ReadPairs(Emitted(f, keys, cell));
    EmittedReads(f, keys, cell, k);
  }

  /** `config.csv` reads as its name, what the category reads as, and the rest. */
  lemma {:induction false} ConfigMerges(f: Format, r: Record)
    ensures var cell := k => ConfigCell(r, k);
            KeyValues(ConfigText(f, r)) == Read(Emitted(f, [C(Name)], cell)) + CategoryRead(f, r) + Read(Emitted(f, LaterKeys(), cell))
  {
    var cell := k => ConfigCell(r, k);
    var a, b, c := [C(Name)], [C(Category)], LaterKeys();
    assert ConfigKeys() == a + b + c;
    assert b[..0] == [] && Emitted(f, b, cell) == [[f.spell(C(Category)), r.category.GetOr("")]];
    hide Emitted, Read, KeyValues, ConfigKeys, ConfigCell, KeyValueText;
    EmittedAppends(f, a + b, c, cell);
    EmittedAppends(f, a, b, cell);
    ReadAppends(Emitted(f, a, cell) + Emitted(f, b, cell), Emitted(f, c, cell));
    ReadAppends(Emitted(f, a, cell), Emitted(f, b, cell));
    KeyValuesAreRead(ConfigPairs(f, r));
  }

  lemma {:induction false} ConfigReads(f: Format, r: Record, k: Key)
    requires ValidFormat(f) && OneLine(r) && k != C(Category)
    ensures var m := KeyValues(ConfigText(f, r));
            if f.spell(k) in CategoryRead(f, r) && k !in LaterKeys() then
              f.spell(k) in m && m[f.spell(k)] == CategoryRead(f, r)[f.spell(k)]
            else
              (f.spell(k) in m <==> ConfigCell(r, k).Some?) && (f.spell(k) in m ==> m[f.spell(k)] == ConfigCell(r, k).value)
  {
    WrittenKeysAreListed(f, r, k);
    LaterKeysAreWritten(r, k);
    hide CategoryRead, KeyValues, Read, Emitted, ConfigCell, ConfigText;
    ConfigMerges(f, r);
    PartReads(f, r, [C(Name)], k);
    PartReads(f, r, LaterKeys(), k);
  }

  lemma {:induction false} LaterKeysAreWritten(r: Record, k: Key)
    ensures C(Category) !in LaterKeys() && (k in LaterKeys() ==> ConfigCell(r, k).Some?)
    ensures k in ConfigKeys() ==> k == C(Name) || k == C(Category) || k in LaterKeys()
  {
    LaterKey(r, k);
    hide LaterKeys;
  }

  lemma {:induction false} LaterKey(r: Record, k: Key)
    ensures C(Category) !in LaterKeys() && (k in LaterKeys() ==> ConfigCell(r, k).Some?)
  {
    hide Decimal;
  }

  lemma {:induction false} ArtifactsReadBack(f: Format, r: Record, header: Key)
    requires ValidFormat(f) && OneLine(r) && header != C(Category)
    ensures FoundCell(f, KeyValues(ConfigText(f, r)), KeyValues(SummaryText(f, r)), f.spell(header)) ==
            if Taken(f, r, header) then CategoryRead(f, r)[f.spell(KeyOf(header))] else RebuiltCell(f, r, header)
  {
    hide KeyValues, CategoryRead, SummaryCell, ConfigCell, ConfigText, SummaryText, LaterKeys;
    assert f.spell(header) == f.spell(L(Scenario)) <==> header == L(Scenario);
    SummaryReads(f, r, KeyOf(header));
    ConfigReads(f, r, KeyOf(header));
  }

  lemma {:induction false} OneLineCategory(f: Format, r: Record, header: Key)
    requires ValidFormat(f) && '\n' !in r.category.GetOr("") && header != C(Category)
    ensures !Taken(f, r, header)
  {
    var rows := [[f.spell(C(Category)), r.category.GetOr("")]];
    ReadPairs(rows);
    assert rows[..0] == [];
    hide SummaryCell, LaterKeys, Read;
  }

  // ----- The rebuilt row against the live one -----

  /** Live cells and rebuilt cells agree wherever the column is persisted; the
      others are rebuilt blank. */
  ghost predicate AgreeOn(f: Format, r: Record, headers: seq<Key>, cells: seq<string>, lo: nat, hi: nat)
    requires |headers| == |cells| >= hi
  {
    forall i :: lo <= i < hi ==>
      RebuiltCell(f, r, headers[i]) == if Unpersisted(headers[i]) then "" else cells[i]
  }

  ghost predicate Agree(f: Format, r: Record, headers: seq<Key>, cells: seq<string>) {
    |headers| == |cells| && AgreeOn(f, r, headers, cells, 0, |headers|)
  }

  lemma {:induction false} AgreeAppends(
    f: Format, r: Record, h: seq<Key>, c: seq<string>, h': seq<Key>, c': seq<string>)
    requires Agree(f, r, h, c) && Agree(f, r, h', c')
    ensures Agree(f, r, h + h', c + c')
  {
    forall i | 0 <= i < |h + h'|
      ensures RebuiltCell(f, r, (h + h')[i]) == if Unpersisted((h + h')[i]) then "" else (c + c')[i]
    {
      if i < |h| {
        assert (h + h')[i] == h[i] && (c + c')[i] == c[i];
      } else {
        assert (h + h')[i] == h'[i - |h|] && (c + c')[i] == c'[i - |c|];
      }
    }
  }

  lemma {:induction false} RunCellsAgreeBelow(f: Format, r: Record)
    ensures |RunHeaders()| == |RunCells(f, r)| == 14 && AgreeOn(f, r, RunHeaders(), RunCells(f, r), 0, 7)
  {
    hide Decimal, TotalMessages, TotalIntegrityFailures, TotalBoundaryViolations, MeanJitter;
  }

  lemma {:induction false} RunCellsAgreeAbove(f: Format, r: Record)
    ensures |RunHeaders()| == |RunCells(f, r)| == 14 && AgreeOn(f, r, RunHeaders(), RunCells(f, r), 7, 14)
  {
    hide Decimal, TotalMessages, TotalIntegrityFailures, TotalBoundaryViolations, MeanJitter;
  }

  lemma {:induction false} LossCellsAgreeBelow(f: Format, r: Record)
    ensures |LossHeaders()| == |LossCells(f, r)| == 8 && AgreeOn(f, r, LossHeaders(), LossCells(f, r), 0, 4)
  {
    hide Decimal, TotalMessages, TotalIntegrityFailures, TotalBoundaryViolations, MeanJitter;
  }

  lemma {:induction false} LossCellsAgreeAbove(f: Format, r: Record)
    ensures |LossHeaders()| == |LossCells(f, r)| == 8 && AgreeOn(f, r, LossHeaders(), LossCells(f, r), 4, 8)
  {
    hide Decimal, TotalMessages, TotalIntegrityFailures, TotalBoundaryViolations, MeanJitter;
  }

  lemma {:induction false} CalibrationCellsAgree(f: Format, r: Record)
    ensures Agree(f, r, CalibrationHeaders(), CalibrationCells(f, r))
  {
  }

  lemma {:induction false} LimitCellsAgree(f: Format, r: Record)
    ensures Agree(f, r, LimitHeaders(), LimitCells(f, r))
  {
  }

  lemma {:induction false} CpuCellsAgree(f: Format, r: Record)
    ensures Agree(f, r, CpuHeaders(), CpuCells(f, r))
  {
    hide Decimal, TotalMessages, TotalIntegrityFailures, TotalBoundaryViolations, MeanJitter;
  }

  lemma {:induction false} RttCellsAgree(f: Format, r: Record)
    ensures Agree(f, r, RttHeaders(), RttCells(f, r))
  {
  }

  lemma {:induction false} ConnCellsAgree(f: Format, r: Record)
    ensures Agree(f, r, ConnHeaders(), ConnCells(f, r))
  {
  }

  lemma {:induction false} PerfCellsAgreeBelow(f: Format, r: Record)
    ensures |PerfHeaders()| == |PerfCells(f, r)| == 9 && AgreeOn(f, r, PerfHeaders(), PerfCells(f, r), 0, 5)
  {
    hide Decimal, TotalMessages, TotalIntegrityFailures, TotalBoundaryViolations, MeanJitter;
  }

  lemma {:induction false} PerfCellsAgreeAbove(f: Format, r: Record)
    ensures |PerfHeaders()| == |PerfCells(f, r)| == 9 && AgreeOn(f, r, PerfHeaders(), PerfCells(f, r), 5, 9)
  {
    hide Decimal, TotalMessages, TotalIntegrityFailures, TotalBoundaryViolations, MeanJitter;
  }

  lemma {:induction false} LagCellsAgree(f: Format, r: Record)
    ensures Agree(f, r, LagHeaders(), LagCells(f, r))
  {
    hide Decimal, TotalMessages, TotalIntegrityFailures, TotalBoundaryViolations, MeanJitter;
  }

  lemma {:induction false} MemCellsAgree(f: Format, r: Record)
    ensures Agree(f, r, MemHeaders(), MemCells(f, r))
  {
    hide Decimal, TotalMessages, TotalIntegrityFailures, TotalBoundaryViolations, MeanJitter;
  }

  lemma {:induction false} TailCellsAgree(f: Format, r: Record)
    ensures Agree(f, r, TailHeaders(), TailCells(f, r))
  {
  }

  lemma {:induction false} LiveRowAgrees(f: Format, r: Record)
    ensures Agree(f, r, Headers(), LiveRow(f, r))
  {
    RunCellsAgreeBelow(f, r);
    RunCellsAgreeAbove(f, r);
    LossCellsAgreeBelow(f, r);
    LossCellsAgreeAbove(f, r);
    CalibrationCellsAgree(f, r);
    LimitCellsAgree(f, r);
    CpuCellsAgree(f, r);
    RttCellsAgree(f, r);
    ConnCellsAgree(f, r);
    PerfCellsAgreeBelow(f, r);
    PerfCellsAgreeAbove(f, r);
    LagCellsAgree(f, r);
    MemCellsAgree(f, r);
    TailCellsAgree(f, r);
    var h, c := RunHeaders(), RunCells(f, r);
    AgreeAppends(f, r, h, c, LossHeaders(), LossCells(f, r));
    h, c := h + LossHeaders(), c + LossCells(f, r);
    AgreeAppends(f, r, h, c, CalibrationHeaders(), CalibrationCells(f, r));
    h, c := h + CalibrationHeaders(), c + CalibrationCells(f, r);
    AgreeAppends(f, r, h, c, LimitHeaders(), LimitCells(f, r));
    h, c := h + LimitHeaders(), c + LimitCells(f, r);
    AgreeAppends(f, r, h, c, CpuHeaders(), CpuCells(f, r));
    h, c := h + CpuHeaders(), c + CpuCells(f, r);
    AgreeAppends(f, r, h, c, RttHeaders(), RttCells(f, r));
    h, c := h + RttHeaders(), c + RttCells(f, r);
    AgreeAppends(f, r, h, c, ConnHeaders(), ConnCells(f, r));
    h, c := h + ConnHeaders(), c + ConnCells(f, r);
    AgreeAppends(f, r, h, c, PerfHeaders(), PerfCells(f, r));
    h, c := h + PerfHeaders(), c + PerfCells(f, r);
    AgreeAppends(f, r, h, c, LagHeaders(), LagCells(f, r));
    h, c := h + LagHeaders(), c + LagCells(f, r);
    AgreeAppends(f, r, h, c, MemHeaders(), MemCells(f, r));
    h, c := h + MemHeaders(), c + MemCells(f, r);
    AgreeAppends(f, r, h, c, TailHeaders(), TailCells(f, r));
  }

  /** The rebuilt row is never the live row: the live one always says whether
      latency is corrected for coordinated omission. */
  lemma {:induction false} ReconstructionIsNeverLive(f: Format, r: Record)
    requires |LiveRow(f, r)| == |Headers()|
    ensures Persisted(LiveRow(f, r)) != LiveRow(f, r)
  {
    var before := RunCells(f, r) + LossCells(f, r) + CalibrationCells(f, r) + LimitCells(f, r) + CpuCells(f, r)
      + RttCells(f, r) + ConnCells(f, r) + PerfCells(f, r);
    assert |before| == 53 && LiveRow(f, r)[53] == LagCells(f, r)[0] == Bool(r.stats.coCorrected);
    assert Headers()[53] == LagHeaders()[0] == L(CoCorrected);
    assert Persisted(LiveRow(f, r))[53] == "";
  }

  // ----- The rows as table lines -----

  lemma {:induction false} AllDecimalsAreOneLine()
    ensures forall n: nat :: '\n' !in Decimal(n)
  {
    forall n: nat
      ensures '\n' !in Decimal(n)
    {
      DecimalIsOneLine(n);
    }
  }

  lemma {:induction false} FrontCellsAreOneLine(f: Format, r: Record)
    requires ValidFormat(f) && OneLine(r)
    ensures NoLineFeed(RunCells(f, r)) && NoLineFeed(LossCells(f, r))
  {
    AllDecimalsAreOneLine();
  }

  lemma {:induction false} CalibrationCellsAreOneLine(f: Format, r: Record)
    requires ValidFormat(f) && OneLine(r)
    ensures NoLineFeed(CalibrationCells(f, r)) && NoLineFeed(LimitCells(f, r))
  {
    AllDecimalsAreOneLine();
  }

  lemma {:induction false} MiddleCellsAreOneLine(f: Format, r: Record)
    requires ValidFormat(f) && OneLine(r)
    ensures NoLineFeed(CpuCells(f, r)) && NoLineFeed(RttCells(f, r)) && NoLineFeed(ConnCells(f, r))
  {
    AllDecimalsAreOneLine();
  }

  lemma {:induction false} PerfCellsAreOneLine(f: Format, r: Record)
    requires ValidFormat(f) && OneLine(r)
    ensures NoLineFeed(PerfCells(f, r))
  {
    AllDecimalsAreOneLine();
  }

  lemma {:induction false} LagCellsAreOneLine(f: Format, r: Record)
    requires ValidFormat(f) && OneLine(r)
    ensures NoLineFeed(LagCells(f, r))
  {
    AllDecimalsAreOneLine();
  }

  lemma {:induction false} MemCellsAreOneLine(f: Format, r: Record)
    requires ValidFormat(f) && OneLine(r)
    ensures NoLineFeed(MemCells(f, r))
  {
    AllDecimalsAreOneLine();
  }

  lemma {:induction false} TailCellsAreOneLine(f: Format, r: Record)
    requires ValidFormat(f) && OneLine(r)
    ensures NoLineFeed(TailCells(f, r))
  {
    AllDecimalsAreOneLine();
  }

  lemma {:induction false} NoLineFeedAppends(a: seq<string>, b: seq<string>)
    requires NoLineFeed(a) && NoLineFeed(b)
    ensures NoLineFeed(a + b)
  {
  }

  lemma {:induction false} LiveRowIsOneLine(f: Format, r: Record)
    requires ValidFormat(f) && OneLine(r)
    ensures NoLineFeed(LiveRow(f, r))
  {
    FrontCellsAreOneLine(f, r);
    CalibrationCellsAreOneLine(f, r);
    MiddleCellsAreOneLine(f, r);
    PerfCellsAreOneLine(f, r);
    LagCellsAreOneLine(f, r);
    MemCellsAreOneLine(f, r);
    TailCellsAreOneLine(f, r);
    hide RunCells, LossCells, CalibrationCells, LimitCells, CpuCells, RttCells, ConnCells, PerfCells, LagCells, MemCells, TailCells;
    var c := RunCells(f, r);
    NoLineFeedAppends(c, LossCells(f, r));
    c := c + LossCells(f, r);
    NoLineFeedAppends(c, CalibrationCells(f, r));
    c := c + CalibrationCells(f, r);
    NoLineFeedAppends(c, LimitCells(f, r));
    c := c + LimitCells(f, r);
    NoLineFeedAppends(c, CpuCells(f, r));
    c := c + CpuCells(f, r);
    NoLineFeedAppends(c, RttCells(f, r));
    c := c + RttCells(f, r);
    NoLineFeedAppends(c, ConnCells(f, r));
    c := c + ConnCells(f, r);
    NoLineFeedAppends(c, PerfCells(f, r));
    c := c + PerfCells(f, r);
    NoLineFeedAppends(c, LagCells(f, r));
    c := c + LagCells(f, r);
    NoLineFeedAppends(c, MemCells(f, r));
    c := c + MemCells(f, r);
    NoLineFeedAppends(c, TailCells(f, r));
  }

  lemma {:induction false} LiveRowShape(f: Format, r: Record)
    ensures |LiveRow(f, r)| == |Headers()| == 69
    ensures LiveRow(f, r)[0] == r.name && Headers()[0] == L(Scenario)
  {
    assert |PerfCells(f, r)| == 9 && |MemCells(f, r)| == 6 && |CpuCells(f, r)| == 6;
    assert RunCells(f, r)[0] == r.name && RunHeaders()[0] == L(Scenario);
  }

  lemma {:induction false} HeaderGroups(h: Key)
    ensures h in Headers() <==>
            || h in RunHeaders() || h in LossHeaders() || h in CalibrationHeaders() || h in LimitHeaders() || h in CpuHeaders()
            || h in RttHeaders() || h in ConnHeaders() || h in PerfHeaders() || h in LagHeaders() || h in MemHeaders()
            || h in TailHeaders()
  {
    hide RunHeaders, LossHeaders, CalibrationHeaders, LimitHeaders, CpuHeaders, RttHeaders, ConnHeaders, PerfHeaders, LagHeaders,
         MemHeaders, TailHeaders;
  }

  /** The columns that hold free texts; the category is none of them. */
  lemma {:induction false} TextColumns()
    ensures L(Scenario) in Headers() && C(Transport) in Headers() && C(Protocol) in Headers()
    ensures A(ProtocolInEffect) in Headers()
    ensures Cal(Dut) in Headers() && Cal(Bottleneck) in Headers() && Cal(CeilingTransport) in Headers()
    ensures C(Category) !in Headers()
  {
    assert L(Scenario) == RunHeaders()[0] && C(Transport) == RunHeaders()[1] && C(Protocol) == RunHeaders()[2];
    assert A(ProtocolInEffect) == LimitHeaders()[3] && Cal(Dut) == CalibrationHeaders()[3];
    assert Cal(Bottleneck) == CpuHeaders()[5] && Cal(CeilingTransport) == TailHeaders()[3];
    NoCategoryColumn();
    hide *;
    HeaderGroups(L(Scenario));
    HeaderGroups(C(Transport));
    HeaderGroups(C(Protocol));
    HeaderGroups(A(ProtocolInEffect));
    HeaderGroups(Cal(Dut));
    HeaderGroups(Cal(Bottleneck));
    HeaderGroups(Cal(CeilingTransport));
    HeaderGroups(C(Category));
  }

  lemma {:induction false} NoCategoryColumn()
    ensures C(Category) !in RunHeaders() + LossHeaders() + CalibrationHeaders() + LimitHeaders() + CpuHeaders()
    ensures C(Category) !in RttHeaders() + ConnHeaders() + PerfHeaders() + LagHeaders() + MemHeaders() + TailHeaders()
  {}

  /** What is left of a row with the unpersisted columns blank, cell by cell. */
  lemma {:induction false} PersistedCell(f: Format, r: Record, i: nat)
    requires i < |Headers()|
    ensures |LiveRow(f, r)| == |Headers()| && Persisted(LiveRow(f, r))[i] == RebuiltCell(f, r, Headers()[i])
  {
    LiveRowAgrees(f, r);
    hide RebuiltCell, Headers, LiveRow, Unpersisted;
  }

  lemma {:induction false} RowNeedsOneLine(f: Format, r: Record)
    requires |LiveRow(f, r)| == |Headers()| && NoLineFeed(Persisted(LiveRow(f, r)))
    ensures OneLine(r)
  {
    TextColumns();
    hide Headers, LiveRow, Persisted, RebuiltCell;
    forall h | h in Headers()
      ensures '\n' !in RebuiltCell(f, r, h)
    {
      var i :| 0 <= i < |Headers()| && Headers()[i] == h;
      PersistedCell(f, r, i);
    }
    TextCells(f, r);
  }

  lemma {:induction false} TextCells(f: Format, r: Record)
    ensures RebuiltCell(f, r, L(Scenario)) == r.name && RebuiltCell(f, r, C(Transport)) == r.transport
    ensures RebuiltCell(f, r, C(Protocol)) == r.protocol && RebuiltCell(f, r, A(ProtocolInEffect)) == r.EffectiveLabel()
    ensures r.cal.Some? ==> RebuiltCell(f, r, Cal(Dut)) == r.cal.value.dut
    ensures r.cal.Some? ==> RebuiltCell(f, r, Cal(Bottleneck)) == r.cal.value.bottleneck
    ensures r.cal.Some? ==> RebuiltCell(f, r, Cal(CeilingTransport)) == r.cal.value.ceilingTransport
  {}

  /** A live row names its scenario first. It keeps to one line if and only if every
      text in it does, and so does what can be rebuilt of it. */
  lemma {:induction false} LiveRowIsTabular(f: Format, r: Record)
    requires ValidFormat(f)
    ensures |LiveRow(f, r)| == |Headers()| == 69
    ensures LiveRow(f, r)[0] == Persisted(LiveRow(f, r))[0] == r.name
    ensures NoLineFeed(LiveRow(f, r)) <==> OneLine(r)
    ensures NoLineFeed(Persisted(LiveRow(f, r))) <==> OneLine(r)
  {
    LiveRowShape(f, r);
    hide LiveRow, Headers, OneLine;
    PersistedIsOneLine(LiveRow(f, r));
    if OneLine(r) {
      LiveRowIsOneLine(f, r);
    }
    if NoLineFeed(Persisted(LiveRow(f, r))) {
      RowNeedsOneLine(f, r);
    }
  }

  lemma {:induction false} PersistedIsOneLine(row: seq<string>)
    requires |row| == |Headers()| > 0 && Headers()[0] == L(Scenario)
    ensures Persisted(row)[0] == row[0] && (NoLineFeed(row) ==> NoLineFeed(Persisted(row)))
  {
    hide Headers;
    assert forall i :: 0 <= i < |row| ==> Persisted(row)[i] == "" || Persisted(row)[i] == row[i];
  }

  /** Nothing rebuilt has a line feed. */
  lemma {:induction false} RebuiltIsOneLine(f: Format, config: string, summary: string)
    ensures NoLineFeed(ReconstructedRow(f, KeyValues(config), KeyValues(summary)))
  {
    KeyValuesAreOneLine(config);
    KeyValuesAreOneLine(summary);
    hide KeyValues, Headers, HeaderNames;
  }

  /** A category of one line is taken for no column. */
  lemma {:induction false} OneLineIsHarmless(f: Format, r: Record)
    requires ValidFormat(f) && '\n' !in r.category.GetOr("")
    ensures Harmless(f, r)
  {
    TextColumns();
    hide Headers, Taken;
    forall h | h in Headers()
      ensures HarmlessAt(f, r, h)
    {
      OneLineCategory(f, r, h);
    }
  }

  lemma {:induction false} RebuiltCells(f: Format, r: Record, i: nat)
    requires ValidFormat(f) && OneLine(r) && i < |Headers()|
    ensures var h, row := Headers()[i], ReconstructedRow(f, KeyValues(ConfigText(f, r)), KeyValues(SummaryText(f, r)));
            row[i] == if Taken(f, r, h) then CategoryRead(f, r)[f.spell(KeyOf(h))] else RebuiltCell(f, r, h)
  {
    TextColumns();
    hide KeyValues, OneLine, Headers, ConfigText, SummaryText, FoundCell, SummaryCell, LaterKeys, CategoryRead, RebuiltCell;
    ArtifactsReadBack(f, r, Headers()[i]);
  }

  lemma {:induction false} RebuiltRow(f: Format, r: Record)
    requires ValidFormat(f) && OneLine(r) && |LiveRow(f, r)| == |Headers()|
    ensures ReconstructedRow(f, KeyValues(ConfigText(f, r)), KeyValues(SummaryText(f, r))) == Persisted(LiveRow(f, r))
            <==> Harmless(f, r)
  {
    var row := ReconstructedRow(f, KeyValues(ConfigText(f, r)), KeyValues(SummaryText(f, r)));
    hide *;
    forall i | 0 <= i < |Headers()|
      ensures Persisted(LiveRow(f, r))[i] == RebuiltCell(f, r, Headers()[i])
      ensures row[i] == Persisted(LiveRow(f, r))[i] <==> HarmlessAt(f, r, Headers()[i])
    {
      PersistedCell(f, r, i);
      RebuiltCells(f, r, i);
      HarmlessCell(f, r, Headers()[i], row[i]);
    }
    HarmlessEverywhere(f, r);
    assert row == Persisted(LiveRow(f, r)) <==> forall i :: 0 <= i < |Headers()| ==> HarmlessAt(f, r, Headers()[i]);
  }

  lemma {:induction false} HarmlessCell(f: Format, r: Record, h: Key, cell: string)
    requires cell == if Taken(f, r, h) then CategoryRead(f, r)[f.spell(KeyOf(h))] else RebuiltCell(f, r, h)
    ensures cell == RebuiltCell(f, r, h) <==> HarmlessAt(f, r, h)
  {
    hide SummaryCell, LaterKeys, CategoryRead, RebuiltCell;
  }

  lemma {:induction false} HarmlessEverywhere(f: Format, r: Record)
    ensures Harmless(f, r) <==> forall i :: 0 <= i < |Headers()| ==> HarmlessAt(f, r, Headers()[i])
  {
    hide HarmlessAt, Headers;
  }

  /** A row rebuilt from the text of the two artifacts is the live row, with the four
      columns that no artifact persists blank, if and only if the texts in the row
      keep to one line and no line of the category is taken for a column. */
  lemma {:induction false} ReconstructionMatchesLive(f: Format, r: Record)
    requires ValidFormat(f)
    ensures |LiveRow(f, r)| == |Headers()|
    ensures ReconstructedRow(f, KeyValues(ConfigText(f, r)), KeyValues(SummaryText(f, r))) == Persisted(LiveRow(f, r))
            <==> OneLine(r) && Harmless(f, r)
  {
    hide *;
    LiveRowIsTabular(f, r);
    RebuiltIsOneLine(f, ConfigText(f, r), SummaryText(f, r));
    if OneLine(r) {
      RebuiltRow(f, r);
    }
  }
}
