/** The result directory of a benchmark suite as a crash/resume protocol. Each
    scenario writes a fixed sequence of files; a resumed process skips what is
    already recorded. File texts are arbitrary here; module Report fills them in. */
module ResultTree {
  import opened Wrappers
  import opened Text

  datatype File =
    | ConfigCsv | SummaryCsv | RunsCsv | SaturationCsv | SummaryRowCsv | SkipCsv | SkipRowCsv | HotreloadCsv
    | StreamsCsv | StreamSummaryCsv

  type Files = map<File, string>

  /** The `scenarios/` directory: what each sub-directory holds. */
  type Disk = map<string, Files>

  datatype Kind = SingleStream | HotReload | MultiStream

  datatype Scenario = Scenario(name: string, kind: Kind)

  datatype Artifacts = Artifacts(config: string, summary: string, row: string, runs: string, saturation: Option<string>)

  /** How one attempt at a scenario turns out. `streams` and `details` are the
      texts of the multi-stream and hot-reload artifacts. */
  datatype Outcome =
    | Measured(a: Artifacts, streams: string, details: string)
    | Skipped(skip: string, skipRow: string, afterStreams: bool, streams: string)

  datatype Write = Write(file: File, text: string)

  // ----- Names and directories -----

  predicate Safe(c: char) {
    IsDigit(c) || 'a' <= c <= 'z' || 'A' <= c <= 'Z' || c == '.' || c == '_' || c == '-'
  }

  /** Characters unsafe in a path segment become `_`, the others are kept. */
  function Sanitize(name: string): (s: string)
    ensures |s| == |name|
    ensures forall i :: 0 <= i < |s| ==> Safe(s[i]) && s[i] == if Safe(name[i]) then name[i] else '_'
  {
    seq(|name|, i requires 0 <= i < |name| => if Safe(name[i]) then name[i] else '_')
  }

  /** The directory below `scenarios/` that a name leads to. The empty segment, like
      `.`, is `scenarios/` itself; `..` is the root of the result tree. */
  function DirOf(name: string): string {
    if Sanitize(name) == "" then "." else Sanitize(name)
  }

  function Dir(s: Scenario): string {
    DirOf(s.name)
  }

  /** Whatever the name, its directory is one segment of a path. */
  lemma {:induction false} OneSegment(name: string)
    ensures DirOf(name) != "" && '/' !in DirOf(name) && '\\' !in DirOf(name) && '\0' !in DirOf(name)
  {}

  const ROOT: string := ".."

  /** The directories that a listing of `scenarios/` can contain. */
  predicate Listed(d: string) {
    d != "." && d != ROOT
  }

  function FilesOf(disk: Disk, d: string): Files {
    if d in disk then disk[d] else map[]
  }

  /** Whether a resumed run leaves the scenario alone. */
  predicate Recorded(files: Files) {
    SummaryCsv in files || SkipCsv in files || StreamSummaryCsv in files || HotreloadCsv in files
  }

  // ----- The writes of one attempt, in order -----

  function StreamWrites(streams: string): seq<Write> {
    [Write(StreamsCsv, streams), Write(StreamSummaryCsv, streams)]
  }

  function RecordWrites(a: Artifacts): seq<Write> {
    [Write(ConfigCsv, a.config), Write(SummaryCsv, a.summary), Write(RunsCsv, a.runs)]
    + (if a.saturation.Some? then [Write(SaturationCsv, a.saturation.value)] else [])
    + [Write(SummaryRowCsv, a.row)]
  }

  function SkipWrites(skip: string, skipRow: string): seq<Write> {
    [Write(SkipCsv, skip), Write(SkipRowCsv, skipRow)]
  }

  function Script(s: Scenario, o: Outcome): seq<Write> {
    match o
    case Measured(a, streams, details) =>
      (if s.kind.MultiStream? then StreamWrites(streams) else [])
      + RecordWrites(a)
      + (if s.kind.HotReload? then [Write(HotreloadCsv, details)] else [])
    case Skipped(skip, skipRow, afterStreams, streams) =>
      (if s.kind.MultiStream? && afterStreams then StreamWrites(streams) else []) + SkipWrites(skip, skipRow)
  }

  // ----- A process: it dies when its budget of writes is used up -----

  datatype Process = Process(disk: Disk, budget: nat, alive: bool)

  function DoWrite(p: Process, d: string, w: Write): Process {
    if !p.alive then p
    else if p.budget == 0 then p.(alive := false)
    else Process(p.disk[d := FilesOf(p.disk, d)[w.file := w.text]], p.budget - 1, true)
  }

  function DoWrites(p: Process, d: string, ws: seq<Write>): Process {
    if ws == [] then p else DoWrite(DoWrites(p, d, ws[..|ws| - 1]), d, ws[|ws| - 1])
  }

  /** One turn of the suite loop. */
  function Attempt(p: Process, s: Scenario, o: Outcome): Process {
    if !p.alive || Recorded(FilesOf(p.disk, Dir(s))) then p else DoWrites(p, Dir(s), Script(s, o))
  }

  /** The first `n` scenarios of a suite, with the given outcomes. */
  function RunFirst(p: Process, suite: seq<Scenario>, outcomes: seq<Outcome>, n: nat): Process
    requires n <= |suite| == |outcomes|
  {
    if n == 0 then p else Attempt(RunFirst(p, suite, outcomes, n - 1), suite[n - 1], outcomes[n - 1])
  }

  /** A process started on a disk: the outcomes it will see and the number of
      writes it lives for; then the consolidated summary, if one is rebuilt after it. */
  datatype Session = Session(outcomes: seq<Outcome>, budget: nat, rebuilt: Option<string>)

  /** The consolidated `summary.csv` lies in the root, where a scenario named `..`
      would keep its own. */
  function Rebuilt(disk: Disk, text: Option<string>): Disk {
    match text
    case Some(summary) => disk[ROOT := FilesOf(disk, ROOT)[SummaryCsv := summary]]
    case None => disk
  }

  function RunSession(disk: Disk, suite: seq<Scenario>, x: Session): Process
    requires |suite| == |x.outcomes|
  {
    RunFirst(Process(disk, x.budget, true), suite, x.outcomes, |suite|)
  }

  ghost predicate Sessions(suite: seq<Scenario>, xs: seq<Session>, ok: (Scenario, Outcome) -> bool) {
    forall i :: 0 <= i < |xs| ==> Admissible(suite, xs[i], ok)
  }

  /** Every outcome of the session is one its scenario may have. */
  ghost predicate Admissible(suite: seq<Scenario>, x: Session, ok: (Scenario, Outcome) -> bool) {
    |x.outcomes| == |suite| && forall k :: 0 <= k < |suite| ==> ok(suite[k], x.outcomes[k])
  }

  /** The disk after any number of sessions, each crashed or finished, on an
      initially empty tree. */
  function Replay(suite: seq<Scenario>, xs: seq<Session>): Disk
    requires forall i :: 0 <= i < |xs| ==> |xs[i].outcomes| == |suite|
  {
    if xs == [] then map[]
    else
      var last := xs[|xs| - 1];
      Rebuilt(RunSession(Replay(suite, xs[..|xs| - 1]), suite, last).disk, last.rebuilt)
  }

  // ----- What a directory may look like -----

  predicate Unrecorded(files: Files) {
    !Recorded(files) && SummaryRowCsv !in files && SkipRowCsv !in files
  }

  /** A multi-stream scenario that died after `stream_summary.csv`. */
  predicate Orphan(files: Files) {
    StreamSummaryCsv in files && SummaryCsv !in files && SkipCsv !in files && HotreloadCsv !in files
    && SummaryRowCsv !in files && SkipRowCsv !in files
  }

  /** What the directory of an attempt with this outcome holds once it is recorded. */
  predicate Holds(files: Files, o: Outcome) {
    match o
    case Measured(a, _, _) =>
      && ConfigCsv in files && files[ConfigCsv] == a.config
      && SummaryCsv in files && files[SummaryCsv] == a.summary
      && (SummaryRowCsv in files ==> files[SummaryRowCsv] == a.row)
      && (HotreloadCsv in files ==> SummaryRowCsv in files)
      && SkipCsv !in files && SkipRowCsv !in files
    case Skipped(skip, skipRow, _, _) =>
      && SkipCsv in files && files[SkipCsv] == skip
      && (SkipRowCsv in files ==> files[SkipRowCsv] == skipRow)
      && SummaryCsv !in files && SummaryRowCsv !in files && HotreloadCsv !in files
  }

  ghost predicate Owns(suite: seq<Scenario>, ok: (Scenario, Outcome) -> bool, d: string, files: Files, s: Scenario, o: Outcome) {
    s in suite && Dir(s) == d && ok(s, o) && Holds(files, o)
  }

  ghost predicate DirOk(suite: seq<Scenario>, ok: (Scenario, Outcome) -> bool, d: string, files: Files) {
    || Unrecorded(files)
    || (Orphan(files) && exists s :: s in suite && s.kind.MultiStream? && Dir(s) == d)
    || exists s, o :: Owns(suite, ok, d, files, s, o)
  }

  /** A consolidated summary in the root passes for that of a scenario named `..`. */
  predicate Overlaid(d: string, files: Files) {
    d == ROOT && SummaryCsv in files
  }

  ghost predicate TreeOk(suite: seq<Scenario>, ok: (Scenario, Outcome) -> bool, disk: Disk) {
    forall d :: d in disk ==>
      Overlaid(d, disk[d]) || (DirOk(suite, ok, d, disk[d]) && exists s :: s in suite && Dir(s) == d)
  }

  // ----- One attempt -----

  /** A directory after some writes. */
  function Put(files: Files, ws: seq<Write>): Files {
    if ws == [] then files else Put(files, ws[..|ws| - 1])[ws[|ws| - 1].file := ws[|ws| - 1].text]
  }

  /** A process gets through as many writes as its budget allows, touches only
      the one directory, and survives if and only if the budget covers them all. */
  lemma {:induction false} DoWritesIsPut(p: Process, d: string, ws: seq<Write>)
    requires p.alive
    ensures var q := DoWrites(p, d, ws);
            var n := Min(p.budget, |ws|);
            && FilesOf(q.disk, d) == Put(FilesOf(p.disk, d), ws[..n])
            && (forall e :: e != d ==> (e in q.disk <==> e in p.disk) && FilesOf(q.disk, e) == FilesOf(p.disk, e))
            && (q.alive <==> |ws| <= p.budget)
            && q.budget == p.budget - n
            && (n > 0 || d in p.disk ==> d in q.disk)
    decreases ws
  {
    if ws != [] {
      var init := ws[..|ws| - 1];
      DoWritesIsPut(p, d, init);
      if p.budget >= |ws| {
        assert ws[..|ws|][..|ws| - 1] == init == init[..|init|];
      } else {
        assert init[..p.budget] == ws[..p.budget];
      }
    } else {
      assert ws[..0] == [];
    }
  }

  /** Where a measured scenario's configuration is written, and its summary row. */
  function ConfigAt(s: Scenario): nat {
    if s.kind.MultiStream? then 2 else 0
  }

  function RowAt(s: Scenario, a: Artifacts): nat {
    ConfigAt(s) + if a.saturation.Some? then 4 else 3
  }

  lemma {:induction false} MeasuredScript(s: Scenario, o: Outcome, i: nat)
    requires o.Measured? && i < |Script(s, o)|
    ensures var (k, r, w) := (ConfigAt(s), RowAt(s, o.a), Script(s, o)[i]);
            && |Script(s, o)| == r + 1 + (if s.kind.HotReload? then 1 else 0)
            && (i == k ==> w == Write(ConfigCsv, o.a.config))
            && (i == k + 1 ==> w == Write(SummaryCsv, o.a.summary))
            && (i == r ==> w == Write(SummaryRowCsv, o.a.row))
            && (i < k ==> w.file == if i == 0 then StreamsCsv else StreamSummaryCsv)
            && (k + 1 < i < r ==> w.file == RunsCsv || w.file == SaturationCsv)
            && (i > r ==> w == Write(HotreloadCsv, o.details))
            && (i < k ==> w.text == o.streams) && (i == k + 2 ==> w == Write(RunsCsv, o.a.runs))
            && (k + 3 == i < r ==> o.a.saturation.Some? && w == Write(SaturationCsv, o.a.saturation.value))
  {
    var k, r := ConfigAt(s), RowAt(s, o.a);
    ScriptTail(s, o, i);
    RecordScript(o.a);
    hide RecordWrites, Script;
  }

  lemma {:induction false} RecordScript(a: Artifacts)
    ensures var ws := RecordWrites(a);
            && |ws| == (if a.saturation.Some? then 5 else 4)
            && ws[0] == Write(ConfigCsv, a.config) && ws[1] == Write(SummaryCsv, a.summary)
            && ws[2] == Write(RunsCsv, a.runs) && (|ws| == 5 ==> ws[3] == Write(SaturationCsv, a.saturation.value)) && ws[|ws| - 1] == Write(SummaryRowCsv, a.row)
  {}

  lemma {:induction false} ScriptTail(s: Scenario, o: Outcome, i: nat)
    requires o.Measured? && i < |Script(s, o)|
    ensures var k, ws, w := ConfigAt(s), RecordWrites(o.a), Script(s, o)[i];
            && |Script(s, o)| == k + |ws| + (if s.kind.HotReload? then 1 else 0)
            && (i < k ==> w == Write(if i == 0 then StreamsCsv else StreamSummaryCsv, o.streams))
            && (k <= i < k + |ws| ==> w == ws[i - k])
            && (i >= k + |ws| ==> w == Write(HotreloadCsv, o.details))
  {
    hide RecordWrites;
  }

  /** A measured scenario's directory after its first `n` writes. */
  predicate MeasuredPhase(after: Files, s: Scenario, o: Outcome, n: nat)
    requires o.Measured?
  {
    var (k, r) := (ConfigAt(s), RowAt(s, o.a));
    && (n > k ==> ConfigCsv in after && after[ConfigCsv] == o.a.config)
    && (SummaryCsv in after <==> n > k + 1) && (SummaryCsv in after ==> after[SummaryCsv] == o.a.summary)
    && (SummaryRowCsv in after <==> n > r) && (SummaryRowCsv in after ==> after[SummaryRowCsv] == o.a.row)
    && (HotreloadCsv in after <==> n > r + 1)
    && (StreamSummaryCsv in after <==> k == 2 && n > 1)
    && SkipCsv !in after && SkipRowCsv !in after
    && MeasuredRest(after, s, o, n)
  }

  /** The files no table is built from: the stream artifacts before the configuration,
      the runs and the saturation curve before the row, the reload record after it. */
  predicate MeasuredRest(after: Files, s: Scenario, o: Outcome, n: nat)
    requires o.Measured?
  {
    var (k, r) := (ConfigAt(s), RowAt(s, o.a));
    && (k == 2 && n > 0 ==> HasText(after, StreamsCsv, o.streams))
    && (k == 2 && n > 1 ==> HasText(after, StreamSummaryCsv, o.streams))
    && (n > k + 2 ==> HasText(after, RunsCsv, o.a.runs))
    && (n > k + 3 && o.a.saturation.Some? ==> HasText(after, SaturationCsv, o.a.saturation.value))
    && (n > r + 1 ==> HasText(after, HotreloadCsv, o.details))
  }

  predicate HasText(files: Files, f: File, text: string) {
    f in files && files[f] == text
  }

  lemma {:induction false} MeasuredPhaseStep(before: Files, s: Scenario, o: Outcome, n: nat)
    requires o.Measured? && n < |Script(s, o)| && MeasuredPhase(before, s, o, n)
    ensures var w := Script(s, o)[n];
            MeasuredPhase(before[w.file := w.text], s, o, n + 1)
  {
    MeasuredScript(s, o, n);
  }

  lemma {:induction false} NothingPut(files: Files, s: Scenario, o: Outcome)
    requires Unrecorded(files) && o.Measured?
    ensures MeasuredPhase(Put(files, Script(s, o)[..0]), s, o, 0)
  {}

  /** Cut after any number of its writes, a measured attempt has left exactly those. */
  lemma {:induction false} MeasuredPhases(files: Files, s: Scenario, o: Outcome, n: nat)
    requires Unrecorded(files) && o.Measured? && n <= |Script(s, o)|
    ensures MeasuredPhase(Put(files, Script(s, o)[..n]), s, o, n)
  {
    hide MeasuredPhase, Script, Unrecorded;
    if n == 0 {
      NothingPut(files, s, o);
    } else {
      MeasuredPhases(files, s, o, n - 1);
      MeasuredPhaseStep(Put(files, Script(s, o)[..n - 1]), s, o, n - 1);
      assert Script(s, o)[..n][..n - 1] == Script(s, o)[..n - 1];
    }
  }

  function SkipAt(s: Scenario, o: Outcome): nat
    requires o.Skipped?
  {
    if s.kind.MultiStream? && o.afterStreams then 2 else 0
  }

  /** A skipped scenario's directory after its first `n` writes. */
  predicate SkippedPhase(after: Files, s: Scenario, o: Outcome, n: nat)
    requires o.Skipped?
  {
    var k := SkipAt(s, o);
    && (SkipCsv in after <==> n > k) && (SkipCsv in after ==> after[SkipCsv] == o.skip)
    && (SkipRowCsv in after <==> n > k + 1) && (SkipRowCsv in after ==> after[SkipRowCsv] == o.skipRow)
    && (StreamSummaryCsv in after <==> k == 2 && n > 1)
    && (k == 2 && n > 0 ==> HasText(after, StreamsCsv, o.streams))
    && (k == 2 && n > 1 ==> HasText(after, StreamSummaryCsv, o.streams))
    && SummaryCsv !in after && SummaryRowCsv !in after && HotreloadCsv !in after
  }

  /** So has a skipped one. */
  lemma {:induction false} SkippedPhases(files: Files, s: Scenario, o: Outcome, n: nat)
    requires Unrecorded(files) && o.Skipped? && n <= |Script(s, o)|
    ensures |Script(s, o)| == SkipAt(s, o) + 2
    ensures SkippedPhase(Put(files, Script(s, o)[..n]), s, o, n)
  {
    var ws := Script(s, o);
    if n > 0 {
      SkippedPhases(files, s, o, n - 1);
      assert ws[..n][..n - 1] == ws[..n - 1];
    }
  }

  /** The cuts after which a multi-stream scenario is recorded but has no row: past
      `stream_summary.csv`, before `summary.csv` or `skip.csv`. */
  predicate OrphaningCut(s: Scenario, o: Outcome, n: nat) {
    s.kind.MultiStream? && if o.Measured? then 2 <= n <= 3 else o.afterStreams && n == 2
  }

  /** Cut off anywhere, an attempt on an unrecorded directory leaves it
      unrecorded, or orphaned, or holding its own outcome; run to the end, the last.
      It is orphaned exactly by the orphaning cuts. */
  lemma {:induction false} CutAttempt(files: Files, s: Scenario, o: Outcome, n: nat)
    requires Unrecorded(files) && n <= |Script(s, o)|
    ensures var after := Put(files, Script(s, o)[..n]);
            && (Unrecorded(after) || (Orphan(after) && s.kind.MultiStream?) || Holds(after, o))
            && (n == |Script(s, o)| ==> Holds(after, o) && Recorded(after) && !Orphan(after))
            && (Orphan(after) <==> OrphaningCut(s, o, n))
  {
    if o.Measured? {
      MeasuredPhases(files, s, o, n);
      MeasuredScript(s, o, 0);
    } else {
      SkippedPhases(files, s, o, n);
    }
  }

  // ----- One attempt on the whole disk -----

  lemma {:induction false} AttemptKeepsOthers(p: Process, s: Scenario, o: Outcome, d: string)
    requires d != Dir(s) || Recorded(FilesOf(p.disk, d))
    ensures var q := Attempt(p, s, o);
            (d in q.disk <==> d in p.disk) && FilesOf(q.disk, d) == FilesOf(p.disk, d)
  {
    if p.alive && !Recorded(FilesOf(p.disk, Dir(s))) {
      DoWritesIsPut(p, Dir(s), Script(s, o));
    }
  }

  /** What an attempt does to the scenario's own directory. */
  lemma {:induction false} AttemptHome(p: Process, s: Scenario, o: Outcome)
    requires Unrecorded(FilesOf(p.disk, Dir(s))) || Recorded(FilesOf(p.disk, Dir(s)))
    ensures var (q, before) := (Attempt(p, s, o), FilesOf(p.disk, Dir(s)));
            var after := FilesOf(q.disk, Dir(s));
            && (after == before || Unrecorded(after) || (Orphan(after) && s.kind.MultiStream?) || Holds(after, o))
            && (q.alive ==> p.alive && Recorded(after))
            && (q.alive && Orphan(after) ==> after == before)
  {
    var before := FilesOf(p.disk, Dir(s));
    if p.alive && !Recorded(before) {
      var ws := Script(s, o);
      DoWritesIsPut(p, Dir(s), ws);
      CutAttempt(before, s, o, Min(p.budget, |ws|));
      assert ws[..|ws|] == ws;
    }
  }

  lemma {:induction false} AttemptKeepsTree(
    suite: seq<Scenario>, ok: (Scenario, Outcome) -> bool, p: Process, s: Scenario, o: Outcome)
    requires TreeOk(suite, ok, p.disk) && s in suite && ok(s, o)
    ensures TreeOk(suite, ok, Attempt(p, s, o).disk)
  {
    var q, home := Attempt(p, s, o), Dir(s);
    HomeIsRecordedOrNot(suite, ok, p.disk, home);
    AttemptHome(p, s, o);
    assert Holds(FilesOf(q.disk, home), o) ==> Owns(suite, ok, home, FilesOf(q.disk, home), s, o);
    forall d | d in q.disk
      ensures Overlaid(d, q.disk[d]) || (DirOk(suite, ok, d, q.disk[d]) && exists t :: t in suite && Dir(t) == d)
    {
      if d != home {
        AttemptKeepsOthers(p, s, o, d);
      } else {
        assert q.disk[d] == FilesOf(q.disk, home);
        assert q.disk[d] == FilesOf(p.disk, home) ==>
            DirOk(suite, ok, d, FilesOf(p.disk, home)) || Overlaid(d, FilesOf(p.disk, home));
      }
    }
  }

  lemma {:induction false} HomeIsRecordedOrNot(
    suite: seq<Scenario>, ok: (Scenario, Outcome) -> bool, disk: Disk, d: string)
    requires TreeOk(suite, ok, disk)
    ensures DirOk(suite, ok, d, FilesOf(disk, d)) || Overlaid(d, FilesOf(disk, d))
    ensures Unrecorded(FilesOf(disk, d)) || Recorded(FilesOf(disk, d))
  {
    if d in disk {
      assert Overlaid(d, disk[d]) || DirOk(suite, ok, d, disk[d]);
    }
  }

  // ----- Sessions -----

  lemma {:induction false} RunKeepsTree(
    suite: seq<Scenario>, ok: (Scenario, Outcome) -> bool, p: Process, outcomes: seq<Outcome>, n: nat)
    requires TreeOk(suite, ok, p.disk) && Admissible(suite, Session(outcomes, p.budget, None), ok) && n <= |suite|
    ensures TreeOk(suite, ok, RunFirst(p, suite, outcomes, n).disk)
  {
    if n > 0 {
      RunKeepsTree(suite, ok, p, outcomes, n - 1);
      AttemptKeepsTree(suite, ok, RunFirst(p, suite, outcomes, n - 1), suite[n - 1], outcomes[n - 1]);
    }
  }

  /** A directory recorded before a run is untouched by it: no recorded scenario
      is run again, whatever else the run does. */
  lemma {:induction false} NoRerun(p: Process, suite: seq<Scenario>, outcomes: seq<Outcome>, n: nat, d: string)
    requires n <= |suite| == |outcomes| && Recorded(FilesOf(p.disk, d))
    ensures FilesOf(RunFirst(p, suite, outcomes, n).disk, d) == FilesOf(p.disk, d)
    decreases n
  {
    hide Attempt, FilesOf, Recorded;
    if n > 0 {
      NoRerun(p, suite, outcomes, n - 1, d);
      AttemptKeepsOthers(RunFirst(p, suite, outcomes, n - 1), suite[n - 1], outcomes[n - 1], d);
    }
  }

  ghost predicate AllRecorded(disk: Disk, suite: seq<Scenario>, n: nat)
    requires n <= |suite|
  {
    forall k :: 0 <= k < n ==> Recorded(FilesOf(disk, Dir(suite[k])))
  }

  /** Recorded directories stay recorded, and every orphan was one before. */
  ghost predicate Progresses(before: Disk, after: Disk) {
    && (forall d :: Recorded(FilesOf(before, d)) ==> Recorded(FilesOf(after, d)))
    && (forall d :: Orphan(FilesOf(after, d)) ==> FilesOf(after, d) == FilesOf(before, d))
  }

  lemma {:induction false} ProgressesOn(first: Disk, before: Disk, after: Disk, suite: seq<Scenario>, n: nat)
    requires n < |suite| && AllRecorded(before, suite, n) && Recorded(FilesOf(after, Dir(suite[n])))
    requires Progresses(first, before) && Progresses(before, after)
    ensures AllRecorded(after, suite, n + 1) && Progresses(first, after)
  {
  }

  /** Every directory is either recorded or clean enough to be attempted. */
  ghost predicate Settled(disk: Disk) {
    forall d :: Unrecorded(FilesOf(disk, d)) || Recorded(FilesOf(disk, d))
  }

  lemma {:induction false} RunIsSettled(
    suite: seq<Scenario>, ok: (Scenario, Outcome) -> bool, p: Process, outcomes: seq<Outcome>, n: nat)
    requires TreeOk(suite, ok, p.disk) && Admissible(suite, Session(outcomes, p.budget, None), ok) && n <= |suite|
    ensures Settled(RunFirst(p, suite, outcomes, n).disk)
  {
    RunKeepsTree(suite, ok, p, outcomes, n);
    forall d
      ensures Unrecorded(FilesOf(RunFirst(p, suite, outcomes, n).disk, d)) || Recorded(FilesOf(RunFirst(p, suite, outcomes, n).disk, d))
    {
      HomeIsRecordedOrNot(suite, ok, RunFirst(p, suite, outcomes, n).disk, d);
    }
  }

  lemma {:induction false} SurvivingAttempt(p: Process, s: Scenario, o: Outcome)
    requires Settled(p.disk) && Attempt(p, s, o).alive
    ensures p.alive && Recorded(FilesOf(Attempt(p, s, o).disk, Dir(s))) && Progresses(p.disk, Attempt(p, s, o).disk)
  {
    AttemptHome(p, s, o);
    forall d | d != Dir(s) || Recorded(FilesOf(p.disk, d))
      ensures FilesOf(Attempt(p, s, o).disk, d) == FilesOf(p.disk, d)
    {
      AttemptKeepsOthers(p, s, o, d);
    }
  }

  lemma {:induction false} SurvivingStep(start: Disk, p: Process, suite: seq<Scenario>, n: nat, o: Outcome)
    requires n < |suite| && Settled(p.disk) && Attempt(p, suite[n], o).alive
    requires AllRecorded(p.disk, suite, n) && Progresses(start, p.disk)
    ensures AllRecorded(Attempt(p, suite[n], o).disk, suite, n + 1) && Progresses(start, Attempt(p, suite[n], o).disk)
  {
    SurvivingAttempt(p, suite[n], o);
    ProgressesOn(start, p.disk, Attempt(p, suite[n], o).disk, suite, n);
  }

  /** A run that survives has recorded every scenario it reached, and every
      orphan it leaves was an orphan before. */
  lemma {:induction false} SurvivingRun(
    suite: seq<Scenario>, ok: (Scenario, Outcome) -> bool, p: Process, outcomes: seq<Outcome>, n: nat)
    requires n <= |suite| == |outcomes|
    requires TreeOk(suite, ok, p.disk) && Admissible(suite, Session(outcomes, p.budget, None), ok)
    requires RunFirst(p, suite, outcomes, n).alive
    ensures AllRecorded(RunFirst(p, suite, outcomes, n).disk, suite, n)
    ensures Progresses(p.disk, RunFirst(p, suite, outcomes, n).disk)
    decreases n
  {
    hide *;
    RunNext(p, suite, outcomes, n);
    if n == 0 {
      StandingStill(p.disk, suite);
    } else {
      var m := RunFirst(p, suite, outcomes, n - 1);
      AttemptAlive(m, suite[n - 1], outcomes[n - 1]);
      SurvivingRun(suite, ok, p, outcomes, n - 1);
      RunIsSettled(suite, ok, p, outcomes, n - 1);
      SurvivingStep(p.disk, m, suite, n - 1, outcomes[n - 1]);
    }
  }

  lemma {:induction false} RunNext(p: Process, suite: seq<Scenario>, outcomes: seq<Outcome>, n: nat)
    requires n <= |suite| == |outcomes|
    ensures RunFirst(p, suite, outcomes, n) ==
            if n == 0 then p else Attempt(RunFirst(p, suite, outcomes, n - 1), suite[n - 1], outcomes[n - 1])
  {}

  lemma {:induction false} StandingStill(disk: Disk, suite: seq<Scenario>)
    ensures AllRecorded(disk, suite, 0) && Progresses(disk, disk)
  {}

  lemma {:induction false} AttemptAlive(p: Process, s: Scenario, o: Outcome)
    ensures Attempt(p, s, o).alive ==> p.alive
  {
    if !p.alive {
      assert Attempt(p, s, o) == p;
    }
  }

  // ----- Every reachable tree -----

  lemma {:induction false} RebuildKeepsTree(
    suite: seq<Scenario>, ok: (Scenario, Outcome) -> bool, disk: Disk, text: Option<string>)
    requires TreeOk(suite, ok, disk)
    ensures TreeOk(suite, ok, Rebuilt(disk, text))
    ensures forall d :: Listed(d) ==>
              (d in Rebuilt(disk, text) <==> d in disk) && FilesOf(Rebuilt(disk, text), d) == FilesOf(disk, d)
    ensures forall d :: Recorded(FilesOf(disk, d)) ==> Recorded(FilesOf(Rebuilt(disk, text), d))
  {}

  lemma {:induction false} ReplayKeepsTree(suite: seq<Scenario>, ok: (Scenario, Outcome) -> bool, xs: seq<Session>)
    requires Sessions(suite, xs, ok)
    ensures TreeOk(suite, ok, Replay(suite, xs))
  {
    if xs != [] {
      var init, last := xs[..|xs| - 1], xs[|xs| - 1];
      ReplayKeepsTree(suite, ok, init);
      RunKeepsTree(suite, ok, Process(Replay(suite, init), last.budget, true), last.outcomes, |suite|);
      RebuildKeepsTree(suite, ok, RunSession(Replay(suite, init), suite, last).disk, last.rebuilt);
    }
  }

  /** Over every run of sessions crashed anywhere: a summary row implies a summary,
      a summary implies a configuration, a skip row implies a skip, a hot-reload
      record implies a summary row, and no directory has both a summary and a skip. */
  lemma {:induction false} FilesImplyFiles(
    suite: seq<Scenario>, ok: (Scenario, Outcome) -> bool, xs: seq<Session>, d: string)
    requires Sessions(suite, xs, ok) && d != ROOT
    ensures var files := FilesOf(Replay(suite, xs), d);
            && (SummaryRowCsv in files ==> SummaryCsv in files)
            && (SummaryCsv in files ==> ConfigCsv in files)
            && (SkipRowCsv in files ==> SkipCsv in files)
            && (HotreloadCsv in files ==> SummaryRowCsv in files)
            && !(SummaryCsv in files && SkipCsv in files)
  {
    ReplayKeepsTree(suite, ok, xs);
    HomeIsRecordedOrNot(suite, ok, Replay(suite, xs), d);
    var files := FilesOf(Replay(suite, xs), d);
    if s, o :| Owns(suite, ok, d, files, s, o) {
      assert Holds(files, o);
    }
  }

  // ----- Counting directories -----

  function Dirs(suite: seq<Scenario>): set<string> {
    set s | s in suite :: Dir(s)
  }

  predicate DistinctDirs(suite: seq<Scenario>) {
    forall i, j :: 0 <= i < j < |suite| ==> Dir(suite[i]) != Dir(suite[j])
  }

  function Elements(names: seq<string>): set<string> {
    set x | x in names
  }

  lemma {:induction false} ElementCount(names: seq<string>)
    ensures |Elements(names)| <= |names|
    ensures |Elements(names)| == |names| <==> NoRepeats(names)
  {
    if names != [] {
      var init, last := names[..|names| - 1], names[|names| - 1];
      ElementCount(init);
      assert names == init + [last];
      assert Elements(names) == Elements(init) + {last};
      if last in init {
        assert Elements(names) == Elements(init);
        var i :| 0 <= i < |init| && init[i] == last;
        assert names[i] == names[|names| - 1];
      } else {
        assert NoRepeats(names) <==> NoRepeats(init);
      }
    }
  }

  lemma {:induction false} DirCount(suite: seq<Scenario>)
    ensures |Dirs(suite)| <= |suite|
    ensures |Dirs(suite)| == |suite| <==> DistinctDirs(suite)
  {
    var names := seq(|suite|, i requires 0 <= i < |suite| => Dir(suite[i]));
    ElementCount(names);
    forall d | d in Dirs(suite)
      ensures d in Elements(names)
    {
      var s :| s in suite && Dir(s) == d;
      var i :| 0 <= i < |suite| && suite[i] == s;
      assert names[i] == d;
    }
    forall d | d in Elements(names)
      ensures d in Dirs(suite)
    {
      var i :| 0 <= i < |names| && names[i] == d;
      assert suite[i] in suite;
    }
    assert Dirs(suite) == Elements(names);
    assert forall i :: 0 <= i < |suite| ==> names[i] == Dir(suite[i]);
  }

  /** The rows of the consolidated tables, by directory. */
  predicate HasSummary(files: Files) {
    SummaryRowCsv in files || SummaryCsv in files
  }

  predicate HasSkip(files: Files) {
    SkipRowCsv in files || SkipCsv in files
  }

  function ListedDirs(disk: Disk): set<string> {
    set d | d in disk && Listed(d)
  }

  function Executed(disk: Disk): set<string> {
    set d | d in disk && Listed(d) && HasSummary(disk[d])
  }

  function SkippedDirs(disk: Disk): set<string> {
    set d | d in disk && Listed(d) && HasSkip(disk[d])
  }

  function Orphans(disk: Disk): set<string> {
    set d | d in disk && Listed(d) && Orphan(disk[d])
  }

  /** The directories of the suite that a listing shows. */
  function ListedOf(suite: seq<Scenario>): set<string> {
    set d | d in Dirs(suite) && Listed(d)
  }

  predicate AllListed(suite: seq<Scenario>) {
    forall i :: 0 <= i < |suite| ==> Listed(Dir(suite[i]))
  }

  lemma {:induction false} ListedName(name: string)
    ensures Listed(DirOf(name)) <==> Sanitize(name) != "" && Sanitize(name) != "." && Sanitize(name) != ".."
  {}

  lemma {:induction false} SubsetSize(a: set<string>, b: set<string>)
    requires a <= b
    ensures |a| <= |b| && (|a| == |b| <==> a == b)
  {
    assert b == a + (b - a);
  }

  /** A suite has as many listed directories as scenarios exactly when its
      directories differ and none of them is the scenarios directory or the root. */
  lemma {:induction false} ListedCount(suite: seq<Scenario>)
    ensures |ListedOf(suite)| <= |suite|
    ensures |ListedOf(suite)| == |suite| <==> DistinctDirs(suite) && AllListed(suite)
  {
    DirCount(suite);
    SubsetSize(ListedOf(suite), Dirs(suite));
    if AllListed(suite) {
      assert ListedOf(suite) == Dirs(suite);
    } else {
      var i :| 0 <= i < |suite| && !Listed(Dir(suite[i]));
      assert suite[i] in suite;
      assert Dir(suite[i]) in Dirs(suite) && Dir(suite[i]) !in ListedOf(suite);
    }
  }

  /** The last session ran to its end. */
  predicate Finished(suite: seq<Scenario>, xs: seq<Session>)
    requires forall i :: 0 <= i < |xs| ==> |xs[i].outcomes| == |suite|
  {
    xs != [] && RunSession(Replay(suite, xs[..|xs| - 1]), suite, xs[|xs| - 1]).alive
  }

  /** A finished tree shows exactly the listed directories of the suite, all
      recorded, and its orphans are those of the tree before the last session. */
  lemma {:induction false} FinishedTree(suite: seq<Scenario>, ok: (Scenario, Outcome) -> bool, xs: seq<Session>)
    requires Sessions(suite, xs, ok) && Finished(suite, xs)
    ensures var disk := Replay(suite, xs);
            && ListedDirs(disk) == ListedOf(suite)
            && (forall d :: d in ListedDirs(disk) ==> Recorded(disk[d]))
            && Orphans(disk) == Orphans(Replay(suite, xs[..|xs| - 1]))
  {
    var init, last := xs[..|xs| - 1], xs[|xs| - 1];
    var before := Replay(suite, init);
    var after, disk := RunSession(before, suite, last).disk, Replay(suite, xs);
    ReplayKeepsTree(suite, ok, init);
    ReplayKeepsTree(suite, ok, xs);
    RunKeepsTree(suite, ok, Process(before, last.budget, true), last.outcomes, |suite|);
    RebuildKeepsTree(suite, ok, after, last.rebuilt);
    SurvivingRun(suite, ok, Process(before, last.budget, true), last.outcomes, |suite|);
    FinishedDirs(suite, ok, disk);
    FinishedOrphans(suite, before, after, last);
    RebuildKeepsOrphans(after, last.rebuilt);
  }

  lemma {:induction false} FinishedDirs(suite: seq<Scenario>, ok: (Scenario, Outcome) -> bool, disk: Disk)
    requires TreeOk(suite, ok, disk) && AllRecorded(disk, suite, |suite|)
    ensures ListedDirs(disk) == ListedOf(suite) && forall d :: d in ListedDirs(disk) ==> Recorded(disk[d])
  {
    forall s | s in suite
      ensures Dir(s) in disk && Recorded(disk[Dir(s)])
    {
      var k :| 0 <= k < |suite| && suite[k] == s;
      assert Recorded(FilesOf(disk, Dir(suite[k])));
    }
    forall d | d in ListedDirs(disk)
      ensures d in ListedOf(suite) && Recorded(disk[d])
    {
      var s :| s in suite && Dir(s) == d;
    }
  }

  lemma {:induction false} FinishedOrphans(suite: seq<Scenario>, before: Disk, after: Disk, x: Session)
    requires |x.outcomes| == |suite| && after == RunSession(before, suite, x).disk && Progresses(before, after)
    ensures Orphans(after) == Orphans(before)
  {
    forall d | d in Orphans(after)
      ensures d in Orphans(before)
    {
      assert FilesOf(after, d) == FilesOf(before, d);
    }
    forall d | d in Orphans(before)
      ensures d in Orphans(after)
    {
      NoRerun(Process(before, x.budget, true), suite, x.outcomes, |suite|, d);
    }
  }

  lemma {:induction false} RebuildKeepsOrphans(disk: Disk, text: Option<string>)
    ensures Orphans(Rebuilt(disk, text)) == Orphans(disk)
  {}

  /** A finished tree has one row for each listed directory that is not an orphan:
      executed, skipped and orphaned directories partition it. */
  lemma {:induction false} FinishedCounts(suite: seq<Scenario>, ok: (Scenario, Outcome) -> bool, xs: seq<Session>)
    requires Sessions(suite, xs, ok) && Finished(suite, xs)
    ensures var disk := Replay(suite, xs);
            && Disjoint3(Executed(disk), SkippedDirs(disk), Orphans(disk))
            && |Executed(disk)| + |SkippedDirs(disk)| + |Orphans(disk)| == |ListedOf(suite)|
  {
    FinishedTree(suite, ok, xs);
    ReplayKeepsTree(suite, ok, xs);
    TreeCounts(suite, ok, Replay(suite, xs));
  }

  predicate Disjoint3(a: set<string>, b: set<string>, c: set<string>) {
    a !! b && a !! c && b !! c
  }

  lemma {:induction false} TreeCounts(suite: seq<Scenario>, ok: (Scenario, Outcome) -> bool, disk: Disk)
    requires TreeOk(suite, ok, disk) && forall d :: d in ListedDirs(disk) ==> Recorded(disk[d])
    ensures Disjoint3(Executed(disk), SkippedDirs(disk), Orphans(disk))
    ensures |Executed(disk)| + |SkippedDirs(disk)| + |Orphans(disk)| == |ListedDirs(disk)|
  {
    forall d
      ensures OnePart(d, ListedDirs(disk), Executed(disk), SkippedDirs(disk), Orphans(disk))
    {
      if d in ListedDirs(disk) {
        RecordedHasOneRow(suite, ok, d, disk[d]);
      }
    }
    PartitionCount(ListedDirs(disk), Executed(disk), SkippedDirs(disk), Orphans(disk));
  }

  predicate OnePart(d: string, all: set<string>, a: set<string>, b: set<string>, c: set<string>) {
    && (d in all <==> d in a || d in b || d in c)
    && !(d in a && d in b) && !(d in a && d in c) && !(d in b && d in c)
  }

  lemma {:induction false} PartitionCount(all: set<string>, a: set<string>, b: set<string>, c: set<string>)
    requires forall d :: OnePart(d, all, a, b, c)
    ensures Disjoint3(a, b, c) && |a| + |b| + |c| == |all|
  {
    forall d
      ensures d in all <==> d in a + b + c
      ensures d !in a * b && d !in a * c && d !in b * c
    {
      assert OnePart(d, all, a, b, c);
    }
    assert all == a + b + c;
    assert |a + b| == |a| + |b|;
  }

  lemma {:induction false} RecordedHasOneRow(
    suite: seq<Scenario>, ok: (Scenario, Outcome) -> bool, d: string, files: Files)
    requires DirOk(suite, ok, d, files) && Recorded(files)
    ensures HasSummary(files) || HasSkip(files) || Orphan(files)
    ensures !(HasSummary(files) && HasSkip(files)) && !(HasSummary(files) && Orphan(files)) && !(HasSkip(files) && Orphan(files))
  {
    if !Orphan(files) {
      var s, o :| Owns(suite, ok, d, files, s, o);
      assert Holds(files, o);
    }
  }

  // ----- One row per scenario -----

  predicate NoMultiStream(suite: seq<Scenario>) {
    forall i :: 0 <= i < |suite| ==> !suite[i].kind.MultiStream?
  }

  /** Executed plus skipped equals the scenario count of a finished suite of
      single-stream and hot-reload scenarios, whatever crashed before, if and only
      if no two names share a directory and no name leads to the scenarios
      directory itself or to the root. */
  lemma {:induction false} OneRowPerScenario(suite: seq<Scenario>, ok: (Scenario, Outcome) -> bool, xs: seq<Session>)
    requires Sessions(suite, xs, ok) && Finished(suite, xs) && NoMultiStream(suite)
    ensures var disk := Replay(suite, xs);
            |Executed(disk)| + |SkippedDirs(disk)| == |suite| <==> DistinctDirs(suite) && AllListed(suite)
  {
    FinishedCounts(suite, ok, xs);
    ReplayKeepsTree(suite, ok, xs);
    NoOrphans(suite, ok, Replay(suite, xs));
    ListedCount(suite);
  }

  lemma {:induction false} NoOrphans(suite: seq<Scenario>, ok: (Scenario, Outcome) -> bool, disk: Disk)
    requires TreeOk(suite, ok, disk) && NoMultiStream(suite)
    ensures Orphans(disk) == {}
  {
    forall d | d in ListedDirs(disk)
      ensures !Orphan(disk[d])
    {
      NoOrphanWithoutStreams(suite, ok, d, disk[d]);
    }
  }

  lemma {:induction false} NoOrphanWithoutStreams(
    suite: seq<Scenario>, ok: (Scenario, Outcome) -> bool, d: string, files: Files)
    requires NoMultiStream(suite) && DirOk(suite, ok, d, files)
    ensures !Orphan(files)
  {
    assert forall s :: s in suite ==> !s.kind.MultiStream?;
    if s, o :| Owns(suite, ok, d, files, s, o) {
      assert Holds(files, o);
    }
  }

  // ----- Which crashes lose a row -----

  /** The process dies in this attempt, at a cut that orphans its scenario. */
  predicate DiesOrphaning(p: Process, s: Scenario, o: Outcome) {
    p.alive && !Recorded(FilesOf(p.disk, Dir(s))) && OrphaningCut(s, o, p.budget)
  }

  lemma {:induction false} OrphaningCutIsShort(s: Scenario, o: Outcome, n: nat)
    requires OrphaningCut(s, o, n)
    ensures n < |Script(s, o)|
  {
    if o.Measured? {
      assert |Script(s, o)| == |StreamWrites(o.streams)| + |RecordWrites(o.a)|;
    }
  }

  lemma {:induction false} AttemptOrphans(p: Process, s: Scenario, o: Outcome)
    requires Listed(Dir(s)) && (Unrecorded(FilesOf(p.disk, Dir(s))) || Recorded(FilesOf(p.disk, Dir(s))))
    ensures var q := Attempt(p, s, o);
            if DiesOrphaning(p, s, o)
            then !q.alive && Dir(s) !in Orphans(p.disk) && Orphans(q.disk) == Orphans(p.disk) + {Dir(s)}
            else Orphans(q.disk) == Orphans(p.disk)
  {
    var q, home, ws := Attempt(p, s, o), Dir(s), Script(s, o);
    if p.alive && !Recorded(FilesOf(p.disk, home)) {
      DoWritesIsPut(p, home, ws);
      CutAttempt(FilesOf(p.disk, home), s, o, Min(p.budget, |ws|));
      if DiesOrphaning(p, s, o) {
        OrphaningCutIsShort(s, o, p.budget);
      }
      assert Orphan(FilesOf(q.disk, home)) <==> DiesOrphaning(p, s, o);
    }
    forall d | d != home || Recorded(FilesOf(p.disk, d))
      ensures (d in q.disk <==> d in p.disk) && FilesOf(q.disk, d) == FilesOf(p.disk, d)
    {
      AttemptKeepsOthers(p, s, o, d);
    }
    OrphansAgree(p.disk, q.disk, home);
  }

  lemma {:induction false} OrphansAgree(before: Disk, after: Disk, home: string)
    requires Listed(home) && forall d :: d != home ==> FilesOf(after, d) == FilesOf(before, d)
    ensures Orphans(after) - {home} == Orphans(before) - {home}
    ensures home in Orphans(after) <==> Orphan(FilesOf(after, home))
    ensures home in Orphans(before) <==> Orphan(FilesOf(before, home))
  {
    forall disk: Disk, d: string
      ensures d in Orphans(disk) <==> Listed(d) && Orphan(FilesOf(disk, d))
    {}
  }

  /** How many of a run's first `n` attempts die at an orphaning cut: none or one. */
  function Cuts(p: Process, suite: seq<Scenario>, outcomes: seq<Outcome>, n: nat): nat
    requires n <= |suite| == |outcomes|
  {
    if n == 0 then 0
    else
      var died := DiesOrphaning(RunFirst(p, suite, outcomes, n - 1), suite[n - 1], outcomes[n - 1]);
      Cuts(p, suite, outcomes, n - 1) + if died then 1 else 0
  }

  /** How many of the sessions died at an orphaning cut. */
  function AllCuts(suite: seq<Scenario>, xs: seq<Session>): nat
    requires forall i :: 0 <= i < |xs| ==> |xs[i].outcomes| == |suite|
  {
    if xs == [] then 0
    else
      var init, last := xs[..|xs| - 1], xs[|xs| - 1];
      AllCuts(suite, init) + Cuts(Process(Replay(suite, init), last.budget, true), suite, last.outcomes, |suite|)
  }

  /** One attempt adds an orphan, and dies, or adds none. */
  lemma {:induction false} OneMoreOrphan(p: Process, s: Scenario, o: Outcome)
    requires Listed(Dir(s)) && Settled(p.disk)
    ensures var q := Attempt(p, s, o);
            && |Orphans(q.disk)| == |Orphans(p.disk)| + (if DiesOrphaning(p, s, o) then 1 else 0)
            && (DiesOrphaning(p, s, o) ==> p.alive && !q.alive) && (q.alive ==> p.alive)
  {
    AttemptOrphans(p, s, o);
    AttemptAlive(p, s, o);
    hide Orphans, Attempt, OrphaningCut, Unrecorded, Recorded, FilesOf;
  }

  lemma {:induction false} RunOrphans(
    suite: seq<Scenario>, ok: (Scenario, Outcome) -> bool, p: Process, outcomes: seq<Outcome>, n: nat)
    requires n <= |suite| == |outcomes|
    requires TreeOk(suite, ok, p.disk) && Admissible(suite, Session(outcomes, p.budget, None), ok) && AllListed(suite)
    ensures var q := RunFirst(p, suite, outcomes, n);
            && |Orphans(q.disk)| == |Orphans(p.disk)| + Cuts(p, suite, outcomes, n)
            && Cuts(p, suite, outcomes, n) <= (if q.alive then 0 else 1)
    decreases n
  {
    assert n > 0 ==> Listed(Dir(suite[n - 1]));
    hide Orphans, TreeOk, Admissible, AllListed, Attempt, DiesOrphaning, Settled;
    if n > 0 {
      RunOrphans(suite, ok, p, outcomes, n - 1);
      RunIsSettled(suite, ok, p, outcomes, n - 1);
      OneMoreOrphan(RunFirst(p, suite, outcomes, n - 1), suite[n - 1], outcomes[n - 1]);
    }
  }

  lemma {:induction false} ReplayOrphans(suite: seq<Scenario>, ok: (Scenario, Outcome) -> bool, xs: seq<Session>)
    requires Sessions(suite, xs, ok) && AllListed(suite)
    ensures |Orphans(Replay(suite, xs))| == AllCuts(suite, xs)
  {
    if xs != [] {
      var init, last := xs[..|xs| - 1], xs[|xs| - 1];
      ReplayOrphans(suite, ok, init);
      ReplayKeepsTree(suite, ok, init);
      RunOrphans(suite, ok, Process(Replay(suite, init), last.budget, true), last.outcomes, |suite|);
      RebuildKeepsOrphans(RunSession(Replay(suite, init), suite, last).disk, last.rebuilt);
    }
  }

  /** Distinct directories, all of them listed, and no death at an orphaning cut. */
  predicate Complete(suite: seq<Scenario>, xs: seq<Session>)
    requires forall i :: 0 <= i < |xs| ==> |xs[i].outcomes| == |suite|
  {
    DistinctDirs(suite) && AllListed(suite) && AllCuts(suite, xs) == 0
  }

  lemma {:induction false} NoCutsWithoutStreams(suite: seq<Scenario>, xs: seq<Session>)
    requires NoMultiStream(suite) && forall i :: 0 <= i < |xs| ==> |xs[i].outcomes| == |suite|
    ensures AllCuts(suite, xs) == 0
  {
    if xs != [] {
      var init, last := xs[..|xs| - 1], xs[|xs| - 1];
      NoCutsWithoutStreams(suite, init);
      NoCutInRun(Process(Replay(suite, init), last.budget, true), suite, last.outcomes, |suite|);
    }
  }

  lemma {:induction false} NoCutInRun(p: Process, suite: seq<Scenario>, outcomes: seq<Outcome>, n: nat)
    requires NoMultiStream(suite) && n <= |suite| == |outcomes|
    ensures Cuts(p, suite, outcomes, n) == 0
  {
    if n > 0 {
      NoCutInRun(p, suite, outcomes, n - 1);
    }
  }

  /** A finished suite, of scenarios of any kind, is complete exactly when its
      directories are distinct and listed and no session died at an orphaning cut;
      otherwise each such session costs one row. */
  lemma {:induction false} RowsMissing(suite: seq<Scenario>, ok: (Scenario, Outcome) -> bool, xs: seq<Session>)
    requires Sessions(suite, xs, ok) && Finished(suite, xs)
    ensures var disk := Replay(suite, xs);
            |Executed(disk)| + |SkippedDirs(disk)| == |suite| <==> Complete(suite, xs)
    ensures var disk := Replay(suite, xs);
            DistinctDirs(suite) && AllListed(suite) ==>
            |Executed(disk)| + |SkippedDirs(disk)| == |suite| - AllCuts(suite, xs)
    ensures AllListed(suite) ==> (AllCuts(suite, xs) == 0 <==> Orphans(Replay(suite, xs[..|xs| - 1])) == {})
  {
    FinishedCounts(suite, ok, xs);
    FinishedTree(suite, ok, xs);
    if AllListed(suite) {
      ReplayOrphans(suite, ok, xs);
    }
    ListedCount(suite);
  }

  /** Each session adds at most one to the count, and none that runs to its end. */
  lemma {:induction false} SessionCuts(
    suite: seq<Scenario>, ok: (Scenario, Outcome) -> bool, xs: seq<Session>, x: Session)
    requires Sessions(suite, xs, ok) && Admissible(suite, x, ok) && AllListed(suite)
    ensures AllCuts(suite, xs) <= AllCuts(suite, xs + [x])
    ensures AllCuts(suite, xs + [x]) <= AllCuts(suite, xs) + if RunSession(Replay(suite, xs), suite, x).alive then 0 else 1
  {
    assert (xs + [x])[..|xs|] == xs;
    ReplayKeepsTree(suite, ok, xs);
    RunOrphans(suite, ok, Process(Replay(suite, xs), x.budget, true), x.outcomes, |suite|);
  }

  /** An orphan is for ever: no later session adds a row for it. */
  lemma {:induction false} OrphansRemain(suite: seq<Scenario>, disk: Disk, x: Session, d: string)
    requires |x.outcomes| == |suite| && Orphan(FilesOf(disk, d))
    ensures Orphan(FilesOf(RunSession(disk, suite, x).disk, d))
  {
    NoRerun(Process(disk, x.budget, true), suite, x.outcomes, |suite|, d);
  }

  /** A multi-stream scenario that crashes right after its second write, and is
      resumed to the end, has no row in either table. */
  lemma {:induction false} CrashAfterStreamsLosesRow(
    s: Scenario, a: Artifacts, streams: string, details: string, resume: Session)
    requires s.kind.MultiStream? && Listed(Dir(s)) && |resume.outcomes| == 1
    ensures var crash := Session([Measured(a, streams, details)], 2, None);
            var disk := Replay([s], [crash, resume]);
            && Executed(disk) == {} && SkippedDirs(disk) == {}
            && RunSession(Replay([s], [crash]), [s], resume).alive
  {
    var o := Measured(a, streams, details);
    var crash := Session([o], 2, None);
    var start, home := Process(map[], 2, true), Dir(s);
    assert [crash, resume][..1] == [crash] && [crash][..0] == [];
    assert RunFirst(start, [s], [o], 0) == start;
    var q := RunFirst(start, [s], [o], 1);
    assert q == Attempt(start, s, o);
    OnlyHome(start, s, o);
    DoWritesIsPut(start, home, Script(s, o));
    MeasuredScript(s, o, 0);
    CutAttempt(map[], s, o, 2);
    var p := Process(q.disk, resume.budget, true);
    assert RunFirst(p, [s], resume.outcomes, 0) == p;
    assert RunFirst(p, [s], resume.outcomes, 1) == p;
    assert Replay([s], []) == map[] && Replay([s], [crash]) == q.disk;
    assert RunSession(Replay([s], [crash]), [s], resume) == p;
    assert Replay([s], [crash, resume]) == Rebuilt(q.disk, resume.rebuilt);
  }

  lemma {:induction false} OnlyHome(p: Process, s: Scenario, o: Outcome)
    requires p.disk == map[]
    ensures forall d :: d in Attempt(p, s, o).disk ==> d == Dir(s)
  {
    forall d | d != Dir(s)
      ensures d !in Attempt(p, s, o).disk
    {
      AttemptKeepsOthers(p, s, o, d);
    }
  }

  /** Raw names may be distinct and still collide as directories. */
  lemma {:induction false} RawNamesMayCollide()
    ensures "a/b" != "a b" && Sanitize("a/b") == Sanitize("a b") == "a_b"
  {
    assert !Safe('/') && !Safe(' ') && Safe('a') && Safe('b');
    assert Sanitize("a/b") == "a_b" && Sanitize("a b") == "a_b";
  }

  /** A name may be valid and still lead out of the listing: a lone scenario named
      `.` or `..` has no row after any finished run, crashed before or not. */
  lemma {:induction false} DotNamesHaveNoRow(s: Scenario, ok: (Scenario, Outcome) -> bool, xs: seq<Session>)
    requires s.name == "." || s.name == ".."
    requires Sessions([s], xs, ok) && Finished([s], xs)
    ensures DistinctDirs([s])
    ensures Executed(Replay([s], xs)) == {} && SkippedDirs(Replay([s], xs)) == {}
  {
    assert Safe('.');
    assert Sanitize(s.name) == s.name;
    ListedName(s.name);
    FinishedTree([s], ok, xs);
    assert ListedOf([s]) == {};
  }

  /** In the root a rebuilt summary can meet a skip: the file implications fail for
      a scenario named `..`. */
  lemma {:induction false} RootBreaksImplications(s: Scenario, o: Outcome, summary: string)
    requires s.name == ".." && s.kind.SingleStream? && o.Skipped?
    ensures var files := FilesOf(Replay([s], [Session([o], 2, Some(summary))]), ROOT);
            SummaryCsv in files && SkipCsv in files
  {
    var x := Session([o], 2, Some(summary));
    assert Safe('.');
    assert Sanitize(s.name) == s.name;
    assert [x][..0] == [] && Replay([s], []) == map[];
    var start := Process(map[], 2, true);
    assert RunFirst(start, [s], [o], 0) == start;
    assert RunFirst(start, [s], [o], 1) == Attempt(start, s, o);
    SkippedPhases(map[], s, o, 2);
    DoWritesIsPut(start, ROOT, Script(s, o));
  }

  /** `duplicate_scenario_name`: the first name, in order over the loaded
      configurations, that already occurred. */
  method DuplicateScenarioName(loaded: seq<seq<string>>) returns (r: Option<string>)
    ensures r.None? <==> NoRepeats(Flatten(loaded))
    ensures r.Some? ==> exists k :: 0 <= k < |Flatten(loaded)| && FirstRepeat(Flatten(loaded), k) && Flatten(loaded)[k] == r.value
  {
    ghost var all := Flatten(loaded);
    var seen: set<string> := {};
    assert Flatten(loaded[..0]) == [] && Elements(all[..0]) == {};
    hide Flatten, FirstRepeat, Elements;
    ghost var done: nat := 0;
    for c := 0 to |loaded|
      invariant done == |Flatten(loaded[..c])| && Flatten(loaded[..c]) <= all
      invariant seen == Elements(all[..done]) && NoRepeats(all[..done])
    {
      FlattenSlice(loaded, c);
      ghost var base := done;
      for i := 0 to |loaded[c]|
        invariant done == base + i && base + |loaded[c]| <= |all|
        invariant all[base..base + |loaded[c]|] == loaded[c]
        invariant seen == Elements(all[..done]) && NoRepeats(all[..done])
      {
        var name := loaded[c][i];
        assert name == all[base..base + |loaded[c]|][i] == all[done];
        OneMoreName(all, done);
        if name in seen {
          return Some(name);
        }
        seen := seen + {name};
        done := done + 1;
      }
    }
    assert loaded[..|loaded|] == loaded && all[..done] == all;
    r := None;
  }

  function Flatten(loaded: seq<seq<string>>): seq<string> {
    if loaded == [] then [] else Flatten(loaded[..|loaded| - 1]) + loaded[|loaded| - 1]
  }

  lemma {:induction false} FlattenPrefix(loaded: seq<seq<string>>, c: nat)
    requires c <= |loaded|
    ensures Flatten(loaded[..c]) <= Flatten(loaded)
    decreases |loaded|
  {
    if c < |loaded| {
      FlattenPrefix(loaded[..|loaded| - 1], c);
      assert loaded[..|loaded| - 1][..c] == loaded[..c];
    } else {
      assert loaded[..c] == loaded;
    }
  }

  /** A configuration's names follow those of the configurations before it. */
  lemma {:induction false} FlattenSlice(loaded: seq<seq<string>>, c: nat)
    requires c < |loaded|
    ensures var all, base, next := Flatten(loaded), |Flatten(loaded[..c])|, |Flatten(loaded[..c + 1])|;
            && next == base + |loaded[c]| <= |all| && all[base..next] == loaded[c]
            && Flatten(loaded[..c + 1]) <= all
  {
    assert loaded[..c + 1][..c] == loaded[..c];
    FlattenPrefix(loaded, c + 1);
    var front, all := Flatten(loaded[..c]), Flatten(loaded);
    assert Flatten(loaded[..c + 1]) == front + loaded[c];
    hide Flatten;
    assert (front + loaded[c])[|front|..] == loaded[c];
  }

  lemma {:induction false} OneMoreName(all: seq<string>, done: nat)
    requires done < |all| && NoRepeats(all[..done])
    ensures Elements(all[..done + 1]) == Elements(all[..done]) + {all[done]}
    ensures if all[done] in Elements(all[..done]) then !NoRepeats(all) && FirstRepeat(all, done) else NoRepeats(all[..done + 1])
  {
    assert all[..done + 1] == all[..done] + [all[done]];
    if all[done] in Elements(all[..done]) {
      var j :| 0 <= j < done && all[..done][j] == all[done];
      assert all[j] == all[done];
    }
  }

  predicate FirstRepeat(names: seq<string>, k: nat)
    requires k < |names|
  {
    names[k] in names[..k] && NoRepeats(names[..k])
  }
}
