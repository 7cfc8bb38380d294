/** The texts of a scenario's files, the consolidated tables rebuilt from them, and
    what the tables tell of a suite when they are read. */
module Report {
  import opened Wrappers
  import opened Csv
  import opened SummaryRow
  import opened ResultTree

  // ----- What is written for one scenario -----

  /** How an attempt turns out, before it is rendered to text. `runs`, `curve`,
      `streams` and `details` are the texts of artifacts no table is built from. */
  datatype Plan =
    | Measure(r: Record, runs: string, curve: string, streams: string, details: string)
    | Skip(reason: string, afterStreams: bool, streams: string)

  function Rendered(f: Format, r: Record, runs: string, curve: string): Artifacts {
    Artifacts(ConfigText(f, r), SummaryText(f, r), TableText([LiveRow(f, r)]), runs,
              if r.sweep.Some? then Some(curve) else None)
  }

  function SkipPairs(name: string, reason: string): seq<seq<string>> {
    [["scenario", name], ["reason", reason]]
  }

  function Outcomes(f: Format, s: Scenario, p: Plan): Outcome {
    match p
    case Measure(r, runs, curve, streams, details) => Measured(Rendered(f, r, runs, curve), streams, details)
    case Skip(reason, afterStreams, streams) =>
      Skipped(KeyValueText(SkipPairs(s.name, reason)), TableText([[s.name, reason]]), afterStreams, streams)
  }

  /** The record carries the scenario's name. */
  predicate Tidy(s: Scenario, p: Plan) {
    p.Measure? ==> p.r.name == s.name
  }

  /** The outcomes a scenario may have. */
  ghost predicate Genuine(f: Format, s: Scenario, o: Outcome) {
    exists p :: Tidy(s, p) && Outcomes(f, s, p) == o
  }

  /** An attempt the process survives leaves every text of its outcome: the artifacts of
      the record, the row, the stream artifacts of a multi-stream scenario, the reload
      record of a hot-reload one, and the saturation curve where there was a sweep. */
  lemma {:induction false} SurvivingTexts(f: Format, p: Process, s: Scenario, plan: Plan)
    requires p.alive && Unrecorded(FilesOf(p.disk, Dir(s))) && |Script(s, Outcomes(f, s, plan))| <= p.budget
    ensures var after := FilesOf(Attempt(p, s, Outcomes(f, s, plan)).disk, Dir(s));
            match plan
            case Measure(r, runs, curve, streams, details) =>
              && HasText(after, ConfigCsv, ConfigText(f, r)) && HasText(after, SummaryCsv, SummaryText(f, r))
              && HasText(after, RunsCsv, runs) && HasText(after, SummaryRowCsv, TableText([LiveRow(f, r)]))
              && (r.sweep.Some? ==> HasText(after, SaturationCsv, curve))
              && (s.kind.MultiStream? ==> HasText(after, StreamsCsv, streams) && HasText(after, StreamSummaryCsv, streams))
              && (s.kind.HotReload? ==> HasText(after, HotreloadCsv, details))
            case Skip(reason, afterStreams, streams) =>
              && HasText(after, SkipCsv, KeyValueText([["scenario", s.name], ["reason", reason]]))
              && HasText(after, SkipRowCsv, TableText([[s.name, reason]]))
              && (s.kind.MultiStream? && afterStreams ==>
                    HasText(after, StreamsCsv, streams) && HasText(after, StreamSummaryCsv, streams))
  {
    var o, before := Outcomes(f, s, plan), FilesOf(p.disk, Dir(s));
    var ws := Script(s, o);
    DoWritesIsPut(p, Dir(s), ws);
    assert ws[..|ws|] == ws;
    hide Script, Put, ConfigText, SummaryText, TableText, KeyValueText, LiveRow, DoWrites;
    if o.Measured? {
      MeasuredPhases(before, s, o, |ws|);
      ScriptLength(s, o);
    } else {
      SkippedPhases(before, s, o, |ws|);
    }
  }

  lemma {:induction false} ScriptLength(s: Scenario, o: Outcome)
    requires o.Measured?
    ensures |Script(s, o)| == RowAt(s, o.a) + 1 + (if s.kind.HotReload? then 1 else 0)
  {}

  // ----- The rows rebuilt from one directory -----

  /** The exact row when it was persisted, else the row reconstructed from the
      key/value artifacts. */
  function SummaryLine(f: Format, files: Files): Option<string> {
    if SummaryRowCsv in files then Some(files[SummaryRowCsv])
    else if SummaryCsv in files then
      var config := if ConfigCsv in files then KeyValues(files[ConfigCsv]) else map[];
      Some(TableText([ReconstructedRow(f, config, KeyValues(files[SummaryCsv]))]))
    else None
  }

  function Lookup(m: map<string, string>, key: string): string {
    if key in m then m[key] else ""
  }

  function SkipLine(files: Files): Option<string> {
    if SkipRowCsv in files then Some(files[SkipRowCsv])
    else if SkipCsv in files then
      var m := KeyValues(files[SkipCsv]);
      Some(TableText([[Lookup(m, "scenario"), Lookup(m, "reason")]]))
    else None
  }

  /** What a directory tells of: a scenario and how an attempt at it turned out. */
  datatype Told = Told(s: Scenario, p: Plan)

  ghost predicate Explains(f: Format, suite: seq<Scenario>, d: string, files: Files, t: Told) {
    t.s in suite && Dir(t.s) == d && Tidy(t.s, t.p) && Holds(files, Outcomes(f, t.s, t.p))
  }

  /** The row a directory should contribute: what was measured, with the unpersisted
      columns blank when only the key/value files were written, or the skip. */
  function TrueRow(f: Format, files: Files, t: Told): seq<string> {
    match t.p
    case Measure(r, _, _, _, _) =>
      LiveRowShape(f, r);
      if SummaryRowCsv in files then LiveRow(f, r) else Persisted(LiveRow(f, r))
    case Skip(reason, _, _) => [t.s.name, reason]
  }

  /** The row its line is the text of. */
  function WrittenRow(f: Format, files: Files, t: Told): seq<string> {
    match t.p
    case Measure(r, _, _, _, _) =>
      if SummaryRowCsv in files then LiveRow(f, r)
      else ReconstructedRow(f, KeyValues(ConfigText(f, r)), KeyValues(SummaryText(f, r)))
    case Skip(reason, _, _) =>
      if SkipRowCsv in files then [t.s.name, reason]
      else
        var m := KeyValues(KeyValueText(SkipPairs(t.s.name, reason)));
        [Lookup(m, "scenario"), Lookup(m, "reason")]
  }

  /** No text of the row has a line feed and, when only the key/value files were
      written, no line of the category is taken for a column. */
  predicate Clean(f: Format, files: Files, t: Told) {
    match t.p
    case Measure(r, _, _, _, _) => OneLine(r) && (SummaryRowCsv in files || Harmless(f, r))
    case Skip(reason, _, _) => '\n' !in t.s.name && '\n' !in reason
  }

  /** A skip record reads back as its name and reason if and only if neither has a
      line feed. */
  lemma {:induction false} SkipPairsRead(name: string, reason: string)
    ensures var m := KeyValues(KeyValueText(SkipPairs(name, reason)));
            Lookup(m, "scenario") == name && Lookup(m, "reason") == reason <==> '\n' !in name && '\n' !in reason
  {
    var pairs := SkipPairs(name, reason);
    KeyValuesAreOneLine(KeyValueText(pairs));
    if '\n' !in name && '\n' !in reason {
      PairsReadBack(pairs);
      assert pairs == [pairs[0]] + [pairs[1]];
      MapOfSnoc([], pairs[0]);
      MapOfSnoc([pairs[0]], pairs[1]);
      assert [] + [pairs[0]] == [pairs[0]];
      assert pairs[0] == ["scenario", name] && pairs[1] == ["reason", reason];
      assert "scenario"[0] != "reason"[0];
    }
  }

  lemma {:induction false} MeasuredLine(f: Format, files: Files, t: Told)
    requires ValidFormat(f) && t.p.Measure? && Tidy(t.s, t.p) && Holds(files, Outcomes(f, t.s, t.p))
    ensures SummaryLine(f, files) == Some(TableText([WrittenRow(f, files, t)])) && SkipLine(files) == None
    ensures var row := WrittenRow(f, files, t);
            && |row| >= 2 && (row == TrueRow(f, files, t) || NoLineFeed(row))
            && (row == TrueRow(f, files, t) && NoLineFeed(row) <==> Clean(f, files, t))
    ensures TrueRow(f, files, t) != [] && TrueRow(f, files, t)[0] == t.s.name
  {
    var r := t.p.r;
    LiveRowIsTabular(f, r);
    ReconstructionMatchesLive(f, r);
    RebuiltIsOneLine(f, ConfigText(f, r), SummaryText(f, r));
    hide LiveRow, OneLine, Harmless, Headers, Persisted, ConfigText, SummaryText, KeyValues, TableText;
  }

  lemma {:induction false} SkippedLine(f: Format, files: Files, t: Told)
    requires t.p.Skip? && Holds(files, Outcomes(f, t.s, t.p))
    ensures SkipLine(files) == Some(TableText([WrittenRow(f, files, t)])) && SummaryLine(f, files) == None
    ensures var row := WrittenRow(f, files, t);
            && |row| >= 2 && (row == TrueRow(f, files, t) || NoLineFeed(row))
            && (row == TrueRow(f, files, t) && NoLineFeed(row) <==> Clean(f, files, t))
    ensures TrueRow(f, files, t) != [] && TrueRow(f, files, t)[0] == t.s.name
  {
    SkipPairsRead(t.s.name, t.p.reason);
    KeyValuesAreOneLine(KeyValueText(SkipPairs(t.s.name, t.p.reason)));
    var row := WrittenRow(f, files, t);
    TwoCells(row[0], row[1]);
    hide KeyValueText, KeyValues, TableText, NoLineFeed;
  }

  lemma {:induction false} TwoCells(a: string, b: string)
    ensures NoLineFeed([a, b]) <==> '\n' !in a && '\n' !in b
  {
    assert [a, b][0] == a && [a, b][1] == b;
  }

  // ----- The consolidated tables -----

  /** A listing of the scenario directories in which each occurs once. It has no
      entry for the listed directory itself or for its parent. */
  ghost predicate Listing(disk: Disk, dirs: seq<string>) {
    NoRepeats(dirs) && forall d :: d in dirs <==> d in disk && Listed(d)
  }

  /** What the directories contribute to one table, in listing order. */
  function SummaryLines(f: Format, disk: Disk, dirs: seq<string>): (lines: seq<Option<string>>)
    ensures |lines| == |dirs|
  {
    seq(|dirs|, i requires 0 <= i < |dirs| => SummaryLine(f, FilesOf(disk, dirs[i])))
  }

  function SkipLines(disk: Disk, dirs: seq<string>): (lines: seq<Option<string>>)
    ensures |lines| == |dirs|
  {
    seq(|dirs|, i requires 0 <= i < |dirs| => SkipLine(FilesOf(disk, dirs[i])))
  }

  /** The lines that are present, one after another. */
  function Gathered(lines: seq<Option<string>>): string {
    if lines == [] then "" else Gathered(lines[..|lines| - 1]) + lines[|lines| - 1].GetOr("")
  }

  /** The directories whose line is present. */
  function Kept(dirs: seq<string>, lines: seq<Option<string>>): (ds: seq<string>)
    requires |dirs| == |lines|
  {
    if dirs == [] then []
    else
      var last := |dirs| - 1;
      Kept(dirs[..last], lines[..last]) + if lines[last].Some? then [dirs[last]] else []
  }

  function SkipHeader(): seq<string> {
    ["scenario", "reason"]
  }

  /** The top-level `summary.csv`. */
  function SummaryTable(f: Format, disk: Disk, dirs: seq<string>): string {
    TableText([HeaderNames(f)]) + Gathered(SummaryLines(f, disk, dirs))
  }

  /** Looked up by name, the two columns give the scenario and the reason. */
  lemma {:induction false} SkipColumns(name: string, reason: string)
    ensures Column(SkipHeader(), [name, reason], "scenario") == name && Column(SkipHeader(), [name, reason], "reason") == reason
  {
    assert "scenario"[0] != "reason"[0];
    assert SkipHeader()[0] == "scenario" && SkipHeader()[1] == "reason";
    ColumnByName(SkipHeader(), [name, reason], 0, "");
    ColumnByName(SkipHeader(), [name, reason], 1, "");
  }

  /** The top-level `skipped.csv`. */
  function SkippedTable(disk: Disk, dirs: seq<string>): string {
    TableText([SkipHeader()]) + Gathered(SkipLines(disk, dirs))
  }

  ghost function TellerOf(f: Format, suite: seq<Scenario>, d: string, files: Files): (t: Told)
    requires exists t :: Explains(f, suite, d, files, t)
    ensures Explains(f, suite, d, files, t)
  {
    var t :| Explains(f, suite, d, files, t);
    t
  }

  /** An account of the tree: what each directory with a row tells of. */
  ghost predicate Account(f: Format, suite: seq<Scenario>, disk: Disk, told: map<string, Told>) {
    forall d :: d in Executed(disk) + SkippedDirs(disk) ==> d in told && Explains(f, suite, d, FilesOf(disk, d), told[d])
  }

  /** Every reachable tree has one. */
  lemma {:induction false} TreeHasAccount(f: Format, suite: seq<Scenario>, disk: Disk) returns (told: map<string, Told>)
    requires TreeOk(suite, (s, o) => Genuine(f, s, o), disk)
    ensures Account(f, suite, disk, told)
  {
    var ok := (s, o) => Genuine(f, s, o);
    forall d | d in Executed(disk) + SkippedDirs(disk)
      ensures exists t :: Explains(f, suite, d, FilesOf(disk, d), t)
    {
      assert DirOk(suite, ok, d, disk[d]);
      var s, o :| Owns(suite, ok, d, disk[d], s, o);
      var p :| Tidy(s, p) && Outcomes(f, s, p) == o;
      assert Explains(f, suite, d, FilesOf(disk, d), Told(s, p));
    }
    told := map d | d in Executed(disk) + SkippedDirs(disk) :: TellerOf(f, suite, d, FilesOf(disk, d));
  }

  function TrueRows(f: Format, disk: Disk, ds: seq<string>, told: map<string, Told>): (rows: seq<seq<string>>)
    requires forall d :: d in ds ==> d in told
    ensures |rows| == |ds|
  {
    seq(|ds|, i requires 0 <= i < |ds| => TrueRow(f, FilesOf(disk, ds[i]), told[ds[i]]))
  }

  function WrittenRows(f: Format, disk: Disk, ds: seq<string>, told: map<string, Told>): (rows: seq<seq<string>>)
    requires forall d :: d in ds ==> d in told
    ensures |rows| == |ds|
  {
    seq(|ds|, i requires 0 <= i < |ds| => WrittenRow(f, FilesOf(disk, ds[i]), told[ds[i]]))
  }

  predicate AllClean(f: Format, disk: Disk, ds: seq<string>, told: map<string, Told>)
    requires forall d :: d in ds ==> d in told
  {
    forall d :: d in ds ==> Clean(f, FilesOf(disk, d), told[d])
  }

  /** A directory's line, when present, is the text of its written row. */
  predicate LineOf(f: Format, disk: Disk, told: map<string, Told>, d: string, line: Option<string>) {
    line.Some? ==>
      d in told
      && var files := FilesOf(disk, d);
         var row := WrittenRow(f, files, told[d]);
         && line.value == TableText([row])
         && |row| >= 2 && (row == TrueRow(f, files, told[d]) || NoLineFeed(row))
         && (row == TrueRow(f, files, told[d]) && NoLineFeed(row) <==> Clean(f, files, told[d]))
         && TrueRow(f, files, told[d]) != [] && TrueRow(f, files, told[d])[0] == told[d].s.name
  }

  lemma {:induction false} LinesOfDir(
    f: Format, suite: seq<Scenario>, disk: Disk, told: map<string, Told>, d: string)
    requires ValidFormat(f) && Account(f, suite, disk, told) && d in disk && Listed(d)
    ensures LineOf(f, disk, told, d, SummaryLine(f, disk[d])) && LineOf(f, disk, told, d, SkipLine(disk[d]))
  {
    var files := disk[d];
    assert SummaryLine(f, files).Some? <==> HasSummary(files);
    assert SkipLine(files).Some? <==> HasSkip(files);
    if HasSummary(files) || HasSkip(files) {
      assert d in Executed(disk) + SkippedDirs(disk);
      var t := told[d];
      hide SummaryLine, SkipLine, WrittenRow, TrueRow, TableText, Clean;
      if t.p.Measure? {
        MeasuredLine(f, files, t);
      } else {
        SkippedLine(f, files, t);
      }
    }
  }

  lemma {:induction false} GatheredRows(
    f: Format, disk: Disk, told: map<string, Told>, dirs: seq<string>, lines: seq<Option<string>>)
    requires |dirs| == |lines| && forall i :: 0 <= i < |dirs| ==> LineOf(f, disk, told, dirs[i], lines[i])
    ensures forall d :: d in Kept(dirs, lines) ==> d in told
    ensures Gathered(lines) == TableText(WrittenRows(f, disk, Kept(dirs, lines), told))
  {
    if dirs == [] {
      assert TableText(WrittenRows(f, disk, [], told)) == "";
    } else {
      var last := |dirs| - 1;
      GatheredRows(f, disk, told, dirs[..last], lines[..last]);
      var front := Kept(dirs[..last], lines[..last]);
      assert LineOf(f, disk, told, dirs[last], lines[last]);
      if lines[last].Some? {
        LineIsRow(f, disk, told, dirs[last], lines[last]);
      }
      hide TableText, LineOf, WrittenRows;
      if lines[last].Some? {
        WrittenAppends(f, disk, told, front, dirs[last]);
      } else {
        assert Kept(dirs, lines) == front;
      }
    }
  }

  lemma {:induction false} LineIsRow(f: Format, disk: Disk, told: map<string, Told>, d: string, line: Option<string>)
    requires LineOf(f, disk, told, d, line) && line.Some?
    ensures d in told && line.value == TableText(WrittenRows(f, disk, [d], told))
  {
    hide TableText, WrittenRow, TrueRow, Clean;
    assert WrittenRows(f, disk, [d], told) == [WrittenRow(f, FilesOf(disk, d), told[d])];
  }

  lemma {:induction false} WrittenAppends(f: Format, disk: Disk, told: map<string, Told>, front: seq<string>, d: string)
    requires d in told && forall e :: e in front ==> e in told
    ensures TableText(WrittenRows(f, disk, front + [d], told)) ==
            TableText(WrittenRows(f, disk, front, told)) + TableText(WrittenRows(f, disk, [d], told))
  {
    hide TableText, WrittenRow;
    assert WrittenRows(f, disk, front + [d], told) == WrittenRows(f, disk, front, told) + WrittenRows(f, disk, [d], told);
    TableTextAppends(WrittenRows(f, disk, front, told), WrittenRows(f, disk, [d], told));
  }

  lemma {:induction false} KeptRows(
    f: Format, disk: Disk, told: map<string, Told>, dirs: seq<string>, lines: seq<Option<string>>, d: string)
    requires |dirs| == |lines| && forall i :: 0 <= i < |dirs| ==> LineOf(f, disk, told, dirs[i], lines[i])
    requires d in Kept(dirs, lines)
    ensures d in told
    ensures var files := FilesOf(disk, d);
            var row := WrittenRow(f, files, told[d]);
            && |row| >= 2 && (row == TrueRow(f, files, told[d]) || NoLineFeed(row))
            && (row == TrueRow(f, files, told[d]) && NoLineFeed(row) <==> Clean(f, files, told[d]))
            && TrueRow(f, files, told[d]) != [] && TrueRow(f, files, told[d])[0] == told[d].s.name
  {
    KeptMembers(dirs, lines, d);
    var i: nat :| KeptAt(dirs, lines, i, d);
    hide WrittenRow, TrueRow, TableText, Clean;
    assert LineOf(f, disk, told, dirs[i], lines[i]);
  }

  /** Rows written under a header are read as the rows they should be if and only if
      they are those rows and have no line feed. */
  lemma {:induction false} TableTells(header: seq<string>, written: seq<seq<string>>, rows: seq<seq<string>>)
    requires Tabular([header]) && |written| == |rows|
    requires forall i :: 0 <= i < |written| ==> |written[i]| >= 2 && (written[i] == rows[i] || NoLineFeed(written[i]))
    ensures ParsedTable(TableText([header] + written)) == [header] + rows <==>
            forall i :: 0 <= i < |written| ==> written[i] == rows[i] && NoLineFeed(written[i])
  {
    var text := TableText([header] + written);
    if forall i :: 0 <= i < |written| ==> NoLineFeed(written[i]) {
      assert Tabular([header] + written);
      TableRoundTrip([header] + written);
      hide *;
      assert [header] + written == [header] + rows <==> written == rows by {
        assert ([header] + written)[1..] == written && ([header] + rows)[1..] == rows;
      }
    } else {
      var i :| 0 <= i < |written| && !NoLineFeed(written[i]);
      ParsedHasNoLineFeed(Pieces(text));
      assert ([header] + rows)[i + 1] == rows[i];
    }
  }

  /** A header over gathered lines reads as the header and the true rows of the
      directories that have a line if and only if these are clean. */
  lemma {:induction false} GatheredTableReads(
    f: Format, disk: Disk, told: map<string, Told>, header: seq<string>, dirs: seq<string>, lines: seq<Option<string>>)
    requires Tabular([header])
    requires |dirs| == |lines| && forall i :: 0 <= i < |dirs| ==> LineOf(f, disk, told, dirs[i], lines[i])
    ensures forall d :: d in Kept(dirs, lines) ==> d in told
    ensures var ds := Kept(dirs, lines);
            ParsedTable(TableText([header]) + Gathered(lines)) == [header] + TrueRows(f, disk, ds, told) <==> AllClean(f, disk, ds, told)
  {
    GatheredRows(f, disk, told, dirs, lines);
    var ds := Kept(dirs, lines);
    var written, rows := WrittenRows(f, disk, ds, told), TrueRows(f, disk, ds, told);
    hide WrittenRow, TrueRow, TableText, Clean, LineOf, Kept, Gathered, ParsedTable, Tabular;
    forall i | 0 <= i < |ds|
      ensures |written[i]| >= 2 && (written[i] == rows[i] || NoLineFeed(written[i]))
      ensures written[i] == rows[i] && NoLineFeed(written[i]) <==> Clean(f, FilesOf(disk, ds[i]), told[ds[i]])
    {
      KeptRows(f, disk, told, dirs, lines, ds[i]);
    }
    TableTextAppends([header], written);
    TableTells(header, written, rows);
  }

  lemma {:induction false} HeadersAreTabular(f: Format)
    requires ValidFormat(f)
    ensures Tabular([HeaderNames(f)]) && Tabular([SkipHeader()])
  {
    assert |Headers()| > 14;
  }

  /** In every reachable state each consolidated table reads as its header and one
      true row for each executed, respectively skipped, directory if and only if all
      of them are clean. */
  lemma {:induction false} TablesRead(
    f: Format, suite: seq<Scenario>, disk: Disk, dirs: seq<string>, told: map<string, Told>)
    requires ValidFormat(f) && Account(f, suite, disk, told) && forall d :: d in dirs ==> d in disk && Listed(d)
    ensures forall d :: d in Kept(dirs, SummaryLines(f, disk, dirs)) ==> d in told
    ensures forall d :: d in Kept(dirs, SkipLines(disk, dirs)) ==> d in told
    ensures var e := Kept(dirs, SummaryLines(f, disk, dirs));
            ParsedTable(SummaryTable(f, disk, dirs)) == [HeaderNames(f)] + TrueRows(f, disk, e, told) <==> AllClean(f, disk, e, told)
    ensures var k := Kept(dirs, SkipLines(disk, dirs));
            ParsedTable(SkippedTable(disk, dirs)) == [SkipHeader()] + TrueRows(f, disk, k, told) <==> AllClean(f, disk, k, told)
  {
    forall i | 0 <= i < |dirs|
      ensures LineOf(f, disk, told, dirs[i], SummaryLines(f, disk, dirs)[i])
      ensures LineOf(f, disk, told, dirs[i], SkipLines(disk, dirs)[i])
    {
      LinesOfDir(f, suite, disk, told, dirs[i]);
    }
    HeadersAreTabular(f);
    hide LineOf, Kept, Gathered, ParsedTable, TableText, TrueRows, AllClean, SummaryLines, SkipLines, HeaderNames, SkipHeader, Tabular;
    GatheredTableReads(f, disk, told, HeaderNames(f), dirs, SummaryLines(f, disk, dirs));
    GatheredTableReads(f, disk, told, SkipHeader(), dirs, SkipLines(disk, dirs));
  }

  // ----- One row per scenario, as read from the tables -----

  /** Every row of a parsed table after its header, by first cell. */
  function Names(rows: seq<seq<string>>): (names: seq<string>)
    requires forall i :: 0 <= i < |rows| ==> rows[i] != []
    ensures |names| == |rows|
  {
    seq(|rows|, i requires 0 <= i < |rows| => rows[i][0])
  }

  predicate KeptAt(dirs: seq<string>, lines: seq<Option<string>>, i: nat, d: string)
    requires |dirs| == |lines|
  {
    i < |dirs| && dirs[i] == d && lines[i].Some?
  }

  lemma {:induction false} KeptMembers(dirs: seq<string>, lines: seq<Option<string>>, d: string)
    requires |dirs| == |lines|
    ensures d in Kept(dirs, lines) <==> exists i: nat :: KeptAt(dirs, lines, i, d)
  {
    if dirs != [] {
      var last := |dirs| - 1;
      KeptMembers(dirs[..last], lines[..last], d);
      if i: nat :| KeptAt(dirs[..last], lines[..last], i, d) {
        assert KeptAt(dirs, lines, i, d);
      }
      if i: nat :| KeptAt(dirs, lines, i, d) {
        assert i == last || KeptAt(dirs[..last], lines[..last], i, d);
      }
      assert KeptAt(dirs, lines, last, d) <==> dirs[last] == d && lines[last].Some?;
    }
  }

  lemma {:induction false} KeptOfListing(dirs: seq<string>, lines: seq<Option<string>>)
    requires NoRepeats(dirs) && |dirs| == |lines|
    ensures NoRepeats(Kept(dirs, lines))
  {
    if dirs != [] {
      var last := |dirs| - 1;
      KeptOfListing(dirs[..last], lines[..last]);
      KeptMembers(dirs[..last], lines[..last], dirs[last]);
    }
  }

  /** The two row sets of a tree, as lists of directories. */
  lemma {:induction false} PartsOfTree(f: Format, disk: Disk, dirs: seq<string>)
    requires Listing(disk, dirs)
    ensures var e, k := Kept(dirs, SummaryLines(f, disk, dirs)), Kept(dirs, SkipLines(disk, dirs));
            && NoRepeats(e) && Elements(e) == Executed(disk) && |e| == |Executed(disk)|
            && NoRepeats(k) && Elements(k) == SkippedDirs(disk) && |k| == |SkippedDirs(disk)|
  {
    var e, k := Kept(dirs, SummaryLines(f, disk, dirs)), Kept(dirs, SkipLines(disk, dirs));
    hide KeyValues, ReconstructedRow, TableText, Kept;
    KeptOfListing(dirs, SummaryLines(f, disk, dirs));
    KeptOfListing(dirs, SkipLines(disk, dirs));
    ElementCount(e);
    ElementCount(k);
    forall d
      ensures d in Elements(e) <==> d in Executed(disk)
      ensures d in Elements(k) <==> d in SkippedDirs(disk)
    {
      KeptMembers(dirs, SummaryLines(f, disk, dirs), d);
      KeptMembers(dirs, SkipLines(disk, dirs), d);
      if d in disk && Listed(d) {
        var i :| 0 <= i < |dirs| && dirs[i] == d;
        assert KeptAt(dirs, SummaryLines(f, disk, dirs), i, d) <==> HasSummary(disk[d]);
        assert KeptAt(dirs, SkipLines(disk, dirs), i, d) <==> HasSkip(disk[d]);
      }
    }
  }

  predicate InSuite(suite: seq<Scenario>, name: string) {
    exists s :: s in suite && s.name == name
  }

  /** A list of suite names, one per directory, without repeats and covering every
      directory, has every name of the suite exactly once. */
  lemma {:induction false} OneNamePerDirectory(suite: seq<Scenario>, names: seq<string>, ds: seq<string>)
    requires DistinctDirs(suite) && |names| == |ds| && NoRepeats(ds)
    requires forall i :: 0 <= i < |names| ==> DirOf(names[i]) == ds[i] && InSuite(suite, names[i])
    requires forall s :: s in suite ==> Dir(s) in ds
    ensures NoRepeats(names) && forall n :: n in names <==> InSuite(suite, n)
  {
    forall n | InSuite(suite, n)
      ensures n in names
    {
      var s :| s in suite && s.name == n;
      var i :| 0 <= i < |ds| && ds[i] == Dir(s);
      var t :| t in suite && t.name == names[i];
      SameDirSameScenario(suite, s, t);
    }
  }

  lemma {:induction false} SameDirSameScenario(suite: seq<Scenario>, s: Scenario, t: Scenario)
    requires DistinctDirs(suite) && s in suite && t in suite && Dir(s) == Dir(t)
    ensures s == t
  {
    var i :| 0 <= i < |suite| && suite[i] == s;
    var j :| 0 <= j < |suite| && suite[j] == t;
    assert i == j;
  }

  /** True rows of directories that partition those of the suite name each scenario once. */
  lemma {:induction false} NamesOfParts(
    f: Format, suite: seq<Scenario>, disk: Disk, told: map<string, Told>, e: seq<string>, k: seq<string>)
    requires DistinctDirs(suite) && NoRepeats(e) && NoRepeats(k) && Elements(e) !! Elements(k)
    requires Dirs(suite) == Elements(e) + Elements(k)
    requires forall d :: d in e + k ==> d in told && told[d].s in suite && Dir(told[d].s) == d
    requires forall d :: d in e + k ==>
               var row := TrueRow(f, FilesOf(disk, d), told[d]); row != [] && row[0] == told[d].s.name
    ensures OneRowEach(suite, TrueRows(f, disk, e, told) + TrueRows(f, disk, k, told))
  {
    hide TrueRow;
    var rows, ds := TrueRows(f, disk, e, told) + TrueRows(f, disk, k, told), e + k;
    forall i | 0 <= i < |ds|
      ensures rows[i] != [] && rows[i][0] == told[ds[i]].s.name
    {
      assert ds[i] in ds && rows[i] == TrueRow(f, FilesOf(disk, ds[i]), told[ds[i]]);
    }
    forall i, j | 0 <= i < |e| && 0 <= j < |k|
      ensures e[i] != k[j]
    {
      assert e[i] in Elements(e) && k[j] in Elements(k);
    }
    forall s | s in suite
      ensures Dir(s) in ds
    {
      assert Dir(s) in Dirs(suite);
      assert Dir(s) in Elements(e) || Dir(s) in Elements(k);
    }
    OneNamePerDirectory(suite, Names(rows), ds);
  }

  /** The tables read as the true rows, one for each scenario of the suite. */
  ghost predicate TrueTables(
    f: Format, suite: seq<Scenario>, disk: Disk, dirs: seq<string>, told: map<string, Told>, summary: string, skipped: string)
    requires Account(f, suite, disk, told) && Listing(disk, dirs)
  {
    PartsOfTree(f, disk, dirs);
    var done, skips := DoneRows(f, suite, disk, dirs, told), SkipRows(f, suite, disk, dirs, told);
    && ParsedTable(summary) == [HeaderNames(f)] + done && ParsedTable(skipped) == [SkipHeader()] + skips
    && |done| + |skips| == |suite| && OneRowEach(suite, done + skips)
  }

  ghost function DoneRows(
    f: Format, suite: seq<Scenario>, disk: Disk, dirs: seq<string>, told: map<string, Told>): seq<seq<string>>
    requires Account(f, suite, disk, told) && Listing(disk, dirs)
  {
    PartsOfTree(f, disk, dirs);
    TrueRows(f, disk, Kept(dirs, SummaryLines(f, disk, dirs)), told)
  }

  ghost function SkipRows(
    f: Format, suite: seq<Scenario>, disk: Disk, dirs: seq<string>, told: map<string, Told>): seq<seq<string>>
    requires Account(f, suite, disk, told) && Listing(disk, dirs)
  {
    PartsOfTree(f, disk, dirs);
    TrueRows(f, disk, Kept(dirs, SkipLines(disk, dirs)), told)
  }

  /** Every directory with a row is clean. */
  ghost predicate CleanTree(f: Format, suite: seq<Scenario>, disk: Disk, told: map<string, Told>)
    requires Account(f, suite, disk, told)
  {
    forall d :: d in Executed(disk) + SkippedDirs(disk) ==> Clean(f, FilesOf(disk, d), told[d])
  }

  /** After any crashes, a finished suite of scenarios of any kind and any texts has
      its one true row for each scenario in the two tables, as they parse, if and only
      if its directories are distinct and listed, no session died at an orphaning cut,
      and no text that should come back in a row has a line feed. */
  lemma {:induction false} FinishedTables(
    f: Format, suite: seq<Scenario>, xs: seq<Session>, dirs: seq<string>, told: map<string, Told>)
    requires ValidFormat(f) && Sessions(suite, xs, (s, o) => Genuine(f, s, o)) && Finished(suite, xs)
    requires Listing(Replay(suite, xs), dirs) && Account(f, suite, Replay(suite, xs), told)
    ensures var disk := Replay(suite, xs);
            && (TrueTables(f, suite, disk, dirs, told, SummaryTable(f, disk, dirs), SkippedTable(disk, dirs)) <==>
                Complete(suite, xs) && CleanTree(f, suite, disk, told))
            && (|DoneRows(f, suite, disk, dirs, told)| + |SkipRows(f, suite, disk, dirs, told)| == |suite| <==>
                Complete(suite, xs))
  {
    var ok, disk := (s, o) => Genuine(f, s, o), Replay(suite, xs);
    var e, k := Kept(dirs, SummaryLines(f, disk, dirs)), Kept(dirs, SkipLines(disk, dirs));
    PartsOfTree(f, disk, dirs);
    TablesRead(f, suite, disk, dirs, told);
    RowsMissing(suite, ok, xs);
    CleanParts(f, suite, disk, told, e, k);
    if Complete(suite, xs) {
      FinishedPartition(suite, ok, xs);
      RowsAreTold(f, suite, disk, dirs, told, e, k);
      NamesOfParts(f, suite, disk, told, e, k);
    }
  }

  lemma {:induction false} CleanParts(
    f: Format, suite: seq<Scenario>, disk: Disk, told: map<string, Told>, e: seq<string>, k: seq<string>)
    requires Account(f, suite, disk, told) && Elements(e) == Executed(disk) && Elements(k) == SkippedDirs(disk)
    ensures forall d :: d in e + k ==> d in told
    ensures CleanTree(f, suite, disk, told) <==> AllClean(f, disk, e, told) && AllClean(f, disk, k, told)
  {
    hide Clean, Explains;
    assert forall d :: d in Elements(e) <==> d in e;
    assert forall d :: d in Elements(k) <==> d in k;
  }

  lemma {:induction false} RowsAreTold(
    f: Format, suite: seq<Scenario>, disk: Disk, dirs: seq<string>, told: map<string, Told>, e: seq<string>, k: seq<string>)
    requires ValidFormat(f) && Account(f, suite, disk, told) && Listing(disk, dirs)
    requires Elements(e) == Executed(disk) && Elements(k) == SkippedDirs(disk)
    ensures forall d :: d in e + k ==> d in told && told[d].s in suite && Dir(told[d].s) == d
    ensures forall d :: d in e + k ==>
              var row := TrueRow(f, FilesOf(disk, d), told[d]); row != [] && row[0] == told[d].s.name
  {
    forall d | d in e + k
      ensures d in told && Explains(f, suite, d, FilesOf(disk, d), told[d])
      ensures TrueRow(f, FilesOf(disk, d), told[d]) != [] && TrueRow(f, FilesOf(disk, d), told[d])[0] == told[d].s.name
    {
      assert d in Elements(e) || d in Elements(k);
      hide TrueRow, WrittenRow, Clean, SummaryLine, SkipLine;
      if told[d].p.Measure? {
        MeasuredLine(f, FilesOf(disk, d), told[d]);
      } else {
        SkippedLine(f, FilesOf(disk, d), told[d]);
      }
    }
  }

  /** The rows' first cells are the names of the suite, each once. */
  predicate OneRowEach(suite: seq<Scenario>, rows: seq<seq<string>>) {
    && (forall i :: 0 <= i < |rows| ==> rows[i] != [])
    && NoRepeats(Names(rows))
    && (forall s :: s in suite ==> s.name in Names(rows))
    && (forall i :: 0 <= i < |rows| ==> InSuite(suite, Names(rows)[i]))
  }

  lemma {:induction false} FinishedPartition(suite: seq<Scenario>, ok: (Scenario, Outcome) -> bool, xs: seq<Session>)
    requires Sessions(suite, xs, ok) && Finished(suite, xs) && Complete(suite, xs)
    ensures Dirs(suite) == Executed(Replay(suite, xs)) + SkippedDirs(Replay(suite, xs))
    ensures Executed(Replay(suite, xs)) !! SkippedDirs(Replay(suite, xs))
  {
    var disk := Replay(suite, xs);
    ReplayKeepsTree(suite, ok, xs);
    FinishedTree(suite, ok, xs);
    FinishedCounts(suite, ok, xs);
    ReplayOrphans(suite, ok, xs);
    assert Dirs(suite) == ListedOf(suite) by {
      assert forall s :: s in suite ==> Listed(Dir(s));
    }
    forall d | d in ListedDirs(disk)
      ensures HasSummary(disk[d]) || HasSkip(disk[d])
    {
      assert d !in Orphans(disk);
      RecordedHasOneRow(suite, ok, d, disk[d]);
    }
  }

  // ----- A line feed in a skip reason -----

  lemma {:induction false} SplitRecord(name: string, reason: string)
    requires name == "s" && reason == "x\n"
    ensures TableText([[name, reason]]) == "s,\"x" + "\n" + ("\"\r" + "\n" + "")
  {
    assert !NeedsQuotes(name);
    assert Special(reason[1]);
    assert reason[1..] == "\n" && reason[1..][1..] == "";
    assert Doubled(reason[1..]) == "\n" + Doubled("");
    assert Doubled(reason) == "x" + Doubled(reason[1..]) == "x\n";
    assert Joined([name, reason]) == "s" + "," + Joined([name, reason][1..]);
    assert Joined([name, reason][1..]) == Escaped(reason) == "\"" + "x\n" + "\"";
    assert [[name, reason]][1..] == [];
  }

  lemma {:induction false} SplitFields(first: string, second: string)
    requires first == "s,\"x" && second == "\""
    ensures Fields(first) == ["s", "x"] && Fields(second) == [""]
  {
    assert first[1..] == ",\"x" && first[1..][1..] == "\"x" && first[1..][1..][1..] == "x";
    assert Scan("x", true, "", ["s"]) == Scan("", true, "x", ["s"]) by {
      assert "x"[1..] == "" && "" + ['x'] == "x";
    }
    assert Scan(first[1..][1..], false, "", ["s"]) == Scan("x", true, "", ["s"]);
    assert "" + ['s'] == "s" && [] + ["s"] == ["s"] && ["s"] + ["x"] == ["s", "x"];
    assert Scan(first[1..], false, "s", []) == Scan(first[1..][1..], false, "", ["s"]);
    assert Fields(first) == Scan(first[1..], false, "s", []);
    assert second[1..] == "" && [] + [""] == [""];
    assert Fields(second) == Scan("", true, "", []);
  }

  lemma {:induction false} ThreeLines(head: string, first: string, second: string)
    requires head != "" && first == "s,\"x" && second == "\""
    requires TrimCr(head + "\r") == head
    ensures NonemptyLines([head + "\r"] + ([first] + ([second + "\r"] + [""]))) == [head, first, second]
  {
    var c := [second + "\r"] + [""];
    var b := [first] + c;
    var a := [head + "\r"] + b;
    assert a[1..] == b && b[1..] == c && c[1..] == [""] && [""][1..] == [];
    assert TrimCr("") == "" && TrimCr(first) == first;
    assert (second + "\r")[..1] == second;
    assert TrimCr(second + "\r") == TrimCr(second) == second;
    assert NonemptyLines([""]) == [] && NonemptyLines(c) == [second] + [];
    assert NonemptyLines(b) == [first] + [second];
  }

  lemma {:induction false} FieldsOfThree(a: string, b: string, c: string)
    ensures FieldsOfAll([a, b, c]) == [Fields(a), Fields(b), Fields(c)]
  {
    hide Fields;
    assert [a, b, c][1..] == [b, c] && [b, c][1..] == [c] && [c][1..] == [];
    assert FieldsOfAll([c]) == [Fields(c)] && FieldsOfAll([b, c]) == [Fields(b)] + [Fields(c)];
  }

  lemma {:induction false} SplitPieces(header: seq<string>, first: string, second: string)
    requires NoLineFeed(header) && '\n' !in first && '\n' !in second
    ensures Pieces(TableText([header]) + (first + "\n" + (second + "\r" + "\n" + "")))
         == [Joined(header) + "\r"] + ([first] + ([second + "\r"] + [""]))
    ensures TrimCr(Joined(header) + "\r") == Joined(header)
  {
    var rest := first + "\n" + (second + "\r" + "\n" + "");
    assert TableText([header]) == RecordText(header) by {
      assert [header][1..] == [];
    }
    assert Pieces("") == [""];
    hide *;
    RecordLine(header, rest);
    PiecesOfLine(first, second + "\r" + "\n" + "");
    PiecesOfLine(second + "\r", "");
  }

  /** The reason a failed command leaves, with the line feed at its end, is read as
      two rows, the second of no scenario. */
  lemma {:induction false} SplitRow(name: string, reason: string)
    requires name == "s" && reason == "x\n"
    ensures ParsedTable(TableText([SkipHeader()]) + TableText([[name, reason]])) == [SkipHeader(), ["s", "x"], [""]]
  {
    var first, second := "s,\"x", "\"";
    assert NoLineFeed(SkipHeader());
    BlankLine(SkipHeader());
    RecordRoundTrip(SkipHeader());
    SplitRecord(name, reason);
    SplitFields(first, second);
    hide *;
    assert second + "\r" == "\"\r";
    SplitPieces(SkipHeader(), first, second);
    ThreeLines(Joined(SkipHeader()), first, second);
    FieldsOfThree(Joined(SkipHeader()), first, second);
    ParsedTableIs(TableText([SkipHeader()]) + TableText([[name, reason]]));
  }

  lemma {:induction false} ParsedTableIs(text: string)
    ensures ParsedTable(text) == FieldsOfAll(NonemptyLines(Pieces(text)))
  {}

  /** A scenario skipped, without any crash, for such a reason: its history is complete,
      and its one row reads as two. */
  lemma {:induction false} SkipReasonSplits(f: Format, s: Scenario, reason: string, xs: seq<Session>)
    requires s.name == "s" && s.kind.SingleStream? && reason == "x\n"
    requires xs == [Session([Outcomes(f, s, Skip(reason, false, ""))], 2, None)]
    ensures Sessions([s], xs, (s, o) => Genuine(f, s, o)) && Finished([s], xs) && Complete([s], xs)
    ensures Listing(Replay([s], xs), ["s"]) && SkippedDirs(Replay([s], xs)) == {"s"}
    ensures ParsedTable(SkippedTable(Replay([s], xs), ["s"])) == [SkipHeader(), ["s", "x"], [""]]
  {
    var p, ok := Skip(reason, false, ""), (s, o) => Genuine(f, s, o);
    var o := Outcomes(f, s, p);
    assert Tidy(s, p);
    assert Genuine(f, s, o);
    assert o.skipRow == TableText([[s.name, reason]]);
    hide *;
    LoneSkip(s, o, xs, ok);
    SplitRow(s.name, reason);
    OneSkipRow(Replay([s], xs), "s", o.skipRow);
  }

  lemma {:induction false} OneSkipRow(disk: Disk, d: string, row: string)
    requires SkipRowCsv in FilesOf(disk, d) && FilesOf(disk, d)[SkipRowCsv] == row
    ensures SkippedTable(disk, [d]) == TableText([SkipHeader()]) + row
  {
    assert SkipLine(FilesOf(disk, d)) == Some(row);
    assert SkipLines(disk, [d]) == [Some(row)];
    assert [Some(row)][..0] == [] && Gathered([Some(row)]) == "" + row == row;
  }

  lemma {:induction false} LoneSkip(s: Scenario, o: Outcome, xs: seq<Session>, ok: (Scenario, Outcome) -> bool)
    requires s.name == "s" && s.kind.SingleStream? && o.Skipped? && xs == [Session([o], 2, None)] && ok(s, o)
    ensures Sessions([s], xs, ok) && Finished([s], xs) && Complete([s], xs)
    ensures var disk := Replay([s], xs);
            && Listing(disk, ["s"]) && SkippedDirs(disk) == {"s"}
            && SkipRowCsv in FilesOf(disk, "s") && FilesOf(disk, "s")[SkipRowCsv] == o.skipRow
  {
    var start := Process(map[], 2, true);
    SkipAttempt(s, o, start);
    NoCutsWithoutStreams([s], xs);
    assert xs[..0] == [] && Replay([s], []) == map[];
    hide Attempt, Script;
    assert RunFirst(start, [s], [o], 0) == start;
    var q := RunFirst(start, [s], [o], 1);
    assert q == Attempt(start, s, o);
    assert RunSession(map[], [s], xs[0]) == q && Replay([s], xs) == q.disk;
  }

  lemma {:induction false} SkipAttempt(s: Scenario, o: Outcome, start: Process)
    requires s.name == "s" && s.kind.SingleStream? && o.Skipped? && start == Process(map[], 2, true)
    ensures Dir(s) == "s" && Listed(Dir(s))
    ensures var q := Attempt(start, s, o);
            && q.alive && q.disk == map["s" := map[SkipCsv := o.skip, SkipRowCsv := o.skipRow]]
  {
    assert Safe('s');
    assert Dir(s) == "s";
    OnlyHome(start, s, o);
    DoWritesIsPut(start, "s", Script(s, o));
    var ws := Script(s, o);
    assert ws == SkipWrites(o.skip, o.skipRow) && ws[..2] == ws;
    assert Put(map[], ws) == Put(map[], ws[..1])[SkipRowCsv := o.skipRow];
    assert ws[..1][..0] == [] && Put(map[], ws[..1]) == map[SkipCsv := o.skip];
  }
}
