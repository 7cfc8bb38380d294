/** The result directory object and the suite loop, statement by statement. The
    process may die at any file write: `budget` is the number of writes it lives
    for, and a write past it fails, which every caller propagates. */
module ResultDirectory {
  import opened Wrappers
  import opened Text
  import opened Csv
  import opened SummaryRow
  import opened ResultTree
  import opened Report
  import opened Sorting

  lemma {:induction false} DoWritesAppends(p: Process, d: string, a: seq<Write>, b: seq<Write>)
    ensures DoWrites(p, d, a + b) == DoWrites(DoWrites(p, d, a), d, b)
  {
    if b == [] {
      assert a + b == a;
    } else {
      DoWritesAppends(p, d, a, b[..|b| - 1]);
      assert (a + b)[..|a + b| - 1] == a + b[..|b| - 1];
    }
  }

  lemma {:induction false} DeadStaysDead(p: Process, d: string, ws: seq<Write>)
    requires !p.alive
    ensures DoWrites(p, d, ws) == p
  {
    if ws != [] {
      DeadStaysDead(p, d, ws[..|ws| - 1]);
    }
  }

  /** The writes after a failure have no effect. */
  lemma {:induction false} DeadPrefix(p: Process, d: string, done: seq<Write>, rest: seq<Write>)
    requires !DoWrites(p, d, done).alive
    ensures DoWrites(p, d, done + rest) == DoWrites(p, d, done)
  {
    DoWritesAppends(p, d, done, rest);
    DeadStaysDead(DoWrites(p, d, done), d, rest);
  }

  /** One write more, or none when the process is dead. */
  lemma {:induction false} DoOne(p: Process, d: string, w: Write)
    ensures DoWrites(p, d, [w]) == DoWrite(p, d, w)
  {
    assert [w][..0] == [] && DoWrites(p, d, []) == p;
  }

  lemma {:induction false} NothingKept(dirs: seq<string>, lines: seq<Option<string>>)
    requires |dirs| == |lines|
    ensures Gathered(lines[..0]) == "" && Kept(dirs[..0], lines[..0]) == []
  {}

  lemma {:induction false} KeptNext(dirs: seq<string>, lines: seq<Option<string>>, i: nat)
    requires i < |dirs| == |lines|
    ensures Gathered(lines[..i + 1]) == Gathered(lines[..i]) + lines[i].GetOr("")
    ensures |Kept(dirs[..i + 1], lines[..i + 1])| == |Kept(dirs[..i], lines[..i])| + if lines[i].Some? then 1 else 0
  {
    assert dirs[..i + 1][..i] == dirs[..i] && lines[..i + 1][..i] == lines[..i];
  }

  /** The stream artifacts, written by the multi-stream runner before anything else. */
  function StreamPart(s: Scenario, p: Plan): seq<Write> {
    if s.kind.MultiStream? && (p.Measure? || p.afterStreams) then StreamWrites(p.streams) else []
  }

  lemma {:induction false} ScriptParts(f: Format, s: Scenario, p: Plan)
    ensures var all, streamed := Script(s, Outcomes(f, s, p)), StreamPart(s, p);
            && |streamed| <= |all| && all == streamed + all[|streamed|..]
            && match p
               case Measure(r, runs, curve, _, details) =>
                 all == streamed + RecordWrites(Rendered(f, r, runs, curve))
                        + if s.kind.HotReload? then [Write(HotreloadCsv, details)] else []
               case Skip(reason, _, _) =>
                 all == streamed + SkipWrites(KeyValueText(SkipPairs(s.name, reason)), TableText([[s.name, reason]]))
  {
    var all, streamed := Script(s, Outcomes(f, s, p)), StreamPart(s, p);
    assert all[..|streamed|] == streamed;
  }

  class ResultDir {
    const f: Format
    var disk: Disk
    var budget: nat
    var alive: bool
    /** Names of the scenarios measured by this process, for the progress view. */
    var outcomes: seq<string>

    /** Reopen a tree, empty or left behind by an earlier process. */
    constructor (f: Format, disk: Disk, budget: nat)
      ensures this.f == f && View() == Process(disk, budget, true) && outcomes == []
    {
      this.f := f;
      this.disk, this.budget, alive := disk, budget, true;
      outcomes := [];
    }

    function View(): Process
      reads this
    {
      Process(disk, budget, alive)
    }

    /** `fs::write`, atomic, or the end of the process. */
    method WriteFile(d: string, file: File, text: string) returns (ok: bool)
      modifies this`disk, this`budget, this`alive
      ensures View() == DoWrite(old(View()), d, Write(file, text)) && ok == alive
    {
      if alive && budget == 0 {
        alive := false;
      }
      if alive {
        disk := disk[d := FilesOf(disk, d)[file := text]];
        budget := budget - 1;
      }
      ok := alive;
    }

    /** Write a list of files in order, stopping at the first failure. */
    method WriteFiles(d: string, ws: seq<Write>) returns (ok: bool)
      modifies this`disk, this`budget, this`alive
      ensures View() == DoWrites(old(View()), d, ws) && ok == alive
    {
      ok := alive;
      for i := 0 to |ws|
        invariant View() == DoWrites(old(View()), d, ws[..i]) && ok == alive
      {
        if !ok {
          DeadPrefix(old(View()), d, ws[..i], ws[i..]);
          assert ws[..i] + ws[i..] == ws;
          return;
        }
        ok := WriteFile(d, ws[i].file, ws[i].text);
        assert ws[..i + 1][..i] == ws[..i] && ws[i] == Write(ws[i].file, ws[i].text);
      }
      assert ws[..|ws|] == ws;
    }

    function ScenarioRecorded(s: Scenario): bool
      reads this
    {
      Recorded(FilesOf(disk, Dir(s)))
    }

    /** The per-run artifacts of a measured scenario, then its exact summary row. */
    method RecordScenario(s: Scenario, r: Record, runs: string, curve: string) returns (ok: bool)
      modifies this
      ensures View() == DoWrites(old(View()), Dir(s), RecordWrites(Rendered(f, r, runs, curve))) && ok == alive
      ensures outcomes == if ok then old(outcomes) + [s.name] else old(outcomes)
    {
      ghost var a, start := Rendered(f, r, runs, curve), View();
      hide DoWrites, LiveRow, ConfigText, SummaryText, HeaderNames;
      var front := [Write(ConfigCsv, ConfigText(f, r)), Write(SummaryCsv, SummaryText(f, r)), Write(RunsCsv, runs)];
      var middle := if r.sweep.Some? then [Write(SaturationCsv, curve)] else [];
      ghost var last := [Write(SummaryRowCsv, a.row)];
      assert RecordWrites(a) == front + middle + last == front + (middle + last);
      ok := WriteFiles(Dir(s), front);
      if !ok {
        DeadPrefix(start, Dir(s), front, middle + last);
        return;
      }
      DoWritesAppends(start, Dir(s), front, middle);
      ok := WriteFiles(Dir(s), middle);
      if !ok {
        DeadPrefix(start, Dir(s), front + middle, last);
        return;
      }
      var csv := new Table(HeaderNames(f));
      csv.Row(LiveRow(f, r));
      var text := csv.RenderBody();
      assert [] + [LiveRow(f, r)] == [LiveRow(f, r)];
      DoWritesAppends(start, Dir(s), front + middle, last);
      DoOne(View(), Dir(s), last[0]);
      ok := WriteFile(Dir(s), SummaryRowCsv, text);
      if ok {
        outcomes := outcomes + [s.name];
      }
    }

    /** An explicit skip: the reason, then its exact row. */
    method RecordSkipped(s: Scenario, reason: string) returns (ok: bool)
      modifies this`disk, this`budget, this`alive
      ensures View() == DoWrites(old(View()), Dir(s), SkipWrites(KeyValueText(SkipPairs(s.name, reason)), TableText([[s.name, reason]])))
      ensures ok == alive
    {
      var detail := new Table.KeyValue();
      detail.Kv("scenario", s.name);
      detail.Kv("reason", reason);
      var text := detail.Render();
      assert [] + [["scenario", s.name]] + [["reason", reason]] == SkipPairs(s.name, reason);
      var csv := new Table(SkipHeader());
      csv.Row([s.name, reason]);
      var row := csv.RenderBody();
      assert [] + [[s.name, reason]] == [[s.name, reason]];
      ok := WriteFiles(Dir(s), SkipWrites(text, row));
    }

    /** Run one scenario to the outcome the environment has for it. */
    method RunScenario(s: Scenario, p: Plan) returns (ok: bool)
      modifies this
      ensures View() == DoWrites(old(View()), Dir(s), Script(s, Outcomes(f, s, p))) && ok == alive
    {
      ghost var start, all := View(), Script(s, Outcomes(f, s, p));
      ScriptParts(f, s, p);
      hide DoWrites, RecordWrites, SkipWrites, Script, Outcomes, Rendered, StreamWrites;
      var streamed := StreamPart(s, p);
      ok := WriteFiles(Dir(s), streamed);
      if !ok {
        DeadPrefix(start, Dir(s), streamed, all[|streamed|..]);
        return;
      }
      match p {
        case Measure(r, runs, curve, _, details) =>
          ghost var body := RecordWrites(Rendered(f, r, runs, curve));
          var after := if s.kind.HotReload? then [Write(HotreloadCsv, details)] else [];
          ok := RecordScenario(s, r, runs, curve);
          DoWritesAppends(start, Dir(s), streamed, body);
          if !ok {
            DeadPrefix(start, Dir(s), streamed + body, after);
            return;
          }
          DoWritesAppends(start, Dir(s), streamed + body, after);
          ok := WriteFiles(Dir(s), after);
        case Skip(reason, _, _) =>
          ghost var body := SkipWrites(KeyValueText(SkipPairs(s.name, reason)), TableText([[s.name, reason]]));
          ok := RecordSkipped(s, reason);
          DoWritesAppends(start, Dir(s), streamed, body);
      }
    }

    /** Run every scenario not yet recorded, in order. */
    method RunConfig(suite: seq<Scenario>, plans: seq<Plan>) returns (ok: bool)
      requires |suite| == |plans|
      modifies this
      ensures View() == RunFirst(old(View()), suite, AllOutcomes(f, suite, plans), |suite|) && ok == alive
    {
      ok := alive;
      for i := 0 to |suite|
        invariant View() == RunFirst(old(View()), suite, AllOutcomes(f, suite, plans), i) && ok == alive
      {
        if ok && !ScenarioRecorded(suite[i]) {
          ok := RunScenario(suite[i], plans[i]);
        }
      }
    }

    /** The scenario directories in path order, from any listing of them. */
    method ScenarioDirs(entries: seq<string>) returns (dirs: seq<string>)
      requires Listing(disk, entries)
      ensures Listing(disk, dirs) && Ordered(dirs, AtMost) && dirs == Sort(entries, AtMost)
    {
      dirs := Sort(entries, AtMost);
      SortedListing(disk, entries);
    }

    /** The exact row of a directory, else the one reconstructed, else nothing. */
    method ReadSummaryLine(files: Files) returns (line: Option<string>)
      ensures line == SummaryLine(f, files)
    {
      if SummaryRowCsv in files {
        return Some(files[SummaryRowCsv]);
      }
      if SummaryCsv !in files {
        return None;
      }
      var summary := ReadKeyValueCsv(files[SummaryCsv]);
      var config: map<string, string> := map[];
      if ConfigCsv in files {
        config := ReadKeyValueCsv(files[ConfigCsv]);
      }
      var one := new Table(HeaderNames(f));
      var row := ReconstructedRow(f, config, summary);
      one.Row(row);
      var body := one.RenderBody();
      assert [] + [row] == [row];
      line := Some(body);
    }

    method ReadSkipLine(files: Files) returns (line: Option<string>)
      ensures line == SkipLine(files)
    {
      if SkipRowCsv in files {
        return Some(files[SkipRowCsv]);
      }
      if SkipCsv !in files {
        return None;
      }
      var m := ReadKeyValueCsv(files[SkipCsv]);
      var one := new Table(SkipHeader());
      var row := [Lookup(m, "scenario"), Lookup(m, "reason")];
      one.Row(row);
      var body := one.RenderBody();
      assert [] + [row] == [row];
      line := Some(body);
    }

    /** The consolidated summary and its row count. */
    method RebuildSummary(dirs: seq<string>) returns (text: string, count: nat)
      requires forall d :: d in dirs ==> d in disk && Listed(d)
      ensures text == SummaryTable(f, disk, dirs) && count == |Kept(dirs, SummaryLines(f, disk, dirs))|
    {
      ghost var lines := SummaryLines(f, disk, dirs);
      var csv := new Table(HeaderNames(f));
      var header := csv.Render();
      assert [HeaderNames(f)] + [] == [HeaderNames(f)];
      text, count := header, 0;
      NothingKept(dirs, lines);
      hide HeaderNames, TableText, Gathered, Kept, SummaryLine;
      for i := 0 to |dirs|
        invariant text == header + Gathered(lines[..i]) && count == |Kept(dirs[..i], lines[..i])|
      {
        KeptNext(dirs, lines, i);
        var line := ReadSummaryLine(disk[dirs[i]]);
        assert lines[i] == line;
        if line.Some? {
          text, count := text + line.value, count + 1;
        }
      }
      assert dirs[..|dirs|] == dirs && lines[..|dirs|] == lines;
    }

    /** The consolidated skip list and its row count. */
    method RebuildSkipped(dirs: seq<string>) returns (text: string, count: nat)
      requires forall d :: d in dirs ==> d in disk && Listed(d)
      ensures text == SkippedTable(disk, dirs) && count == |Kept(dirs, SkipLines(disk, dirs))|
    {
      ghost var lines := SkipLines(disk, dirs);
      var csv := new Table(SkipHeader());
      var header := csv.Render();
      assert [SkipHeader()] + [] == [SkipHeader()];
      text, count := header, 0;
      NothingKept(dirs, lines);
      hide SkipHeader, TableText, Gathered, Kept, SkipLine;
      for i := 0 to |dirs|
        invariant text == header + Gathered(lines[..i]) && count == |Kept(dirs[..i], lines[..i])|
      {
        KeptNext(dirs, lines, i);
        var line := ReadSkipLine(disk[dirs[i]]);
        assert lines[i] == line;
        if line.Some? {
          text, count := text + line.value, count + 1;
        }
      }
      assert dirs[..|dirs|] == dirs && lines[..|dirs|] == lines;
    }

    /** The entries of `scenarios/`, in whatever order they come. */
    method ReadDir() returns (entries: seq<string>)
      ensures Listing(disk, entries)
    {
      entries := [];
      var rest := ListedDirs(disk);
      while rest != {}
        invariant NoRepeats(entries) && rest !! Elements(entries) && rest + Elements(entries) == ListedDirs(disk)
        decreases rest
      {
        var d :| d in rest;
        rest := rest - {d};
        assert Elements(entries + [d]) == Elements(entries) + {d};
        assert d !in entries;
        entries := entries + [d];
      }
      assert forall d :: d in entries <==> d in Elements(entries);
    }

    /** Rebuild both tables over a listing. The summary is written to the root before
        the skips are read. */
    method Finish(entries: seq<string>)
      returns (ok: bool, summary: string, skipped: string, executed: nat, skippedCount: nat)
      requires Listing(disk, entries)
      modifies this`disk, this`budget, this`alive
      ensures View() == DoWrite(old(View()), ROOT, Write(SummaryCsv, summary)) && ok == alive
      ensures var dirs := Sort(entries, AtMost);
              && Listing(old(disk), dirs)
              && summary == SummaryTable(f, old(disk), dirs)
              && executed == |Kept(dirs, SummaryLines(f, old(disk), dirs))|
              && (ok ==> skipped == SkippedTable(old(disk), dirs)
                         && skippedCount == |Kept(dirs, SkipLines(old(disk), dirs))|)
    {
      var dirs := ScenarioDirs(entries);
      summary, executed := RebuildSummary(dirs);
      skipped, skippedCount := "", 0;
      ok := WriteFile(ROOT, SummaryCsv, summary);
      if !ok {
        return;
      }
      RootIsNotRead(old(disk), disk, dirs);
      skipped, skippedCount := RebuildSkipped(dirs);
    }
  }

  lemma {:induction false} RootIsNotRead(before: Disk, after: Disk, dirs: seq<string>)
    requires forall d :: d in dirs ==> d in before && d in after && before[d] == after[d]
    ensures SkipLines(before, dirs) == SkipLines(after, dirs)
  {}

  /** Reopen the tree some sessions left, run the suite to the end and rebuild the
      tables. The tree is again one that sessions leave. When the process lives, the
      counts add up to the suite exactly when the whole history was complete, and the
      two tables, as they parse, have each scenario's true row exactly when moreover no
      text that should come back in a row has a line feed. */
  method ResumeToEnd(f: Format, suite: seq<Scenario>, disk: Disk, plans: seq<Plan>, budget: nat, ghost xs: seq<Session>)
    returns (dir: ResultDir, ok: bool, executed: nat, skippedCount: nat, summary: string, skipped: string,
             ghost x: Session, ghost dirs: seq<string>, ghost told: map<string, Told>)
    requires ValidFormat(f) && |suite| == |plans| && forall i :: 0 <= i < |suite| ==> Tidy(suite[i], plans[i])
    requires Sessions(suite, xs, (s, o) => Genuine(f, s, o)) && disk == Replay(suite, xs)
    ensures x == Session(AllOutcomes(f, suite, plans), budget, if ok then Some(summary) else None)
    ensures Sessions(suite, xs + [x], (s, o) => Genuine(f, s, o)) && dir.disk == Replay(suite, xs + [x])
    ensures ok ==> Finished(suite, xs + [x]) && Listing(dir.disk, dirs) && Account(f, suite, dir.disk, told)
    ensures ok ==> (executed + skippedCount == |suite| <==> Complete(suite, xs + [x]))
    ensures ok ==> (TrueTables(f, suite, dir.disk, dirs, told, summary, skipped) <==>
                    Complete(suite, xs + [x]) && CleanTree(f, suite, dir.disk, told))
  {
    summary, skipped, executed, skippedCount, dirs, told := "", "", 0, 0, [], map[];
    dir := new ResultDir(f, disk, budget);
    ghost var outcomes := AllOutcomes(f, suite, plans);
    x := Session(outcomes, budget, None);
    AdmissibleNext(f, suite, plans, xs, x);
    ReplayAppends(suite, xs, x);
    ok := dir.RunConfig(suite, plans);
    if !ok {
      return;
    }
    ghost var after := dir.disk;
    var entries := dir.ReadDir();
    ok, summary, skipped, executed, skippedCount := dir.Finish(entries);
    if !ok {
      return;
    }
    hide *;
    x := Session(outcomes, budget, Some(summary));
    AdmissibleNext(f, suite, plans, xs, x);
    ReplayAppends(suite, xs, x);
    dirs := Sort(entries, AtMost);
    told := FinishedRun(f, suite, xs, x, after, dirs);
  }

  lemma {:induction false} FinishedRun(
    f: Format, suite: seq<Scenario>, xs: seq<Session>, x: Session, after: Disk, dirs: seq<string>)
    returns (told: map<string, Told>)
    requires ValidFormat(f) && Sessions(suite, xs + [x], (s, o) => Genuine(f, s, o)) && Finished(suite, xs + [x])
    requires Replay(suite, xs + [x]) == Rebuilt(after, x.rebuilt) && Listing(after, dirs)
    ensures var disk := Replay(suite, xs + [x]);
            && Listing(disk, dirs) && Account(f, suite, disk, told)
            && (TrueTables(f, suite, disk, dirs, told, SummaryTable(f, after, dirs), SkippedTable(after, dirs)) <==>
                Complete(suite, xs + [x]) && CleanTree(f, suite, disk, told))
    ensures |Kept(dirs, SummaryLines(f, after, dirs))| + |Kept(dirs, SkipLines(after, dirs))| == |suite|
            <==> Complete(suite, xs + [x])
  {
    var disk := Replay(suite, xs + [x]);
    TablesIgnoreRoot(f, after, disk, dirs);
    ReplayKeepsTree(suite, (s, o) => Genuine(f, s, o), xs + [x]);
    told := TreeHasAccount(f, suite, disk);
    FinishedTables(f, suite, xs + [x], dirs, told);
    hide TrueTables, Account, CleanTree, Complete, Kept, SummaryLines, SkipLines;
    RowCounts(f, suite, disk, dirs, told);
  }

  lemma {:induction false} RowCounts(
    f: Format, suite: seq<Scenario>, disk: Disk, dirs: seq<string>, told: map<string, Told>)
    requires Account(f, suite, disk, told) && Listing(disk, dirs)
    ensures |DoneRows(f, suite, disk, dirs, told)| == |Kept(dirs, SummaryLines(f, disk, dirs))|
    ensures |SkipRows(f, suite, disk, dirs, told)| == |Kept(dirs, SkipLines(disk, dirs))|
  {}

  lemma {:induction false} AdmissibleNext(
    f: Format, suite: seq<Scenario>, plans: seq<Plan>, xs: seq<Session>, x: Session)
    requires |suite| == |plans| && forall i :: 0 <= i < |suite| ==> Tidy(suite[i], plans[i])
    requires Sessions(suite, xs, (s, o) => Genuine(f, s, o)) && x.outcomes == AllOutcomes(f, suite, plans)
    ensures Sessions(suite, xs + [x], (s, o) => Genuine(f, s, o))
  {
    assert forall i :: 0 <= i < |suite| ==> Genuine(f, suite[i], x.outcomes[i]);
    assert Admissible(suite, x, (s, o) => Genuine(f, s, o));
  }

  lemma {:induction false} ReplayAppends(suite: seq<Scenario>, xs: seq<Session>, x: Session)
    requires |x.outcomes| == |suite| && forall i :: 0 <= i < |xs| ==> |xs[i].outcomes| == |suite|
    ensures Replay(suite, xs + [x]) == Rebuilt(RunSession(Replay(suite, xs), suite, x).disk, x.rebuilt)
    ensures Finished(suite, xs + [x]) <==> RunSession(Replay(suite, xs), suite, x).alive
  {
    assert (xs + [x])[..|xs|] == xs;
  }

  /** Rewriting the root changes neither the listing nor the tables. */
  lemma {:induction false} TablesIgnoreRoot(f: Format, before: Disk, after: Disk, dirs: seq<string>)
    requires Listing(before, dirs)
    requires forall d :: Listed(d) ==> (d in after <==> d in before) && FilesOf(after, d) == FilesOf(before, d)
    ensures Listing(after, dirs)
    ensures SummaryLines(f, after, dirs) == SummaryLines(f, before, dirs)
    ensures SkipLines(after, dirs) == SkipLines(before, dirs)
  {}

  function AllOutcomes(f: Format, suite: seq<Scenario>, plans: seq<Plan>): (os: seq<Outcome>)
    requires |suite| == |plans|
    ensures |os| == |suite|
  {
    seq(|suite|, i requires 0 <= i < |suite| => Outcomes(f, suite[i], plans[i]))
  }

  lemma {:induction false} PathOrderIsTotal()
    ensures TotalOrder(AtMost)
  {
    forall a, b
      ensures AtMost(a, b) || AtMost(b, a)
      ensures AtMost(a, b) && AtMost(b, a) ==> a == b
    {
      LessTotal(a, b);
      if Less(a, b) && Less(b, a) {
        LessTransitive(a, b, a);
        LessIrreflexive(a);
      }
    }
    forall a, b, c | AtMost(a, b) && AtMost(b, c)
      ensures AtMost(a, c)
    {
      if Less(a, b) && Less(b, c) {
        LessTransitive(a, b, c);
      }
    }
  }

  lemma {:induction false} NoRepeatsCount(s: seq<string>)
    ensures NoRepeats(s) <==> forall x :: multiset(s)[x] <= 1
  {
    if s != [] {
      var init, last := s[..|s| - 1], s[|s| - 1];
      NoRepeatsCount(init);
      assert s == init + [last];
      assert multiset(s) == multiset(init) + multiset{last};
      if last in init {
        assert last in multiset(init);
        assert multiset(s)[last] >= 2;
        var i :| 0 <= i < |init| && init[i] == last;
        assert s[i] == s[|s| - 1];
      } else {
        assert multiset(init)[last] == 0;
        assert forall x :: multiset(s)[x] == multiset(init)[x] + if x == last then 1 else 0;
        assert NoRepeats(s) <==> NoRepeats(init);
      }
    }
  }

  lemma {:induction false} SortedListing(disk: Disk, entries: seq<string>)
    requires Listing(disk, entries)
    ensures Listing(disk, Sort(entries, AtMost)) && Ordered(Sort(entries, AtMost), AtMost)
  {
    PathOrderIsTotal();
    SortSorts(entries, AtMost);
    NoRepeatsCount(entries);
    NoRepeatsCount(Sort(entries, AtMost));
    forall d
      ensures d in Sort(entries, AtMost) <==> d in entries
    {
      assert d in multiset(Sort(entries, AtMost)) <==> d in multiset(entries);
    }
  }

  /** The tables do not depend on the order in which directories are listed. */
  lemma {:induction false} TablesIgnoreListingOrder(disk: Disk, a: seq<string>, b: seq<string>)
    requires Listing(disk, a) && Listing(disk, b)
    ensures Sort(a, AtMost) == Sort(b, AtMost)
  {
    PathOrderIsTotal();
    NoRepeatsCount(a);
    NoRepeatsCount(b);
    forall x
      ensures multiset(a)[x] == multiset(b)[x]
    {
      assert x in multiset(a) <==> x in a;
      assert x in multiset(b) <==> x in b;
    }
    SortOfPermutation(a, b, AtMost);
  }

  ghost function Tried(stamp: string, n: nat): set<string> {
    set k: nat | k < n :: Candidate(stamp, k)
  }

  lemma {:induction false} TriedCount(stamp: string, n: nat)
    ensures |Tried(stamp, n)| == n
  {
    if n > 0 {
      TriedCount(stamp, n - 1);
      var last := Candidate(stamp, n - 1);
      assert Tried(stamp, n) == Tried(stamp, n - 1) + {last};
      if last in Tried(stamp, n - 1) {
        var k: nat :| k < n - 1 && Candidate(stamp, k) == last;
        CandidatesDiffer(stamp, k, n - 1);
      }
    } else {
      assert Tried(stamp, 0) == {};
    }
  }

  /** `stamp`, else `stamp-1`, `stamp-2`, ...: the first path not already taken. */
  method FreshRoot(stamp: string, existing: set<string>) returns (root: string, ghost tries: nat)
    ensures root !in existing && root == Candidate(stamp, tries)
    ensures forall k: nat :: k < tries ==> Candidate(stamp, k) in existing
    ensures root == if tries == 0 then stamp else stamp + ("-" + Decimal(tries))
  {
    root := stamp;
    var suffix := 1;
    while root in existing
      invariant suffix >= 1 && root == Candidate(stamp, suffix - 1)
      invariant forall k: nat :: k < suffix - 1 ==> Candidate(stamp, k) in existing
      decreases |existing| + 1 - suffix
    {
      TriedCount(stamp, suffix);
      SubsetSize(Tried(stamp, suffix), existing);
      root := stamp + ("-" + Decimal(suffix));
      suffix := suffix + 1;
    }
    tries := suffix - 1;
  }

  function Candidate(stamp: string, k: nat): string {
    if k == 0 then stamp else stamp + ("-" + Decimal(k))
  }

  lemma {:induction false} CandidatesDiffer(stamp: string, j: nat, k: nat)
    requires j < k
    ensures Candidate(stamp, j) != Candidate(stamp, k)
  {
    var a, b := Candidate(stamp, j), Candidate(stamp, k);
    if j > 0 && a == b {
      assert a[|stamp| + 1..] == Decimal(j) && b[|stamp| + 1..] == Decimal(k);
      DecimalInjective(j, k);
    }
  }
}
