/** The per-tick board of the roll-up: the processes split the samples among them,
    and the board groups, for each time, the readings of all samples taken then. */
module SystemBoard {
  import opened Wrappers
  import opened SystemMetrics

  // ----- The board as a map -----

  predicate Increasing(b: Board) {
    forall i, j :: 0 <= i < j < |b| ==> b[i].at < b[j].at
  }

  function Lookup(b: Board, t: nat): Option<Tick> {
    if b == [] then None else if b[0].at == t then Some(b[0]) else Lookup(b[1..], t)
  }

  lemma {:induction false} LookupMissing(b: Board, t: nat)
    requires forall i :: 0 <= i < |b| ==> b[i].at > t
    ensures Lookup(b, t) == None
  {
    if b != [] {
      LookupMissing(b[1..], t);
    }
  }

  lemma {:induction false} UpsertKeepsOrder(b: Board, r: Reading, low: int)
    requires Increasing(b) && low < r.at && forall i :: 0 <= i < |b| ==> low < b[i].at
    ensures Increasing(Upsert(b, r)) && forall i :: 0 <= i < |Upsert(b, r)| ==> low < Upsert(b, r)[i].at
  {
    if b != [] && r.at > b[0].at {
      UpsertKeepsOrder(b[1..], r, b[0].at);
    }
  }

  /** Posting a reading is the map update it stands for: its own tick is opened or
      added to, and every other tick keeps its entry. */
  lemma {:induction false} UpsertUpdates(b: Board, r: Reading, t: nat)
    requires Increasing(b)
    ensures Lookup(Upsert(b, r), t) ==
            if t != r.at then Lookup(b, t)
            else match Lookup(b, t) case Some(tick) => Some(tick.Add(r)) case None => Some(Open(r))
  {
    if b == [] || r.at < b[0].at {
      assert Upsert(b, r)[1..] == b;
      if t == r.at {
        LookupMissing(b, t);
      }
    } else if r.at == b[0].at {
      assert Upsert(b, r)[1..] == b[1..];
    } else {
      UpsertUpdates(b[1..], r, t);
      assert Upsert(b, r)[1..] == Upsert(b[1..], r);
    }
  }

  // ----- The board as a grouping -----

  function ReadingsOf(series: seq<Sample>, n: nat, tck: real): (rs: seq<Reading>)
    requires n <= |series| && tck > 0.0
    ensures |rs| == n
  {
    seq(n, i requires 0 <= i < n => ReadingAt(series, i, tck))
  }

  function ProcessReadings(samples: seq<Sample>, pid: nat, tck: real): seq<Reading>
    requires tck > 0.0
  {
    var s := Series(samples, pid);
    ReadingsOf(s, |s|, tck)
  }

  /** All readings, process by process. */
  function AllReadings(samples: seq<Sample>, pids: seq<nat>, tck: real): seq<Reading>
    requires tck > 0.0
  {
    if pids == [] then []
    else AllReadings(samples, pids[..|pids| - 1], tck) + ProcessReadings(samples, pids[|pids| - 1], tck)
  }

  function PostAll(b: Board, rs: seq<Reading>): Board {
    if rs == [] then b else Upsert(PostAll(b, rs[..|rs| - 1]), rs[|rs| - 1])
  }

  lemma {:induction false} PostAllConcat(b: Board, xs: seq<Reading>, ys: seq<Reading>)
    ensures PostAll(b, xs + ys) == PostAll(PostAll(b, xs), ys)
  {
    if ys == [] {
      assert xs + ys == xs;
    } else {
      assert (xs + ys)[..|xs + ys| - 1] == xs + ys[..|ys| - 1];
      PostAllConcat(b, xs, ys[..|ys| - 1]);
    }
  }

  lemma {:induction false} SeriesPosted(b: Board, series: seq<Sample>, n: nat, tck: real)
    requires n <= |series| && tck > 0.0
    ensures AddSeries(b, series, n, tck) == PostAll(b, ReadingsOf(series, n, tck))
  {
    hide ReadingAt, Upsert;
    if n > 0 {
      SeriesPosted(b, series, n - 1, tck);
      assert ReadingsOf(series, n, tck)[..n - 1] == ReadingsOf(series, n - 1, tck);
    }
  }

  lemma {:induction false} BoardIsPosted(samples: seq<Sample>, pids: seq<nat>, tck: real)
    requires tck > 0.0
    ensures RollupOf(samples, pids, tck).board == PostAll([], AllReadings(samples, pids, tck))
  {
    if pids != [] {
      hide AddSeries, ReadingsOf, PostAll, Series;
      var front, s := pids[..|pids| - 1], Series(samples, pids[|pids| - 1]);
      BoardIsPosted(samples, front, tck);
      SeriesPosted(RollupOf(samples, front, tck).board, s, |s|, tck);
      PostAllConcat([], AllReadings(samples, front, tck), ReadingsOf(s, |s|, tck));
    } else {
      assert PostAll([], []) == [];
    }
  }

  /** The readings taken at one time, in order. */
  function TakenAt(rs: seq<Reading>, t: nat): seq<Reading> {
    if rs == [] then []
    else TakenAt(rs[..|rs| - 1], t) + if rs[|rs| - 1].at == t then [rs[|rs| - 1]] else []
  }

  /** What some readings add up to. */
  datatype Load = Load(cpu: real, hot: real, rss: nat, pss: nat) {
    function Plus(r: Reading): Load {
      Load(cpu + r.cpu, Max(hot, r.hot), rss + r.rss, pss + r.pss)
    }
  }

  function LoadOf(g: seq<Reading>): Load {
    if g == [] then Load(0.0, 0.0, 0, 0) else LoadOf(g[..|g| - 1]).Plus(g[|g| - 1])
  }

  /** What the entry of a tick should be, from the readings taken at it. */
  function GroupOf(g: seq<Reading>, t: nat): Option<Tick> {
    if g == [] then None
    else
      var l := LoadOf(g);
      Some(Tick(t, l.cpu, l.hot, l.rss, l.pss, g[0].host))
  }

  lemma {:induction false} GroupGrows(g: seq<Reading>, r: Reading)
    ensures GroupOf(g + [r], r.at) ==
            match GroupOf(g, r.at) case Some(tick) => Some(tick.Add(r)) case None => Some(Open(r))
  {
    var h := g + [r];
    assert h[..|h| - 1] == g && h[|h| - 1] == r;
    assert LoadOf(h) == LoadOf(g).Plus(r);
    if g == [] {
      assert GroupOf(h, r.at) == Some(Open(r));
    } else {
      assert h[0] == g[0];
    }
  }

  lemma {:induction false} PostedGroups(rs: seq<Reading>, t: nat)
    ensures Increasing(PostAll([], rs)) && Lookup(PostAll([], rs), t) == GroupOf(TakenAt(rs, t), t)
  {
    if rs != [] {
      hide Upsert, Increasing, GroupOf, Open;
      var front, r := rs[..|rs| - 1], rs[|rs| - 1];
      PostedGroups(front, t);
      UpsertUpdates(PostAll([], front), r, t);
      StillIncreasing(PostAll([], front), r);
      GroupGrows(TakenAt(front, t), r);
      assert t != r.at ==> TakenAt(rs, t) == TakenAt(front, t);
    } else {
      assert PostAll([], rs) == [] && TakenAt(rs, t) == [];
    }
  }

  lemma {:induction false} StillIncreasing(b: Board, r: Reading)
    requires Increasing(b)
    ensures Increasing(Upsert(b, r))
  {
    UpsertKeepsOrder(b, r, -1);
  }

  /** Any pids: the board groups their readings, process by process. */
  lemma {:induction false} BoardOfReadings(samples: seq<Sample>, pids: seq<nat>, tck: real, t: nat)
    requires tck > 0.0
    ensures Increasing(RollupOf(samples, pids, tck).board)
    ensures Lookup(RollupOf(samples, pids, tck).board, t) == GroupOf(TakenAt(AllReadings(samples, pids, tck), t), t)
  {
    BoardIsPosted(samples, pids, tck);
    PostedGroups(AllReadings(samples, pids, tck), t);
  }

  lemma {:induction false} UpsertAfterAll(b: Board, r: Reading)
    requires forall i :: 0 <= i < |b| ==> b[i].at < r.at
    ensures Upsert(b, r) == b + [Open(r)]
  {
    if b != [] {
      UpsertAfterAll(b[1..], r);
      assert b == [b[0]] + b[1..];
    }
  }

  lemma {:induction false} UpsertAt(b: Board, r: Reading, k: nat)
    requires Increasing(b) && k < |b| && b[k].at == r.at
    ensures Upsert(b, r) == b[k := b[k].Add(r)]
  {
    if k > 0 {
      UpsertAt(b[1..], r, k - 1);
    }
  }

  // ----- The processes as a partition of the samples -----

  predicate Sampled(samples: seq<Sample>, pid: nat) {
    exists i :: 0 <= i < |samples| && samples[i].pid == pid
  }

  /** The series of some processes, one after another. */
  function AllSeries(samples: seq<Sample>, pids: seq<nat>): seq<Sample> {
    if pids == [] then [] else AllSeries(samples, pids[..|pids| - 1]) + Series(samples, pids[|pids| - 1])
  }

  lemma {:induction false} SampledSnoc(samples: seq<Sample>, x: Sample, pid: nat)
    ensures Sampled(samples + [x], pid) <==> Sampled(samples, pid) || x.pid == pid
  {
    var all := samples + [x];
    assert all[|samples|] == x;
    assert forall i :: 0 <= i < |samples| ==> all[i] == samples[i];
  }

  /** The processes are those sampled, each listed once. */
  lemma {:induction false} PidsAreSampled(samples: seq<Sample>)
    ensures NoRepeats(PidsOf(samples))
    ensures forall pid :: pid in PidsOf(samples) <==> Sampled(samples, pid)
  {
    if samples != [] {
      var front, x := samples[..|samples| - 1], samples[|samples| - 1];
      PidsAreSampled(front);
      assert samples == front + [x];
      forall pid: nat
        ensures Sampled(samples, pid) <==> Sampled(front, pid) || x.pid == pid
      {
        SampledSnoc(front, x, pid);
      }
    }
  }

  lemma {:induction false} UnsampledSeries(samples: seq<Sample>, pid: nat)
    requires !Sampled(samples, pid)
    ensures Series(samples, pid) == []
  {
    if samples != [] {
      var front, x := samples[..|samples| - 1], samples[|samples| - 1];
      SampledSnoc(front, x, pid);
      assert samples == front + [x];
      UnsampledSeries(front, pid);
    }
  }

  lemma {:induction false} NoRepeatsFront(pids: seq<nat>)
    requires NoRepeats(pids) && pids != []
    ensures NoRepeats(pids[..|pids| - 1]) && pids[|pids| - 1] !in pids[..|pids| - 1]
  {}

  /** One sample more joins the series of its own process only. */
  lemma {:induction false} SeriesGrow(front: seq<Sample>, x: Sample, pids: seq<nat>)
    requires NoRepeats(pids)
    ensures multiset(AllSeries(front + [x], pids)) ==
            multiset(AllSeries(front, pids)) + if x.pid in pids then multiset{x} else multiset{}
    decreases pids
  {
    if pids != [] {
      NoRepeatsFront(pids);
      SeriesGrow(front, x, pids[..|pids| - 1]);
      SeriesSnoc(front, x, pids[|pids| - 1]);
    }
  }

  lemma {:induction false} SeriesSnoc(front: seq<Sample>, x: Sample, pid: nat)
    ensures Series(front + [x], pid) == Series(front, pid) + if x.pid == pid then [x] else []
  {
    assert (front + [x])[..|front|] == front;
  }

  lemma {:induction false} PidsSnoc(front: seq<Sample>, x: Sample)
    ensures PidsOf(front + [x]) == if x.pid in PidsOf(front) then PidsOf(front) else PidsOf(front) + [x.pid]
  {
    assert (front + [x])[..|front|] == front;
  }

  /** A process has no series and no readings before its first sample. */
  lemma {:induction false} BeforeFirstSample(front: seq<Sample>, x: Sample, tck: real)
    requires tck > 0.0
    ensures AllSeries(front, PidsOf(front + [x])) == AllSeries(front, PidsOf(front))
    ensures AllReadings(front, PidsOf(front + [x]), tck) == AllReadings(front, PidsOf(front), tck)
    ensures x.pid in PidsOf(front + [x])
  {
    PidsSnoc(front, x);
    PidsAreSampled(front);
    if x.pid !in PidsOf(front) {
      UnsampledSeries(front, x.pid);
      assert (PidsOf(front) + [x.pid])[..|PidsOf(front)|] == PidsOf(front);
    }
  }

  /** Every sample is in the series of exactly one of the processes, once. */
  lemma {:induction false} PidsPartition(samples: seq<Sample>)
    ensures NoRepeats(PidsOf(samples)) && forall pid :: pid in PidsOf(samples) <==> Sampled(samples, pid)
    ensures multiset(AllSeries(samples, PidsOf(samples))) == multiset(samples)
  {
    PidsAreSampled(samples);
    hide PidsOf, Sampled, NoRepeats;
    if samples == [] {
      assert AllSeries(samples, PidsOf(samples)) == [] by {
        NoSeries(PidsOf(samples));
      }
    } else {
      var front, x := samples[..|samples| - 1], samples[|samples| - 1];
      assert samples == front + [x];
      PidsPartition(front);
      SeriesGrow(front, x, PidsOf(samples));
      BeforeFirstSample(front, x, 1.0);
    }
  }

  lemma {:induction false} NoSeries(pids: seq<nat>)
    ensures AllSeries([], pids) == []
  {
    if pids != [] {
      NoSeries(pids[..|pids| - 1]);
    }
  }

  // ----- The board over all samples -----

  /** The latest sample of a process. */
  function Previous(samples: seq<Sample>, pid: nat): Option<Sample> {
    if samples == [] then None
    else if samples[|samples| - 1].pid == pid then Some(samples[|samples| - 1])
    else Previous(samples[..|samples| - 1], pid)
  }

  /** What a sample reads, measured against its process's sample before it. */
  function ReadingOf(prev: Option<Sample>, s: Sample, tck: real): Reading
    requires tck > 0.0
  {
    var (cpu, hot) := match prev
      case None => (0.0, 0.0)
      case Some(p) => (CpuPercent(p, s, tck), HotThreadPercent(p, s, tck));
    Reading(s.elapsedMs, cpu, hot, s.rssKib, s.pssKib, (s.hostBusyTicks, s.hostTotalTicks))
  }

  /** One reading per sample, in the order of the samples. */
  function EveryReading(samples: seq<Sample>, tck: real): (rs: seq<Reading>)
    requires tck > 0.0
    ensures |rs| == |samples|
  {
    if samples == [] then []
    else
      var front, x := samples[..|samples| - 1], samples[|samples| - 1];
      EveryReading(front, tck) + [ReadingOf(Previous(front, x.pid), x, tck)]
  }

  lemma {:induction false} PreviousEndsSeries(samples: seq<Sample>, pid: nat)
    ensures Previous(samples, pid) ==
            var s := Series(samples, pid); if s == [] then None else Some(s[|s| - 1])
  {
    if samples != [] {
      PreviousEndsSeries(samples[..|samples| - 1], pid);
    }
  }

  lemma {:induction false} ReadingsSnoc(s: seq<Sample>, x: Sample, tck: real)
    requires tck > 0.0
    ensures ReadingsOf(s + [x], |s| + 1, tck) ==
            ReadingsOf(s, |s|, tck) + [ReadingOf(if s == [] then None else Some(s[|s| - 1]), x, tck)]
  {
    hide CpuPercent, HotThreadPercent;
    var all := s + [x];
    forall i | 0 <= i < |s|
      ensures ReadingAt(all, i, tck) == ReadingAt(s, i, tck)
    {
      assert all[i] == s[i] && (i > 0 ==> all[i - 1] == s[i - 1]);
    }
  }

  lemma {:induction false} OneMoreReading(front: seq<Sample>, x: Sample, pid: nat, tck: real)
    requires tck > 0.0
    ensures ProcessReadings(front + [x], pid, tck) ==
            ProcessReadings(front, pid, tck) + if x.pid == pid then [ReadingOf(Previous(front, pid), x, tck)] else []
  {
    hide ReadingsOf, Series, ReadingOf, Previous;
    SeriesSnoc(front, x, pid);
    PreviousEndsSeries(front, pid);
    ReadingsSnoc(Series(front, pid), x, tck);
    assert Series(front, pid) + [] == Series(front, pid);
  }

  /** One sample more adds one reading, to the readings of its own process. */
  lemma {:induction false} ReadingsGrow(front: seq<Sample>, x: Sample, pids: seq<nat>, tck: real)
    requires NoRepeats(pids) && tck > 0.0
    ensures multiset(AllReadings(front + [x], pids, tck)) ==
            multiset(AllReadings(front, pids, tck))
            + if x.pid in pids then multiset{ReadingOf(Previous(front, x.pid), x, tck)} else multiset{}
    decreases pids
  {
    hide ProcessReadings, ReadingOf, Previous, NoRepeats;
    if pids != [] {
      var pid := pids[|pids| - 1];
      NoRepeatsFront(pids);
      ReadingsGrow(front, x, pids[..|pids| - 1], tck);
      OneMoreReading(front, x, pid, tck);
      assert x.pid in pids <==> x.pid in pids[..|pids| - 1] || x.pid == pid;
    }
  }

  /** Process by process or sample by sample, the readings are the same. */
  lemma {:induction false} ReadingsPermuted(samples: seq<Sample>, tck: real)
    requires tck > 0.0
    ensures multiset(AllReadings(samples, PidsOf(samples), tck)) == multiset(EveryReading(samples, tck))
  {
    hide ReadingOf, Previous, ReadingsOf, Series;
    if samples != [] {
      var front, x := samples[..|samples| - 1], samples[|samples| - 1];
      assert samples == front + [x];
      ReadingsPermuted(front, tck);
      PidsAreSampled(samples);
      BeforeFirstSample(front, x, tck);
      ReadingsGrow(front, x, PidsOf(samples), tck);
    }
  }

  lemma {:induction false} TakenAtCount(rs: seq<Reading>, t: nat, r: Reading)
    ensures multiset(TakenAt(rs, t))[r] == if r.at == t then multiset(rs)[r] else 0
  {
    if rs != [] {
      TakenAtCount(rs[..|rs| - 1], t, r);
      assert rs == rs[..|rs| - 1] + [rs[|rs| - 1]];
    }
  }

  lemma {:induction false} TakenAtOfPermutation(a: seq<Reading>, b: seq<Reading>, t: nat)
    requires multiset(a) == multiset(b)
    ensures multiset(TakenAt(a, t)) == multiset(TakenAt(b, t))
  {
    forall r
      ensures multiset(TakenAt(a, t))[r] == multiset(TakenAt(b, t))[r]
    {
      TakenAtCount(a, t, r);
      TakenAtCount(b, t, r);
    }
  }

  lemma {:induction false} LoadSnoc(g: seq<Reading>, r: Reading)
    ensures LoadOf(g + [r]) == LoadOf(g).Plus(r)
  {
    assert (g + [r])[..|g|] == g;
  }

  /** Any one reading can be added last. */
  lemma {:induction false} LoadSplits(a: seq<Reading>, r: Reading, b: seq<Reading>)
    ensures LoadOf(a + [r] + b) == LoadOf(a + b).Plus(r)
    decreases b
  {
    if b == [] {
      assert a + [r] + b == a + [r] && a + b == a;
      LoadSnoc(a, r);
    } else {
      var n := |b| - 1;
      LoadSplits(a, r, b[..n]);
      assert a + [r] + b == (a + [r] + b[..n]) + [b[n]] && a + b == (a + b[..n]) + [b[n]];
      LoadSnoc(a + [r] + b[..n], b[n]);
      LoadSnoc(a + b[..n], b[n]);
    }
  }

  lemma {:induction false} SplitOff(b: seq<Reading>, r: Reading) returns (before: seq<Reading>, after: seq<Reading>)
    requires r in multiset(b)
    ensures b == before + [r] + after && multiset(before + after) == multiset(b) - multiset{r}
  {
    var k :| 0 <= k < |b| && b[k] == r;
    before, after := b[..k], b[k + 1..];
    assert b == before + [r] + after;
  }

  lemma {:induction false} LoadOfPermutation(a: seq<Reading>, b: seq<Reading>)
    requires multiset(a) == multiset(b)
    ensures LoadOf(a) == LoadOf(b)
    decreases a
  {
    hide LoadOf;
    if a == [] {
      assert |multiset(b)| == 0;
    } else {
      var front, r := a[..|a| - 1], a[|a| - 1];
      assert a == front + [r];
      assert r in multiset(a);
      var before, after := SplitOff(b, r);
      LoadOfPermutation(front, before + after);
      LoadSplits(before, r, after);
      LoadSnoc(front, r);
    }
  }

  predicate ReadAt(samples: seq<Sample>, t: nat) {
    exists i :: 0 <= i < |samples| && samples[i].elapsedMs == t
  }

  predicate HostAt(samples: seq<Sample>, t: nat, host: (nat, nat)) {
    exists i :: 0 <= i < |samples| && samples[i].elapsedMs == t
                && host == (samples[i].hostBusyTicks, samples[i].hostTotalTicks)
  }

  lemma {:induction false} EveryReadingAt(samples: seq<Sample>, tck: real, i: nat)
    requires tck > 0.0 && i < |samples|
    ensures var r, s := EveryReading(samples, tck)[i], samples[i];
            r.at == s.elapsedMs && r.host == (s.hostBusyTicks, s.hostTotalTicks)
  {
    if i < |samples| - 1 {
      EveryReadingAt(samples[..|samples| - 1], tck, i);
    }
  }

  lemma {:induction false} TakenAtMembers(samples: seq<Sample>, tck: real, t: nat)
    requires tck > 0.0
    ensures TakenAt(EveryReading(samples, tck), t) != [] <==> ReadAt(samples, t)
    ensures forall r :: r in TakenAt(EveryReading(samples, tck), t) ==> HostAt(samples, t, r.host)
  {
    var rs := EveryReading(samples, tck);
    var g := TakenAt(rs, t);
    hide TakenAt, EveryReading;
    forall r | r in g
      ensures HostAt(samples, t, r.host)
    {
      TakenAtCount(rs, t, r);
      assert multiset(g)[r] > 0;
      assert r in multiset(rs);
      var i :| 0 <= i < |rs| && rs[i] == r;
      EveryReadingAt(samples, tck, i);
    }
    if i :| 0 <= i < |samples| && samples[i].elapsedMs == t {
      EveryReadingAt(samples, tck, i);
      TakenAtCount(rs, t, rs[i]);
      assert rs[i] in multiset(rs);
    }
    if g != [] {
      assert g[0] in g;
    }
  }

  /** For any samples, the board is in time order and has an entry for exactly the
      times at which some process was read. The entry adds up the percentages and the
      memory over all samples of that time, each measured against its process's sample
      before it, with the hottest thread among them and a host reading of that time. */
  lemma {:induction false} BoardGroups(samples: seq<Sample>, tck: real, t: nat)
    requires tck > 0.0
    ensures var board := RollupOf(samples, PidsOf(samples), tck).board;
            Increasing(board)
            && match Lookup(board, t)
               case None => !ReadAt(samples, t)
               case Some(e) =>
                 && ReadAt(samples, t) && e.at == t && HostAt(samples, t, e.host)
                 && Load(e.cpu, e.hot, e.rss, e.pss) == LoadOf(TakenAt(EveryReading(samples, tck), t))
  {
    var g, h := TakenAt(AllReadings(samples, PidsOf(samples), tck), t), TakenAt(EveryReading(samples, tck), t);
    BoardOfReadings(samples, PidsOf(samples), tck, t);
    ReadingsPermuted(samples, tck);
    TakenAtOfPermutation(AllReadings(samples, PidsOf(samples), tck), EveryReading(samples, tck), t);
    LoadOfPermutation(g, h);
    TakenAtMembers(samples, tck, t);
    hide RollupOf, TakenAt, EveryReading, AllReadings, PidsOf, LoadOf, Increasing, Lookup, ReadAt, HostAt;
    SameMembers(g, h);
  }

  lemma {:induction false} SameMembers(g: seq<Reading>, h: seq<Reading>)
    requires multiset(g) == multiset(h)
    ensures g == [] <==> h == []
    ensures g != [] ==> g[0] in h
  {
    assert |multiset(g)| == |g| && |multiset(h)| == |h|;
    assert g != [] ==> g[0] in multiset(g);
  }

  // ----- The host's busy fractions -----

  /** The host's counter of all ticks moved between entries `i - 1` and `i`. */
  predicate TotalGrew(b: Board, i: nat) {
    0 < i < |b| && b[i].host.1 > b[i - 1].host.1
  }

  /** The busy ticks between two readings over all ticks between them. */
  predicate IsFraction(x: real, prev: (nat, nat), cur: (nat, nat)) {
    && x * (cur.1 - prev.1) as real == Monus(cur.0, prev.0) as real
    && 0.0 <= x && (x > 1.0 <==> cur.0 - prev.0 > cur.1 - prev.1)
  }

  /** The fractions `xs` belong to the entries `at`: every one at which the total grew,
      in time order. */
  ghost predicate FractionsAt(b: Board, xs: seq<real>, at: seq<nat>) {
    && |at| == |xs| && (forall i :: i in at <==> TotalGrew(b, i))
    && (forall k, l :: 0 <= k < l < |at| ==> at[k] < at[l])
    && (forall k :: 0 <= k < |at| ==> TotalGrew(b, at[k]) && IsFraction(xs[k], b[at[k] - 1].host, b[at[k]].host))
  }

  lemma {:induction false} FractionsKept(b: Board, n: nat, xs: seq<real>, at: seq<nat>)
    requires 0 < n < |b| && FractionsAt(b[..n], xs, at) && !TotalGrew(b, n) && n == |b| - 1
    ensures FractionsAt(b, xs, at)
  {
    hide IsFraction;
    assert forall i: nat :: i < n ==> (TotalGrew(b, i) <==> TotalGrew(b[..n], i));
  }

  lemma {:induction false} FractionsSnoc(b: Board, n: nat, xs: seq<real>, at: seq<nat>, x: real)
    requires 0 < n < |b| && FractionsAt(b[..n], xs, at) && TotalGrew(b, n) && n == |b| - 1
    requires IsFraction(x, b[n - 1].host, b[n].host)
    ensures FractionsAt(b, xs + [x], at + [n])
  {
    hide IsFraction;
    assert forall i: nat :: i < n ==> (TotalGrew(b, i) <==> TotalGrew(b[..n], i));
    assert forall i :: i in at ==> i < n;
    assert forall i :: i in at + [n] <==> i in at || i == n;
  }

  /** There is one fraction for each pair of consecutive entries between which the
      host's total grew, in time order: busy over total, never negative, and above
      one exactly when the busy counter grew by more than the total. */
  lemma {:induction false} HostFractionsMeaning(b: Board) returns (at: seq<nat>)
    ensures FractionsAt(b, HostSeries(b), at)
  {
    at := [];
    if |b| >= 2 {
      hide FractionsAt, IsFraction;
      var n := |b| - 1;
      at := HostFractionsMeaning(b[..n]);
      if TotalGrew(b, n) {
        Fraction(b[n - 1].host, b[n].host);
        FractionsSnoc(b, n, HostSeries(b[..n]), at, HostSeries(b)[|HostSeries(b[..n])|]);
        at := at + [n];
      } else {
        FractionsKept(b, n, HostSeries(b[..n]), at);
      }
    }
  }

  lemma {:induction false} Fraction(prev: (nat, nat), cur: (nat, nat))
    requires cur.1 > prev.1
    ensures IsFraction(Monus(cur.0, prev.0) as real / Monus(cur.1, prev.1) as real, prev, cur)
  {
    Quotient(Monus(cur.0, prev.0), Monus(cur.1, prev.1));
  }

  lemma {:induction false} Quotient(busy: nat, total: nat)
    requires total > 0
    ensures var x := busy as real / total as real;
            x * total as real == busy as real && 0.0 <= x && (x > 1.0 <==> busy > total)
  {}
}
