/** The receiving end of the two-host probe: a tally of received messages, one
    report per traffic burst, and the receive loop of the UDP sink. Clock readings
    are inputs and real; rounding of the reported numbers is left out. */
module Sink {
  import opened Wrappers
  import AppMetrics
  import opened Statistics

  /** Every connection numbers its messages in its own space of 48 bits. */
  const SPACE: nat := 0x1_0000_0000_0000

  const MIN_MSG: nat := 8

  datatype Msg = Msg(at: real, nbytes: nat, number: nat, tos: Option<nat>) {
    function Conn(): nat {
      number / SPACE
    }

    function Local(): nat {
      number % SPACE
    }
  }

  // ----- The tally -----

  /** Each connection's high-water mark, in order of first arrival. */
  type Highs = seq<(nat, nat)>

  function Raise(h: Highs, conn: nat, local: nat): Highs {
    if h == [] then [(conn, local)]
    else if h[0].0 == conn then [(conn, if local > h[0].1 then local else h[0].1)] + h[1..]
    else [h[0]] + Raise(h[1..], conn, local)
  }

  function Expected(h: Highs): nat {
    if h == [] then 0 else h[0].1 + 1 + Expected(h[1..])
  }

  datatype Tally = Tally(
    count: nat, bytes: nat, highs: Highs, expectDscp: Option<nat>, dscpObserved: nat, dscpMatched: nat,
    firstTs: Option<real>, lastTs: Option<real>)
  {
    function Add(m: Msg): Tally {
      var observed := m.tos.Some? && expectDscp.Some?;
      Tally(count + 1, bytes + m.nbytes, Raise(highs, m.Conn(), m.Local()), expectDscp,
            dscpObserved + (if observed then 1 else 0),
            dscpMatched + (if observed && m.tos.value / 4 == expectDscp.value then 1 else 0),
            firstTs.Or(Some(m.at)), Some(m.at))
    }
  }

  function Empty(expectDscp: Option<nat>): Tally {
    Tally(0, 0, [], expectDscp, 0, 0, None, None)
  }

  /** The tally of a run of messages. */
  function TallyOf(msgs: seq<Msg>, expectDscp: Option<nat>): Tally {
    if msgs == [] then Empty(expectDscp) else TallyOf(msgs[..|msgs| - 1], expectDscp).Add(msgs[|msgs| - 1])
  }

  /** `dscp` holds the observed and the matching messages when a field is expected;
      `preserved` is None when it was never observed. */
  datatype Report = Report(
    count: nat, bytes: nat, lost: nat, lossPct: real, observedS: real, deliveredGbps: real,
    dscp: Option<(nat, nat)>, preserved: Option<bool>)

  function ReportOf(t: Tally): Report {
    var expected := Expected(t.highs);
    var lost := Monus(expected, t.count);
    var observedS := if t.firstTs.Some? && t.lastTs.Some? then t.lastTs.value - t.firstTs.value else 0.0;
    Report(
      t.count, t.bytes, lost, if expected > 0 then 100.0 * lost as real / expected as real else 0.0, observedS,
      if observedS > 0.0 then t.bytes as real * 8.0 / observedS / 1000000000.0 else 0.0,
      if t.expectDscp.Some? then Some((t.dscpObserved, t.dscpMatched)) else None,
      if t.expectDscp.Some? && t.dscpObserved > 0 then Some(t.dscpMatched == t.dscpObserved) else None)
  }

  class SinkTally {
    var count: nat
    var bytes: nat
    var maxSeq: Highs
    var expectDscp: Option<nat>
    var dscpObserved: nat
    var dscpMatched: nat
    var firstTs: Option<real>
    var lastTs: Option<real>

    function View(): Tally
      reads this
    {
      Tally(count, bytes, maxSeq, expectDscp, dscpObserved, dscpMatched, firstTs, lastTs)
    }

    constructor (want: Option<nat>)
      ensures View() == Empty(want)
    {
      count, bytes, maxSeq, expectDscp, dscpObserved, dscpMatched, firstTs, lastTs := 0, 0, [], want, 0, 0, None, None;
    }

    method Reset()
      modifies this
      ensures View() == Empty(old(expectDscp))
    {
      count, bytes, maxSeq, dscpObserved, dscpMatched, firstTs, lastTs := 0, 0, [], 0, 0, None, None;
    }

    method Record(now: real, nbytes: nat, number: nat, tos: Option<nat>)
      modifies this
      ensures View() == old(View()).Add(Msg(now, nbytes, number, tos))
    {
      var conn, local := number / SPACE, number % SPACE;
      count := count + 1;
      bytes := bytes + nbytes;
      if firstTs == None {
        firstTs := Some(now);
      }
      lastTs := Some(now);
      maxSeq := Raise(maxSeq, conn, local);
      if tos.Some? && expectDscp.Some? {
        dscpObserved := dscpObserved + 1;
        if tos.value / 4 == expectDscp.value {
          dscpMatched := dscpMatched + 1;
        }
      }
    }
  }

  // ----- What a report means -----

  function Numbers(msgs: seq<Msg>): set<nat> {
    set i | 0 <= i < |msgs| :: msgs[i].number
  }

  function Conns(h: Highs): set<nat> {
    if h == [] then {} else {h[0].0} + Conns(h[1..])
  }

  /** One mark per connection, within the connection's space. */
  predicate WellFormed(h: Highs) {
    h == [] || (h[0].0 !in Conns(h[1..]) && h[0].1 < SPACE && WellFormed(h[1..]))
  }

  /** A number at or below its connection's mark. */
  predicate Below(h: Highs, x: nat) {
    h != [] && ((h[0].0 == x / SPACE && x % SPACE <= h[0].1) || Below(h[1..], x))
  }

  lemma {:induction false} BelowNeedsConn(h: Highs, x: nat)
    ensures Below(h, x) ==> x / SPACE in Conns(h)
  {
    if h != [] {
      BelowNeedsConn(h[1..], x);
    }
  }

  /** All numbers at or below their connection's mark: as many as were expected. */
  lemma {:induction false} BelowCount(h: Highs) returns (all: set<nat>)
    requires WellFormed(h)
    ensures forall x :: x in all <==> Below(h, x)
    ensures |all| == Expected(h)
  {
    if h == [] {
      all := {};
    } else {
      var rest := BelowCount(h[1..]);
      var base := h[0].0 * SPACE;
      var mine: set<int> := AppMetrics.Range(base, base + h[0].1);
      assert forall x :: x in mine ==> x >= 0;
      var first: set<nat> := mine;
      forall x: nat
        ensures x in first <==> x / SPACE == h[0].0 && x % SPACE <= h[0].1
      {
        assert x == SPACE * (x / SPACE) + x % SPACE;
      }
      forall x | x in rest
        ensures x !in first
      {
        BelowNeedsConn(h[1..], x);
      }
      assert first !! rest;
      all := first + rest;
    }
  }

  lemma {:induction false} RaiseKeeps(h: Highs, conn: nat, local: nat)
    requires WellFormed(h) && local < SPACE
    ensures WellFormed(Raise(h, conn, local)) && Conns(Raise(h, conn, local)) == Conns(h) + {conn}
  {
    var r := Raise(h, conn, local);
    if h == [] {
      assert r[1..] == [];
    } else if h[0].0 == conn {
      assert r[1..] == h[1..];
    } else {
      RaiseKeeps(h[1..], conn, local);
      assert r[1..] == Raise(h[1..], conn, local);
    }
  }

  lemma {:induction false} RaiseBelow(h: Highs, conn: nat, local: nat, x: nat)
    ensures Below(Raise(h, conn, local), x) <==> Below(h, x) || (x / SPACE == conn && x % SPACE <= local)
  {
    var r := Raise(h, conn, local);
    if h == [] {
      assert r[1..] == [];
    } else if h[0].0 == conn {
      assert r[1..] == h[1..];
    } else {
      RaiseBelow(h[1..], conn, local, x);
      assert r[1..] == Raise(h[1..], conn, local);
    }
  }

  /** `x` is at or below the highest number its connection delivered. */
  predicate AtOrBelowArrival(msgs: seq<Msg>, x: nat) {
    exists i :: 0 <= i < |msgs| && msgs[i].Conn() == x / SPACE && x % SPACE <= msgs[i].Local()
  }

  lemma {:induction false} MarksOfMessages(msgs: seq<Msg>, want: Option<nat>, x: nat)
    ensures var h := TallyOf(msgs, want).highs;
            WellFormed(h) && (Below(h, x) <==> AtOrBelowArrival(msgs, x))
  {
    if msgs != [] {
      var n := |msgs| - 1;
      MarksOfMessages(msgs[..n], want, x);
      RaiseKeeps(TallyOf(msgs[..n], want).highs, msgs[n].Conn(), msgs[n].Local());
      RaiseBelow(TallyOf(msgs[..n], want).highs, msgs[n].Conn(), msgs[n].Local(), x);
      ArrivalSnoc(msgs, x);
    }
  }

  lemma {:induction false} ArrivalSnoc(msgs: seq<Msg>, x: nat)
    requires msgs != []
    ensures var last := msgs[|msgs| - 1];
            AtOrBelowArrival(msgs, x) <==>
            AtOrBelowArrival(msgs[..|msgs| - 1], x) || (last.Conn() == x / SPACE && x % SPACE <= last.Local())
  {
    var front := msgs[..|msgs| - 1];
    if AtOrBelowArrival(front, x) {
      var i :| 0 <= i < |front| && front[i].Conn() == x / SPACE && x % SPACE <= front[i].Local();
      assert msgs[i] == front[i];
    }
    if AtOrBelowArrival(msgs, x) {
      var i :| 0 <= i < |msgs| && msgs[i].Conn() == x / SPACE && x % SPACE <= msgs[i].Local();
      assert i == |front| || front[i] == msgs[i];
    }
  }

  lemma {:induction false} NumbersCount(msgs: seq<Msg>)
    ensures |Numbers(msgs)| <= |msgs|
  {
    if msgs != [] {
      var n := |msgs| - 1;
      NumbersCount(msgs[..n]);
      assert Numbers(msgs) == Numbers(msgs[..n]) + {msgs[n].number};
    }
  }

  lemma {:induction false} TallyCounts(msgs: seq<Msg>, want: Option<nat>)
    ensures TallyOf(msgs, want).count == |msgs| && TallyOf(msgs, want).bytes == Bytes(msgs)
    ensures TallyOf(msgs, want).expectDscp == want
  {
    if msgs != [] {
      TallyCounts(msgs[..|msgs| - 1], want);
    }
  }

  function Bytes(msgs: seq<Msg>): nat {
    if msgs == [] then 0 else Bytes(msgs[..|msgs| - 1]) + msgs[|msgs| - 1].nbytes
  }

  /** `missing` are the numbers at or below their connection's high-water mark that
      never arrived. The reported loss falls short of it by the duplicates, so it is
      exact if and only if there are no duplicates or nothing is missing. */
  lemma {:induction false} LostMeaning(msgs: seq<Msg>, want: Option<nat>) returns (missing: set<nat>)
    ensures forall x :: x in missing <==> AtOrBelowArrival(msgs, x) && x !in Numbers(msgs)
    ensures var duplicates := |msgs| - |Numbers(msgs)|;
            var lost := ReportOf(TallyOf(msgs, want)).lost;
            && duplicates >= 0 && lost == Monus(|missing|, duplicates)
            && (lost == |missing| <==> duplicates == 0 || |missing| == 0)
  {
    var h := TallyOf(msgs, want).highs;
    MarksOfMessages(msgs, want, 0);
    var all := BelowCount(h);
    missing := all - Numbers(msgs);
    forall x
      ensures Below(h, x) <==> AtOrBelowArrival(msgs, x)
    {
      MarksOfMessages(msgs, want, x);
    }
    forall x | x in Numbers(msgs)
      ensures x in all
    {
      var i :| 0 <= i < |msgs| && msgs[i].number == x;
      assert msgs[i].Conn() == x / SPACE && x % SPACE <= msgs[i].Local();
    }
    assert all == missing + Numbers(msgs);
    NumbersCount(msgs);
    TallyCounts(msgs, want);
  }

  predicate Observed(m: Msg) {
    m.tos.Some?
  }

  /** The high 16 bits of a 64-bit number are the connection, the low 48 its count. */
  lemma {:induction false} NumberSplits(m: Msg)
    ensures m.number == m.Conn() * 281474976710656 + m.Local() && m.Local() < 281474976710656
  {}

  lemma {:induction false} TallyTimes(msgs: seq<Msg>, want: Option<nat>)
    requires msgs != []
    ensures var t := TallyOf(msgs, want); t.firstTs == Some(msgs[0].at) && t.lastTs == Some(msgs[|msgs| - 1].at)
  {
    if |msgs| > 1 {
      TallyTimes(msgs[..|msgs| - 1], want);
    } else {
      assert msgs[..0] == [];
    }
  }

  /** The messages whose field was seen, and those of them that carried `dscp`. */
  function SeenAt(msgs: seq<Msg>): set<nat> {
    set i: nat | i < |msgs| && Observed(msgs[i])
  }

  function CarriedAt(msgs: seq<Msg>, dscp: nat): set<nat> {
    set i: nat | i < |msgs| && Observed(msgs[i]) && msgs[i].tos.value / 4 == dscp
  }

  lemma {:induction false} DscpTallies(msgs: seq<Msg>, dscp: nat)
    ensures var t := TallyOf(msgs, Some(dscp));
            t.expectDscp == Some(dscp) && t.dscpObserved == |SeenAt(msgs)| && t.dscpMatched == |CarriedAt(msgs, dscp)|
  {
    if msgs != [] {
      DscpTallies(msgs[..|msgs| - 1], dscp);
      SeenSnoc(msgs);
      CarriedSnoc(msgs, dscp);
      hide SeenAt, CarriedAt, Raise;
    }
  }

  lemma {:induction false} SeenSnoc(msgs: seq<Msg>)
    requires msgs != []
    ensures var n := |msgs| - 1; |SeenAt(msgs)| == |SeenAt(msgs[..n])| + if Observed(msgs[n]) then 1 else 0
  {
    var n := |msgs| - 1;
    assert SeenAt(msgs) == SeenAt(msgs[..n]) + if Observed(msgs[n]) then {n} else {};
  }

  lemma {:induction false} CarriedSnoc(msgs: seq<Msg>, dscp: nat)
    requires msgs != []
    ensures var n := |msgs| - 1;
            |CarriedAt(msgs, dscp)| ==
            |CarriedAt(msgs[..n], dscp)| + if Observed(msgs[n]) && msgs[n].tos.value / 4 == dscp then 1 else 0
  {
    var n := |msgs| - 1;
    assert CarriedAt(msgs, dscp) ==
           CarriedAt(msgs[..n], dscp) + if Observed(msgs[n]) && msgs[n].tos.value / 4 == dscp then {n} else {};
  }

  /** What a burst's report says of its messages. `sent` are the numbers up to the
      highest of each connection, as far as the sink can tell what was sent. */
  lemma {:induction false} ReportMeaning(msgs: seq<Msg>, want: Option<nat>) returns (sent: set<nat>)
    requires msgs != []
    ensures forall x :: x in sent <==> AtOrBelowArrival(msgs, x)
    ensures var r := ReportOf(TallyOf(msgs, want));
            && r.count == |msgs| && r.bytes == Bytes(msgs) && r.lost == Monus(|sent|, |msgs|)
            && Times(r.lossPct, |sent| as real) == 100.0 * r.lost as real
            && r.observedS == msgs[|msgs| - 1].at - msgs[0].at
            && (if r.observedS > 0.0 then Times(r.deliveredGbps, r.observedS) * 1000000000.0 == 8.0 * r.bytes as real
                else r.deliveredGbps == 0.0)
            && r.dscp == match want case None => None case Some(d) => Some((|SeenAt(msgs)|, |CarriedAt(msgs, d)|))
  {
    var t := TallyOf(msgs, want);
    MarksOfMessages(msgs, want, 0);
    sent := BelowCount(t.highs);
    forall x
      ensures Below(t.highs, x) <==> AtOrBelowArrival(msgs, x)
    {
      MarksOfMessages(msgs, want, x);
    }
    TallyCounts(msgs, want);
    TallyTimes(msgs, want);
    if want.Some? {
      DscpTallies(msgs, want.value);
    }
    hide TallyOf, Expected, Bytes, Below, AtOrBelowArrival, WellFormed, SeenAt, CarriedAt;
    ReportRates(t);
  }

  lemma {:induction false} ReportRates(t: Tally)
    requires t.firstTs.Some? && t.lastTs.Some?
    ensures var r, expected := ReportOf(t), Expected(t.highs);
            && r.lost == Monus(expected, t.count) && Times(r.lossPct, expected as real) == 100.0 * r.lost as real
            && r.observedS == t.lastTs.value - t.firstTs.value
            && (if r.observedS > 0.0 then Times(r.deliveredGbps, r.observedS) * 1000000000.0 == 8.0 * t.bytes as real
                else r.deliveredGbps == 0.0)
  {
    hide Expected;
    var expected := Expected(t.highs);
    if expected > 0 {
      QuotientTimes(100.0 * Monus(expected, t.count) as real, expected as real);
    }
    var secs := t.lastTs.value - t.firstTs.value;
    if secs > 0.0 {
      QuotientTimes(t.bytes as real * 8.0, secs);
      var q := t.bytes as real * 8.0 / secs;
      assert Times(q / 1000000000.0, secs) * 1000000000.0 == q * secs;
    }
  }

  lemma {:induction false} DscpCounts(msgs: seq<Msg>, dscp: nat)
    ensures var t := TallyOf(msgs, Some(dscp));
            && t.dscpMatched <= t.dscpObserved && t.expectDscp == Some(dscp)
            && (t.dscpObserved > 0 <==> exists i :: 0 <= i < |msgs| && Observed(msgs[i]))
            && (t.dscpMatched == t.dscpObserved <==>
                forall i :: 0 <= i < |msgs| && Observed(msgs[i]) ==> msgs[i].tos.value / 4 == dscp)
  {
    if msgs != [] {
      var n := |msgs| - 1;
      DscpCounts(msgs[..n], dscp);
      assert forall i :: 0 <= i < n ==> msgs[..n][i] == msgs[i];
    }
  }

  /** The verdict is given exactly when the field was expected and observed, and is
      a pass exactly when every observed message carried it. */
  lemma {:induction false} VerdictMeaning(msgs: seq<Msg>, dscp: nat)
    ensures var verdict := ReportOf(TallyOf(msgs, Some(dscp))).preserved;
            && (verdict.Some? <==> exists i :: 0 <= i < |msgs| && Observed(msgs[i]))
            && (verdict.Some? ==> (verdict.value <==>
                  forall i :: 0 <= i < |msgs| && Observed(msgs[i]) ==> msgs[i].tos.value / 4 == dscp))
  {
    DscpCounts(msgs, dscp);
  }

  // ----- Bursts -----

  /** What a pass of the receive loop meets: a datagram, the receive timeout, or an error. */
  datatype Event = Recv(at: real, nbytes: nat, number: nat, tos: Option<nat>) | Timeout(at: real) | Fault(at: real)

  /** The bursts reported so far and the messages tallied since the last one. */
  datatype Bursts = Bursts(done: seq<seq<Msg>>, pending: seq<Msg>) {
    function Flush(): Bursts {
      if pending == [] then this else Bursts(done + [pending], [])
    }

    function See(e: Event, gap: real): Bursts {
      match e
      case Recv(at, nbytes, number, tos) =>
        if nbytes >= MIN_MSG then Bursts(done, pending + [Msg(at, nbytes, number, tos)]) else this
      case Timeout(at) =>
        if pending != [] && at - pending[|pending| - 1].at >= gap then Flush() else this
      case Fault(_) => this
    }
  }

  function Run(events: seq<Event>, gap: real): Bursts {
    if events == [] then Bursts([], []) else Run(events[..|events| - 1], gap).See(events[|events| - 1], gap)
  }

  datatype Line = Line(burst: nat, report: Report)

  function Lines(bursts: seq<seq<Msg>>, want: Option<nat>): seq<Line> {
    seq(|bursts|, i requires 0 <= i < |bursts| => Line(i, ReportOf(TallyOf(bursts[i], want))))
  }

  class BurstReporter {
    var idleGap: real
    var records: nat
    var lines: seq<Line>

    predicate Valid()
      reads this
    {
      records == |lines|
    }

    constructor (gap: real)
      ensures Valid() && lines == [] && idleGap == gap
    {
      idleGap, records, lines := gap, 0, [];
    }

    method Flush(tally: SinkTally)
      requires Valid()
      modifies this, tally
      ensures Valid() && idleGap == old(idleGap)
      ensures if old(tally.count) == 0 then lines == old(lines) && tally.View() == old(tally.View())
              else lines == old(lines) + [Line(|old(lines)|, ReportOf(old(tally.View())))]
                   && tally.View() == Empty(old(tally.expectDscp))
    {
      var report := ReportOf(tally.View());
      if report.count == 0 {
        return;
      }
      lines := lines + [Line(records, report)];
      records := records + 1;
      tally.Reset();
    }

    method MaybeFlush(tally: SinkTally, now: real)
      requires Valid()
      modifies this, tally
      ensures Valid() && idleGap == old(idleGap)
      ensures if old(tally.lastTs).Some? && now - old(tally.lastTs).value >= idleGap && old(tally.count) > 0
              then lines == old(lines) + [Line(|old(lines)|, ReportOf(old(tally.View())))]
                   && tally.View() == Empty(old(tally.expectDscp))
              else lines == old(lines) && tally.View() == old(tally.View())
    {
      var last := tally.lastTs;
      if last.Some? && now - last.value >= idleGap {
        Flush(tally);
      }
    }
  }

  lemma {:induction false} LastOfTally(msgs: seq<Msg>, want: Option<nat>)
    ensures TallyOf(msgs, want).lastTs == if msgs == [] then None else Some(msgs[|msgs| - 1].at)
  {}

  /** The reporter's lines and the tally are those of the bursts seen. */
  ghost predicate Tracks(tally: SinkTally, burst: BurstReporter, b: Bursts, want: Option<nat>)
    reads tally, burst
  {
    burst.Valid() && burst.lines == Lines(b.done, want) && tally.View() == TallyOf(b.pending, want)
  }

  /** One pass of the receive loop. */
  method Receive(e: Event, tally: SinkTally, burst: BurstReporter, ghost b: Bursts, ghost want: Option<nat>)
    requires Tracks(tally, burst, b, want)
    modifies tally, burst
    ensures Tracks(tally, burst, b.See(e, burst.idleGap), want) && burst.idleGap == old(burst.idleGap)
  {
    TallyCounts(b.pending, want);
    LastOfTally(b.pending, want);
    hide ReportOf, Tally.Add, Raise, Bytes;
    match e
    case Timeout(at) =>
      burst.MaybeFlush(tally, at);
    case Fault(_) =>
    case Recv(at, nbytes, number, tos) =>
      if nbytes >= MIN_MSG {
        tally.Record(at, nbytes, number, tos);
        assert (b.pending + [Msg(at, nbytes, number, tos)])[..|b.pending|] == b.pending;
      }
  }

  /** The whole life of the sink: it receives until its deadline, then flushes. */
  method SinkUdp(events: seq<Event>, tally: SinkTally, burst: BurstReporter)
    requires burst.Valid() && burst.lines == [] && tally.View() == Empty(tally.expectDscp)
    modifies tally, burst
    ensures burst.lines == Lines(Run(events, old(burst.idleGap)).Flush().done, old(tally.expectDscp))
    ensures tally.View() == Empty(old(tally.expectDscp))
  {
    ghost var gap, want := burst.idleGap, tally.expectDscp;
    for i := 0 to |events|
      invariant burst.idleGap == gap && Tracks(tally, burst, Run(events[..i], gap), want)
    {
      assert events[..i + 1][..i] == events[..i];
      Receive(events[i], tally, burst, Run(events[..i], gap), want);
    }
    assert events[..|events|] == events;
    TallyCounts(Run(events, gap).pending, want);
    burst.Flush(tally);
  }

  // ----- What the bursts are -----

  function Received(events: seq<Event>): seq<Msg> {
    if events == [] then []
    else Received(events[..|events| - 1]) + Message(events[|events| - 1])
  }

  /** The message of an event; a datagram too short for a number is none. */
  function Message(e: Event): seq<Msg> {
    if e.Recv? && e.nbytes >= MIN_MSG then [Msg(e.at, e.nbytes, e.number, e.tos)] else []
  }

  /** Eight bytes hold a number. */
  lemma {:induction false} ShortIsNone(e: Event)
    ensures Message(e) == [] <==> !e.Recv? || e.nbytes < 8
  {}

  function Joined(bursts: seq<seq<Msg>>): seq<Msg> {
    if bursts == [] then [] else Joined(bursts[..|bursts| - 1]) + bursts[|bursts| - 1]
  }

  lemma {:induction false} JoinedSnoc(bursts: seq<seq<Msg>>, last: seq<Msg>)
    ensures Joined(bursts + [last]) == Joined(bursts) + last
  {
    assert (bursts + [last])[..|bursts|] == bursts;
  }

  predicate NoneEmpty(bursts: seq<seq<Msg>>) {
    forall i :: 0 <= i < |bursts| ==> bursts[i] != []
  }

  function All(b: Bursts): seq<Msg> {
    Joined(b.done) + b.pending
  }

  lemma {:induction false} FlushKeeps(b: Bursts)
    ensures All(b.Flush()) == All(b) && b.Flush().pending == []
    ensures NoneEmpty(b.done) ==> NoneEmpty(b.Flush().done)
  {
    JoinedSnoc(b.done, b.pending);
    hide Joined;
  }

  lemma {:induction false} SeeKeeps(b: Bursts, e: Event, gap: real)
    ensures All(b.See(e, gap)) == All(b) + Message(e)
    ensures NoneEmpty(b.done) ==> NoneEmpty(b.See(e, gap).done)
  {
    hide NoneEmpty, Joined;
    FlushKeeps(b);
  }

  /** The bursts one after the other, then the pending messages, are exactly the
      messages received, in order, none lost and none counted twice; after the last
      flush nothing is pending; no burst is empty. */
  lemma {:induction false} BurstsArePartition(events: seq<Event>, gap: real)
    ensures var b := Run(events, gap);
            && Joined(b.done) + b.pending == Received(events)
            && b.Flush().pending == [] && Joined(b.Flush().done) == Received(events)
            && NoneEmpty(b.done)
  {
    hide Joined, NoneEmpty;
    if events == [] {
      assert Joined([]) == [] && NoneEmpty([]) by {
        NothingJoined();
      }
    } else {
      var n := |events| - 1;
      BurstsArePartition(events[..n], gap);
      SeeKeeps(Run(events[..n], gap), events[n], gap);
    }
    FlushKeeps(Run(events, gap));
  }

  lemma {:induction false} NothingJoined()
    ensures Joined([]) == [] && NoneEmpty([])
  {}

  function CountSum(lines: seq<Line>): nat {
    if lines == [] then 0 else CountSum(lines[..|lines| - 1]) + lines[|lines| - 1].report.count
  }

  function ByteSum(lines: seq<Line>): nat {
    if lines == [] then 0 else ByteSum(lines[..|lines| - 1]) + lines[|lines| - 1].report.bytes
  }

  lemma {:induction false} BytesOfConcat(a: seq<Msg>, b: seq<Msg>)
    ensures Bytes(a + b) == Bytes(a) + Bytes(b)
  {
    if b == [] {
      assert a + b == a;
    } else {
      assert (a + b)[..|a + b| - 1] == a + b[..|b| - 1];
      BytesOfConcat(a, b[..|b| - 1]);
    }
  }

  lemma {:induction false} LineSums(bursts: seq<seq<Msg>>, want: Option<nat>)
    ensures CountSum(Lines(bursts, want)) == |Joined(bursts)| && ByteSum(Lines(bursts, want)) == Bytes(Joined(bursts))
  {
    if bursts != [] {
      var n := |bursts| - 1;
      LineSums(bursts[..n], want);
      LastLine(bursts, want);
      hide TallyOf, Bytes, Lines;
      BytesOfConcat(Joined(bursts[..n]), bursts[n]);
    }
  }

  lemma {:induction false} LastLine(bursts: seq<seq<Msg>>, want: Option<nat>)
    requires bursts != []
    ensures var n := |bursts| - 1;
            var lines := Lines(bursts, want);
            && |lines| == n + 1 && lines[..n] == Lines(bursts[..n], want)
            && lines[n].report.count == |bursts[n]| && lines[n].report.bytes == Bytes(bursts[n])
  {
    TallyCounts(bursts[|bursts| - 1], want);
    hide TallyOf, Bytes;
  }

  /** The reported counts and bytes plus the pending tally are what was received. */
  lemma {:induction false} NothingIsLostBetweenBursts(events: seq<Event>, gap: real, want: Option<nat>)
    ensures var b := Run(events, gap);
            var pending := TallyOf(b.pending, want);
            && CountSum(Lines(b.done, want)) + pending.count == |Received(events)|
            && ByteSum(Lines(b.done, want)) + pending.bytes == Bytes(Received(events))
  {
    var b := Run(events, gap);
    BurstsArePartition(events, gap);
    LineSums(b.done, want);
    TallyCounts(b.pending, want);
    BytesOfConcat(Joined(b.done), b.pending);
  }

  predicate Clock(events: seq<Event>) {
    forall i, j :: 0 <= i < j < |events| ==> events[i].at <= events[j].at
  }

  predicate NoLaterThan(msgs: seq<Msg>, t: real) {
    forall i :: 0 <= i < |msgs| ==> msgs[i].at <= t
  }

  /** Every message of one run is at least `gap` before every message of the other. */
  predicate Apart(before: seq<Msg>, after: seq<Msg>, gap: real) {
    forall i, j :: 0 <= i < |before| && 0 <= j < |after| ==> before[i].at + gap <= after[j].at
  }

  ghost predicate Separated(b: Bursts, gap: real, now: real) {
    && (forall i :: 0 <= i < |b.done| ==> NoLaterThan(b.done[i], now - gap) && Apart(b.done[i], b.pending, gap))
    && (forall i, j :: 0 <= i < j < |b.done| ==> Apart(b.done[i], b.done[j], gap))
    && NoLaterThan(b.pending, now)
    && (b.pending != [] ==> NoLaterThan(b.pending, b.pending[|b.pending| - 1].at))
  }

  lemma {:induction false} SeparatedRun(events: seq<Event>, gap: real)
    requires events != [] && Clock(events)
    ensures Separated(Run(events, gap), gap, events[|events| - 1].at)
  {
    var n := |events| - 1;
    var front, e := events[..n], events[n];
    if n > 0 {
      SeparatedRun(front, gap);
      assert events[n - 1].at <= e.at;
      SeparatedStep(Run(front, gap), e, gap, events[n - 1].at);
    } else {
      assert Run(front, gap) == Bursts([], []);
    }
  }

  lemma {:induction false} SeparatedStep(b: Bursts, e: Event, gap: real, now: real)
    requires Separated(b, gap, now) && now <= e.at
    ensures Separated(b.See(e, gap), gap, e.at)
  {}

  /** On a clock that does not go back, messages of different bursts are at least
      the idle gap apart, those still pending included. */
  lemma {:induction false} BurstsAreApart(events: seq<Event>, gap: real, i: nat, j: nat)
    requires Clock(events)
    ensures var bursts := Run(events, gap).Flush().done; i < j < |bursts| ==> Apart(bursts[i], bursts[j], gap)
  {
    if events != [] {
      SeparatedRun(events, gap);
    } else {
      assert Run(events, gap).Flush().done == [];
    }
  }

  /** A timeout that finds the sink idle for the gap since time `since`. */
  predicate IdleTimeout(e: Event, since: real, gap: real) {
    e.Timeout? && e.at - since >= gap
  }

  /** The stretch of events after message `m` in which nothing is received. */
  lemma {:induction false} QuietStretch(before: seq<Event>, m: Event, quiet: seq<Event>, gap: real)
    requires Message(m) != [] && forall i :: 0 <= i < |quiet| ==> Message(quiet[i]) == []
    ensures var b := Run(before + [m] + quiet, gap);
            && (b.pending != [] <==> forall i :: 0 <= i < |quiet| ==> !IdleTimeout(quiet[i], m.at, gap))
            && (b.pending != [] ==> b.pending[|b.pending| - 1].at == m.at)
  {
    var all := before + [m] + quiet;
    if quiet == [] {
      assert all[..|all| - 1] == before && all[|all| - 1] == m;
    } else {
      var n := |quiet| - 1;
      assert all[..|all| - 1] == before + [m] + quiet[..n] && all[|all| - 1] == quiet[n];
      QuietStretch(before, m, quiet[..n], gap);
      assert forall i :: 0 <= i < n ==> quiet[..n][i] == quiet[i];
    }
  }

  /** Two messages received one after the other are in one burst exactly when no
      timeout in between found the sink idle for the gap. */
  lemma {:induction false} SameBurst(before: seq<Event>, m: Event, quiet: seq<Event>, n: Event, gap: real)
    requires Message(m) != [] && Message(n) != [] && forall i :: 0 <= i < |quiet| ==> Message(quiet[i]) == []
    ensures var pending := Run(before + [m] + quiet + [n], gap).pending;
            && |pending| >= 1 && [pending[|pending| - 1]] == Message(n)
            && (|pending| >= 2 <==> forall i :: 0 <= i < |quiet| ==> !IdleTimeout(quiet[i], m.at, gap))
            && (|pending| >= 2 ==> pending[|pending| - 2].at == m.at)
  {
    var all := before + [m] + quiet + [n];
    assert all[..|all| - 1] == before + [m] + quiet && all[|all| - 1] == n;
    QuietStretch(before, m, quiet, gap);
  }
}
