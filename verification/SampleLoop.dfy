/** When the system sampler takes its ticks. Clock polls are inputs. */
module SampleLoop {
  import opened Wrappers

  predicate StrictlyIncreasing(ts: seq<nat>) {
    forall i, j :: 0 <= i < j < |ts| ==> ts[i] < ts[j]
  }

  /** The next due time and the ticks taken, in nanoseconds, after a run of clock polls. */
  datatype Schedule = Schedule(next: nat, ticks: seq<nat>)

  function Poll(s: Schedule, interval: nat, now: nat): Schedule {
    if now < s.next then s
    else
      var next := s.next + interval;
      Schedule(if next <= now then now + interval else next, s.ticks + [now])
  }

  function Polls(start: nat, interval: nat, polls: seq<nat>): Schedule {
    if polls == [] then Schedule(start, [])
    else Poll(Polls(start, interval, polls[..|polls| - 1]), interval, polls[|polls| - 1])
  }

  method TakeTicks(start: nat, interval: nat, polls: seq<nat>) returns (next: nat, ticks: seq<nat>)
    ensures Schedule(next, ticks) == Polls(start, interval, polls)
  {
    next, ticks := start, [];
    for i := 0 to |polls|
      invariant Schedule(next, ticks) == Polls(start, interval, polls[..i])
    {
      assert polls[..i + 1][..i] == polls[..i];
      var now := polls[i];
      if now >= next {
        ticks := ticks + [now];
        next := next + interval;
        if next <= now {
          next := now + interval;
        }
      }
    }
    assert polls[..|polls|] == polls;
  }

  predicate Clock(start: nat, polls: seq<nat>) {
    forall i :: 0 <= i < |polls| ==> start <= polls[i] && forall j :: i < j < |polls| ==> polls[i] <= polls[j]
  }

  /** After any run of polls of a clock that does not go back, the next tick is in
      the future and at most one interval away, and ticks are strictly increasing. */
  lemma {:induction false} ScheduleInvariant(start: nat, interval: nat, polls: seq<nat>)
    requires interval > 0 && polls != [] && Clock(start, polls)
    ensures var s, now := Polls(start, interval, polls), polls[|polls| - 1];
            now < s.next <= now + interval && s.ticks != [] && s.ticks[|s.ticks| - 1] <= now && StrictlyIncreasing(s.ticks)
  {
    var n := |polls| - 1;
    var s, front := Polls(start, interval, polls), Polls(start, interval, polls[..n]);
    if n > 0 {
      ScheduleInvariant(start, interval, polls[..n]);
      assert polls[n - 1] <= polls[n];
    } else {
      assert front == Schedule(start, []);
      assert s.ticks == [polls[0]];
    }
  }

  lemma {:induction false} TickBudget(start: nat, interval: nat, polls: seq<nat>)
    ensures var s := Polls(start, interval, polls); start + |s.ticks| * interval <= s.next
  {
    if polls != [] {
      var n := |polls| - 1;
      TickBudget(start, interval, polls[..n]);
      var k := |Polls(start, interval, polls[..n]).ticks|;
      assert (k + 1) * interval == k * interval + interval;
    }
  }

  /** The sampler never takes more ticks than intervals have begun. */
  lemma {:induction false} TicksAreBounded(start: nat, interval: nat, polls: seq<nat>)
    requires interval > 0 && polls != [] && Clock(start, polls)
    ensures |Polls(start, interval, polls).ticks| <= (polls[|polls| - 1] - start) / interval + 1
  {
    ScheduleInvariant(start, interval, polls);
    TickBudget(start, interval, polls);
    TickCount(|Polls(start, interval, polls).ticks|, interval, polls[|polls| - 1] - start);
  }

  lemma {:induction false} TickCount(k: nat, interval: nat, elapsed: nat)
    requires interval > 0 && k * interval <= elapsed + interval
    ensures k <= elapsed / interval + 1
  {
    var q := elapsed / interval;
    assert elapsed == q * interval + elapsed % interval;
    assert k >= q + 2 ==> k * interval >= (q + 2) * interval;
    assert (q + 2) * interval == q * interval + interval + interval;
  }

  // ----- The stamps of ticks -----

  /** Nanoseconds in a millisecond. */
  const MS: nat := 1000000

  /** The `elapsed_ms` of a tick. */
  function Stamp(start: nat, tick: nat): nat {
    Monus(tick, start) / MS
  }

  function Stamps(start: nat, ticks: seq<nat>): (ms: seq<nat>)
    ensures |ms| == |ticks|
  {
    seq(|ticks|, i requires 0 <= i < |ticks| => Stamp(start, ticks[i]))
  }

  /** No tick is taken more than `late` after it was due. */
  predicate Punctual(start: nat, interval: nat, polls: seq<nat>, late: nat) {
    polls == []
    || (var n := |polls| - 1;
        Punctual(start, interval, polls[..n], late) && polls[n] <= Polls(start, interval, polls[..n]).next + late)
  }

  /** Ticks taken at most `late` after they were due always have stamps of their own. */
  ghost predicate AlwaysDistinct(interval: nat, late: nat) {
    forall start: nat, polls :: Clock(start, polls) && Punctual(start, interval, polls, late) ==>
      StrictlyIncreasing(Stamps(start, Polls(start, interval, polls).ticks))
  }

  /** Ticks that keep to the schedule are told apart when no multiple of the interval
      lies further past a millisecond than the gap a late tick leaves; ticks that are
      a whole interval late, only when the interval is in whole milliseconds. */
  predicate Distinguishes(interval: nat, late: nat) {
    if late < interval then MS - Gcd(interval, MS) < interval - late
    else late == interval && interval % MS == 0
  }

  function Gcd(a: nat, b: nat): nat
    decreases b
  {
    if b == 0 then a else Gcd(b, a % b)
  }

  /** How far the `k`-th multiple of the interval lies past a millisecond. */
  function Past(k: nat, interval: nat): nat {
    k * interval % MS
  }

  // ----- How far past a millisecond multiples get -----

  ghost predicate Divides(g: int, a: int) {
    exists q: int :: a == Product(q, g)
  }

  function Product(q: int, g: int): int {
    q * g
  }

  lemma {:induction false} DividesSum(g: int, a: int, b: int, q: int)
    requires Divides(g, a) && Divides(g, b)
    ensures Divides(g, a + q * b)
  {
    var x: int :| a == Product(x, g);
    var y: int :| b == Product(y, g);
    assert a + q * b == Product(x + q * y, g) by {
      Distributes(x, q, y, g);
    }
  }

  lemma {:induction false} Distributes(x: int, q: int, y: int, g: int)
    ensures (x + q * y) * g == x * g + q * (y * g)
  {}

  lemma {:induction false} GcdDivides(a: nat, b: nat)
    requires a > 0 || b > 0
    ensures Gcd(a, b) > 0 && Divides(Gcd(a, b), a) && Divides(Gcd(a, b), b)
    decreases b
  {
    if b == 0 {
      assert a == Product(1, a) && 0 == Product(0, a);
    } else {
      hide Divides;
      GcdDivides(b, a % b);
      DividesDividend(Gcd(b, a % b), a, b);
    }
  }

  lemma {:induction false} DividesDividend(g: int, a: int, b: int)
    requires b != 0 && Divides(g, a % b) && Divides(g, b)
    ensures Divides(g, a)
  {
    hide Divides;
    DividesSum(g, a % b, b, a / b);
    assert a == a % b + (a / b) * b;
  }

  lemma {:induction false} Bezout(a: nat, b: nat) returns (x: int, y: int)
    ensures x * a + y * b == Gcd(a, b)
    decreases b
  {
    if b == 0 {
      x, y := 1, 0;
    } else {
      var u, v := Bezout(b, a % b);
      x, y := v, u - (a / b) * v;
      Exchange(a, b, a / b, a % b, u, v);
    }
  }

  lemma {:induction false} Exchange(a: int, b: int, q: int, r: int, u: int, v: int)
    requires a == q * b + r
    ensures v * a + (u - q * v) * b == u * b + v * r
  {
    assert v * a == v * (q * b) + v * r;
    assert v * (q * b) == (q * v) * b;
  }

  lemma {:induction false} NoDivisorBelow(g: int, a: int)
    requires g > 0 && Divides(g, a) && a > 0
    ensures a >= g
  {
    var q: int :| a == Product(q, g);
    ProductSign(q, g);
  }

  lemma {:induction false} ProductSign(q: int, g: int)
    requires g > 0
    ensures if q <= 0 then Product(q, g) <= 0 else Product(q, g) >= g
  {
    if q > 0 {
      assert Product(q, g) == g + (q - 1) * g;
    }
  }

  /** No multiple lies more than the greatest common divisor short of a millisecond. */
  lemma {:induction false} PastBound(k: nat, interval: nat)
    ensures Past(k, interval) <= MS - Gcd(interval, MS)
  {
    var g, q := Gcd(interval, MS), k * interval / MS;
    GcdDivides(interval, MS);
    assert 0 == Product(0, g);
    DividesSum(g, 0, interval, k);
    DividesSum(g, MS, MS, q);
    DividesSum(g, MS + q * MS, k * interval, -1);
    assert MS + q * MS + -1 * (k * interval) == MS - Past(k, interval);
    NoDivisorBelow(g, MS - Past(k, interval));
  }

  /** And some multiple gets that close. */
  lemma {:induction false} PastAttained(interval: nat) returns (k: nat)
    ensures Past(k, interval) == MS - Gcd(interval, MS)
  {
    var g := Gcd(interval, MS);
    GcdDivides(interval, MS);
    NoDivisorBelow(g, MS);
    var x, y := Bezout(interval, MS);
    k := (-x) % MS;
    var t := -((-x) / MS);
    assert k == MS * t - x;
    Residue(x, y, t, interval, g, k);
  }

  lemma {:induction false} Residue(x: int, y: int, t: int, interval: int, g: int, k: int)
    requires x * interval + y * MS == g && k == MS * t - x && 0 < g <= MS
    ensures k * interval % MS == MS - g
  {
    assert k * interval == (MS * t) * interval - x * interval;
    assert (MS * t) * interval == MS * (t * interval);
    var q := t * interval + y - 1;
    assert k * interval == MS * q + (MS - g);
  }

  lemma {:induction false} PastIsPeriodic(k: nat, interval: nat)
    ensures Past(k + MS, interval) == Past(k, interval) && (k + MS) * interval >= MS * interval
  {
    var q := k * interval / MS;
    assert (k + MS) * interval == k * interval + MS * interval;
    assert k * interval + MS * interval == MS * (q + interval) + Past(k, interval);
  }

  // ----- Runs that are told apart -----

  lemma {:induction false} StampsSnoc(start: nat, ticks: seq<nat>, tick: nat)
    ensures Stamps(start, ticks + [tick]) == Stamps(start, ticks) + [Stamp(start, tick)]
  {}

  lemma {:induction false} IncreasingSnoc(ms: seq<nat>, m: nat)
    ensures StrictlyIncreasing(ms + [m]) <==> StrictlyIncreasing(ms) && (ms == [] || ms[|ms| - 1] < m)
  {
    var all := ms + [m];
    assert forall i :: 0 <= i < |ms| ==> all[i] == ms[i];
    assert ms != [] ==> all[|ms| - 1] == ms[|ms| - 1] && all[|ms|] == m;
  }

  /** A millisecond ends between two instants when a boundary lies between them. */
  lemma {:induction false} BoundaryBetween(a: nat, b: nat, due: nat)
    requires a < due - due % MS && due <= b
    ensures a / MS < b / MS
  {
    assert due - due % MS == MS * (due / MS);
  }

  /** The next tick is due at a multiple of the interval, and the last one left a gap
      of at least `interval - late` before it. */
  predicate MultipleDue(start: nat, interval: nat, late: nat, s: Schedule) {
    && s.next == start + |s.ticks| * interval
    && (s.ticks != [] ==> start <= s.ticks[|s.ticks| - 1] && s.ticks[|s.ticks| - 1] + interval <= s.next + late)
    && StrictlyIncreasing(Stamps(start, s.ticks))
  }

  lemma {:induction false} DueInMultiples(start: nat, s: Schedule, interval: nat, late: nat, now: nat)
    requires MultipleDue(start, interval, late, s) && late < interval && s.next <= now <= s.next + late
    requires Past(|s.ticks|, interval) < interval - late
    ensures MultipleDue(start, interval, late, Poll(s, interval, now))
  {
    var k := |s.ticks|;
    NextMultiple(k, interval);
    StampsSnoc(start, s.ticks, now);
    IncreasingSnoc(Stamps(start, s.ticks), Stamp(start, now));
    hide Stamps, StrictlyIncreasing;
    if k > 0 {
      BoundaryBetween(s.ticks[k - 1] - start, now - start, k * interval);
    }
  }

  lemma {:induction false} OnSchedule(start: nat, interval: nat, polls: seq<nat>, late: nat)
    requires Clock(start, polls) && Punctual(start, interval, polls, late) && late < interval && Distinguishes(interval, late)
    ensures MultipleDue(start, interval, late, Polls(start, interval, polls))
  {
    hide Gcd, Past;
    if polls != [] {
      var n := |polls| - 1;
      var s, now := Polls(start, interval, polls[..n]), polls[n];
      OnSchedule(start, interval, polls[..n], late);
      if now >= s.next {
        PastBound(|s.ticks|, interval);
        DueInMultiples(start, s, interval, late, now);
      }
    }
  }

  lemma {:induction false} NextMultiple(k: nat, interval: nat)
    ensures (k + 1) * interval == k * interval + interval
  {}

  /** The next tick is due on a millisecond, after every tick taken. */
  predicate WholeDue(start: nat, s: Schedule) {
    && s.next >= start && (s.next - start) % MS == 0
    && (s.ticks != [] ==> start <= s.ticks[|s.ticks| - 1] < s.next)
    && StrictlyIncreasing(Stamps(start, s.ticks))
  }

  lemma {:induction false} WholeSteps(due: nat, interval: nat)
    requires due % MS == 0 && interval % MS == 0
    ensures (due + interval) % MS == 0
  {}

  /** A tick at most an interval late is followed by one due an interval after it was. */
  lemma {:induction false} DueInWhole(start: nat, s: Schedule, interval: nat, now: nat)
    requires WholeDue(start, s) && interval % MS == 0 && interval > 0 && s.next <= now <= s.next + interval
    ensures WholeDue(start, Poll(s, interval, now))
  {
    StampsSnoc(start, s.ticks, now);
    IncreasingSnoc(Stamps(start, s.ticks), Stamp(start, now));
    WholeSteps(s.next - start, interval);
    WholeSteps(s.next - start + interval, interval);
    hide Stamps, StrictlyIncreasing;
    if s.ticks != [] {
      BoundaryBetween(s.ticks[|s.ticks| - 1] - start, now - start, s.next - start);
    }
  }

  /** In whole milliseconds and never more than an interval late, every due time is
      on a millisecond. */
  lemma {:induction false} OnTheMillisecond(start: nat, interval: nat, polls: seq<nat>, late: nat)
    requires Clock(start, polls) && Punctual(start, interval, polls, late)
    requires late <= interval && interval % MS == 0 && interval > 0
    ensures WholeDue(start, Polls(start, interval, polls))
  {
    hide WholeDue;
    if polls == [] {
      NothingDue(start);
    } else {
      var n := |polls| - 1;
      var s, now := Polls(start, interval, polls[..n]), polls[n];
      OnTheMillisecond(start, interval, polls[..n], late);
      if now >= s.next {
        DueInWhole(start, s, interval, now);
      }
    }
  }

  lemma {:induction false} NothingDue(start: nat)
    ensures WholeDue(start, Schedule(start, []))
  {}

  /** The first `n` ticks of a run that is never late. */
  function OnTime(interval: nat, n: nat): (ts: seq<nat>)
    ensures |ts| == n
  {
    seq(n, i requires 0 <= i => i * interval)
  }

  lemma {:induction false} OnTimeRun(interval: nat, n: nat, late: nat)
    requires interval > 0
    ensures Polls(0, interval, OnTime(interval, n)) == Schedule(n * interval, OnTime(interval, n))
    ensures Punctual(0, interval, OnTime(interval, n), late)
    ensures forall i, j :: 0 <= i < j < n ==> OnTime(interval, n)[i] <= OnTime(interval, n)[j] <= n * interval
  {
    if n > 0 {
      OnTimeRun(interval, n - 1, late);
      var ts := OnTime(interval, n);
      assert ts[..n - 1] == OnTime(interval, n - 1) && ts[n - 1] == (n - 1) * interval;
      assert n * interval == (n - 1) * interval + interval;
      assert ts == OnTime(interval, n - 1) + [(n - 1) * interval];
      forall i, j | 0 <= i < j < n
        ensures ts[i] <= ts[j] <= n * interval
      {
        Multiples(i, j, n, interval);
      }
    }
  }

  lemma {:induction false} Multiples(i: nat, j: nat, n: nat, interval: nat)
    requires i <= j <= n
    ensures i * interval <= j * interval <= n * interval
  {
    assert (j - i) * interval >= 0 && (n - j) * interval >= 0;
  }

  lemma {:induction false} PollsSnoc(start: nat, interval: nat, polls: seq<nat>, now: nat)
    ensures Polls(start, interval, polls + [now]) == Poll(Polls(start, interval, polls), interval, now)
    ensures forall late: nat :: Punctual(start, interval, polls + [now], late) <==>
              Punctual(start, interval, polls, late) && now <= Polls(start, interval, polls).next + late
  {
    assert (polls + [now])[..|polls|] == polls;
  }

  /** The last two ticks share a millisecond, and it is not that of the first. */
  predicate SharesLast(interval: nat, late: nat, polls: seq<nat>) {
    && Clock(0, polls) && Punctual(0, interval, polls, late) && Polls(0, interval, polls).ticks == polls
    && |polls| >= 2 && polls[0] / MS < polls[|polls| - 2] / MS == polls[|polls| - 1] / MS
  }

  lemma {:induction false} SharedStamp(interval: nat, late: nat, polls: seq<nat>)
    requires SharesLast(interval, late, polls)
    ensures !AlwaysDistinct(interval, late)
  {
    hide Clock, Punctual, Polls;
    var ms, i := Stamps(0, polls), |polls| - 2;
    assert ms[i] == Stamp(0, polls[i]) == Stamp(0, polls[i + 1]) == ms[i + 1];
  }

  /** On time up to tick `k - 1`, which comes `late`, then on time again. */
  function LateRun(k: nat, interval: nat, late: nat): seq<nat>
    requires k > 0
  {
    OnTime(interval, k - 1) + [(k - 1) * interval + late] + [k * interval]
  }

  lemma {:induction false} LateRunTicks(k: nat, interval: nat, late: nat)
    requires k > 0 && late < interval
    ensures Polls(0, interval, LateRun(k, interval, late)).ticks == LateRun(k, interval, late)
    ensures Punctual(0, interval, LateRun(k, interval, late), late)
  {
    var before, a, b := OnTime(interval, k - 1), (k - 1) * interval + late, k * interval;
    NextMultiple(k - 1, interval);
    OnTimeRun(interval, k - 1, late);
    hide OnTime, Punctual;
    PollsSnoc(0, interval, before, a);
    PollsSnoc(0, interval, before + [a], b);
  }

  lemma {:induction false} LateRunClock(k: nat, interval: nat, late: nat)
    requires k > 0 && late < interval
    ensures Clock(0, LateRun(k, interval, late))
  {
    OnTimeBelow(interval, k - 1);
    NextMultiple(k - 1, interval);
    hide OnTime;
  }

  lemma {:induction false} LateThenOnTime(k: nat, interval: nat, late: nat)
    requires k > 1 && late < interval && Past(k, interval) >= interval - late && k * interval >= MS
    ensures SharesLast(interval, late, LateRun(k, interval, late))
  {
    LateRunTicks(k, interval, late);
    LateRunClock(k, interval, late);
    NextMultiple(k - 1, interval);
    SameMillisecond((k - 1) * interval + late, k * interval);
    PastFirst(k * interval);
    var polls := LateRun(k, interval, late);
    assert polls[0] == 0 && polls[k - 1] == (k - 1) * interval + late && polls[k] == k * interval;
    hide Clock, Punctual, Polls, LateRun;
  }

  lemma {:induction false} PastFirst(a: nat)
    requires a >= MS
    ensures 0 / MS < a / MS
  {}

  lemma {:induction false} OnTimeBelow(interval: nat, n: nat)
    ensures forall i :: 0 <= i < n ==> OnTime(interval, n)[i] <= n * interval
    ensures forall i, j :: 0 <= i < j < n ==> OnTime(interval, n)[i] <= OnTime(interval, n)[j]
  {
    forall i, j | 0 <= i <= j < n
      ensures OnTime(interval, n)[i] <= OnTime(interval, n)[j] <= n * interval
    {
      Multiples(i, j, n, interval);
    }
  }

  lemma {:induction false} SameMillisecond(a: nat, b: nat)
    requires a <= b && b % MS >= b - a
    ensures a / MS == b / MS
  {
    assert b - b % MS == MS * (b / MS);
  }

  lemma {:induction false} PunctualGrows(start: nat, interval: nat, polls: seq<nat>, late: nat, later: nat)
    requires Punctual(start, interval, polls, late) && late <= later
    ensures Punctual(start, interval, polls, later)
  {
    if polls != [] {
      PunctualGrows(start, interval, polls[..|polls| - 1], late, later);
    }
  }

  lemma {:induction false} MovedTicks(interval: nat, late: nat)
    requires interval > 0 && late > interval
    ensures var polls := [0, 2 * interval + 1, 4 * interval, 4 * interval + 1];
            Polls(0, interval, polls).ticks == polls && Punctual(0, interval, polls, late)
  {
    var a, b, c := 2 * interval + 1, 4 * interval, 4 * interval + 1;
    PollsSnoc(0, interval, [], 0);
    PollsSnoc(0, interval, [0], a);
    PollsSnoc(0, interval, [0, a], b);
    PollsSnoc(0, interval, [0, a, b], c);
    assert [] + [0] == [0] && [0] + [a] == [0, a] && [0, a] + [b] == [0, a, b] && [0, a, b] + [c] == [0, a, b, c];
    assert Polls(0, interval, []) == Schedule(0, []) && Punctual(0, interval, [], late);
    hide Polls, Punctual;
    assert Polls(0, interval, [0]) == Schedule(interval, [0]);
    assert Polls(0, interval, [0, a]) == Schedule(3 * interval + 1, [0, a]);
    assert Polls(0, interval, [0, a, b]) == Schedule(4 * interval + 1, [0, a, b]);
  }

  lemma {:induction false} OneMore(a: nat)
    requires a % MS == 0
    ensures a / MS == (a + 1) / MS
  {}

  lemma {:induction false} FourTimes(interval: nat)
    requires interval % MS == 0
    ensures (4 * interval) / MS == (4 * interval + 1) / MS
  {
    MultipleOfWhole(4, interval);
    OneMore(4 * interval);
  }

  /** A tick more than an interval late moves the schedule off the millisecond. */
  lemma {:induction false} MovedOff(interval: nat, late: nat)
    requires interval > 0 && interval % MS == 0 && late > interval
    ensures SharesLast(interval, late, [0, 2 * interval + 1, 4 * interval, 4 * interval + 1])
  {
    MovedTicks(interval, late);
    FourTimes(interval);
    PastFirst(4 * interval);
    var polls := [0, 2 * interval + 1, 4 * interval, 4 * interval + 1];
    assert Clock(0, polls);
    hide Clock, Punctual, Polls;
  }

  lemma {:induction false} LateRunPast(interval: nat, late: nat, k: nat) returns (polls: seq<nat>)
    requires late < interval && Past(k, interval) >= interval - late
    ensures SharesLast(interval, late, polls)
  {
    PastIsPeriodic(k, interval);
    polls := LateRun(k + MS, interval, late);
    hide *;
    LateThenOnTime(k + MS, interval, late);
  }

  /** Where ticks are not told apart, some run ends in two that share a millisecond. */
  lemma {:induction false} SharingRun(interval: nat, late: nat) returns (polls: seq<nat>)
    requires interval > 0 && !Distinguishes(interval, late)
    ensures SharesLast(interval, late, polls)
  {
    hide Gcd, SharesLast, Past;
    if late < interval {
      var k := PastAttained(interval);
      polls := LateRunPast(interval, late, k);
    } else if interval % MS != 0 {
      PastOnce(interval);
      polls := LateRunPast(interval, interval - 1, 1);
      SharesLastLater(interval, interval - 1, late, polls);
    } else {
      MovedOff(interval, late);
      polls := [0, 2 * interval + 1, 4 * interval, 4 * interval + 1];
    }
  }

  lemma {:induction false} PastOnce(interval: nat)
    ensures Past(1, interval) == interval % MS
  {}

  lemma {:induction false} SharesLastLater(interval: nat, late: nat, later: nat, polls: seq<nat>)
    requires SharesLast(interval, late, polls) && late <= later
    ensures SharesLast(interval, later, polls)
  {
    PunctualGrows(0, interval, polls, late, later);
  }

  lemma {:induction false} OnScheduleIsDistinct(interval: nat, late: nat)
    requires late < interval && Distinguishes(interval, late)
    ensures AlwaysDistinct(interval, late)
  {
    forall start: nat, polls | Clock(start, polls) && Punctual(start, interval, polls, late)
      ensures StrictlyIncreasing(Stamps(start, Polls(start, interval, polls).ticks))
    {
      OnSchedule(start, interval, polls, late);
    }
  }

  lemma {:induction false} WholeIsDistinct(interval: nat)
    requires interval > 0 && interval % MS == 0
    ensures AlwaysDistinct(interval, interval)
  {
    forall start: nat, polls | Clock(start, polls) && Punctual(start, interval, polls, interval)
      ensures StrictlyIncreasing(Stamps(start, Polls(start, interval, polls).ticks))
    {
      OnTheMillisecond(start, interval, polls, interval);
    }
  }

  /** Exactly when ticks of an interval, each at most `late` after it was due, are
      told apart by their milliseconds, over every run of the sampler. */
  lemma {:induction false} StampsDistinct(interval: nat, late: nat)
    requires interval > 0
    ensures AlwaysDistinct(interval, late) <==> Distinguishes(interval, late)
  {
    hide AlwaysDistinct, SharesLast, Gcd;
    if !Distinguishes(interval, late) {
      var polls := SharingRun(interval, late);
      SharedStamp(interval, late, polls);
    } else if late < interval {
      OnScheduleIsDistinct(interval, late);
    } else {
      WholeIsDistinct(interval);
    }
  }

  /** What that means by the length of the interval: below a millisecond even ticks on
      time share stamps; from a millisecond on they do not, nor do those that leave a
      millisecond to the next one; in whole milliseconds, none up to an interval late. */
  lemma {:induction false} StampsByInterval(interval: nat, late: nat)
    requires interval > 0
    ensures interval < MS ==> !AlwaysDistinct(interval, late)
    ensures interval >= MS && late <= interval - MS ==> AlwaysDistinct(interval, late)
    ensures interval % MS == 0 && late <= interval ==> AlwaysDistinct(interval, late)
  {
    StampsDistinct(interval, late);
    GcdDivides(interval, MS);
    PastBound(1, interval);
    PastOnce(interval);
    var k := PastAttained(interval);
    hide AlwaysDistinct, Gcd, Divides;
    if interval % MS == 0 {
      MultipleOfWhole(k, interval);
    }
  }

  lemma {:induction false} MultipleOfWhole(k: nat, interval: nat)
    requires interval % MS == 0
    ensures k * interval % MS == 0
  {
    var q := interval / MS;
    assert k * interval == MS * (k * q) by {
      assert interval == MS * q;
    }
  }

  /** At three ticks a second: one that comes late, then one on time, share stamp 666. */
  lemma {:induction false} TicksMayShareMillisecond()
    ensures var polls := [0, 666666000, 666666666];
            && Clock(0, polls) && Polls(0, 333333333, polls).ticks == polls
            && Stamps(0, polls) == [0, 666, 666]
  {
    var interval := 333333333;
    PollsSnoc(0, interval, [], 0);
    PollsSnoc(0, interval, [] + [0], 666666000);
    PollsSnoc(0, interval, [] + [0] + [666666000], 666666666);
    assert [] + [0] + [666666000] + [666666666] == [0, 666666000, 666666666];
  }
}
