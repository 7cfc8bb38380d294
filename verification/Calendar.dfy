/** The timestamp arithmetic behind result-directory names. The closed-form
    conversion is related to a Gregorian calendar stepped one day at a time. */
module Calendar {
  import opened Text

  datatype Date = Date(year: int, month: int, day: int)

  datatype DateTime = DateTime(date: Date, hour: nat, minute: nat, second: nat)

  // ----- The calendar itself: leap years, month lengths, the next day -----

  predicate IsLeap(y: int) {
    y % 4 == 0 && (y % 100 != 0 || y % 400 == 0)
  }

  function DaysInMonth(y: int, m: int): int {
    if m == 2 then (if IsLeap(y) then 29 else 28)
    else if m == 4 || m == 6 || m == 9 || m == 11 then 30
    else 31
  }

  predicate ValidDate(d: Date) {
    1 <= d.month <= 12 && 1 <= d.day <= DaysInMonth(d.year, d.month)
  }

  function NextDay(d: Date): Date {
    if d.day < DaysInMonth(d.year, d.month) then d.(day := d.day + 1)
    else if d.month < 12 then Date(d.year, d.month + 1, 1)
    else Date(d.year + 1, 1, 1)
  }

  const EPOCH := Date(1970, 1, 1)

  /** The date `n` days after the epoch, by walking the calendar. */
  function WalkDays(n: nat): Date {
    if n == 0 then EPOCH else NextDay(WalkDays(n - 1))
  }

  // ----- The closed form -----

  const ERA_DAYS := 146_097

  /** Rust's `/` on signed integers: the quotient is truncated toward zero. */
  function TruncDiv(a: int, b: int): int
    requires b > 0
  {
    if a >= 0 then a / b else -((-a) / b)
  }

  function Era(z: int): int {
    TruncDiv(if z >= 0 then z else z - 146_096, ERA_DAYS)
  }

  /** Year of the era from the day of the era. */
  function YearOfEra(doe: nat): nat
    requires doe < ERA_DAYS
  {
    (doe - doe / 1_460 + doe / 36_524 - doe / 146_096) / 365
  }

  /** Days of an era before its year `yoe`. */
  function YearStart(yoe: nat): int {
    365 * yoe + yoe / 4 - yoe / 100
  }

  /** The date of a day counted from 1970-01-01. Years run from March inside. */
  function CivilFromDays(days: int): Date {
    var z := days + 719_468;
    var era := Era(z);
    var doe := z - era * ERA_DAYS;
    EraFloor(z);
    var yoe := YearOfEra(doe);
    var y := yoe + era * 400;
    var doy := doe - YearStart(yoe);
    MarchDate(y, doy)
  }

  function CivilFromUnix(unixSecs: nat): DateTime {
    var rem := unixSecs % 86_400;
    DateTime(CivilFromDays(unixSecs / 86_400), rem / 3_600, rem % 3_600 / 60, rem % 60)
  }

  lemma {:induction false} EraFloor(z: int)
    ensures 0 <= z - Era(z) * ERA_DAYS < ERA_DAYS
  {
  }

  /** The last day of an era belongs to a leap year, so year 399 is one longer. */
  function YearEnd(yoe: nat): int
    requires yoe < 400
  {
    if yoe == 399 then ERA_DAYS else YearStart(yoe + 1)
  }

  function YearOfCenturyAt(b: nat, r: nat): int {
    (r - (24 * b + r) / 1_460) / 365
  }

  /** Within a century: four-year cycles of 1461 days, the last one cut short. */
  lemma {:induction false} YearOfCentury(b: nat, r: nat)
    requires b <= 3 && r < 36_524
    ensures var c := YearOfCenturyAt(b, r);
            0 <= c <= 99 && 365 * c + c / 4 <= r && (c < 99 ==> r < 365 * (c + 1) + (c + 1) / 4)
  {
    var k, t := r / 1_461, r % 1_461;
    assert k <= 24;
    var carry := if 24 * b + k + t >= 1_460 then 1 else 0;
    assert (24 * b + r) / 1_460 == k + carry;
    var j := (t - carry) / 365;
    assert 0 <= j <= 3;
    var c := YearOfCenturyAt(b, r);
    assert c == 4 * k + j;
    assert c / 4 == k;
  }

  lemma {:induction false} YearOfEraSplits(doe: nat, b: nat, r: nat)
    requires doe == 36_524 * b + r && r < 36_524 && doe < 146_096
    ensures YearOfEra(doe) == 100 * b + YearOfCenturyAt(b, r)
  {
    assert doe / 36_524 == b;
    assert doe / 1_460 == 25 * b + (24 * b + r) / 1_460;
  }

  lemma {:induction false} YearStartSplits(b: nat, c: nat)
    requires c < 100
    ensures YearStart(100 * b + c) == 36_524 * b + 365 * c + c / 4
  {
    assert (100 * b + c) / 4 == 25 * b + c / 4;
    assert (100 * b + c) / 100 == b;
  }

  lemma {:induction false} YearOfEraBracket(doe: nat)
    requires doe < ERA_DAYS
    ensures YearOfEra(doe) < 400
    ensures YearStart(YearOfEra(doe)) <= doe < YearEnd(YearOfEra(doe))
  {
    if doe == 146_096 {
      assert YearOfEra(doe) == 399;
    } else {
      var b, r := doe / 36_524, doe % 36_524;
      YearOfCentury(b, r);
      YearOfEraSplits(doe, b, r);
      BracketAt(doe, b, r, YearOfCenturyAt(b, r));
    }
  }

  lemma {:induction false} BracketAt(doe: nat, b: nat, r: nat, c: nat)
    requires b <= 3 && r < 36_524 && c <= 99 && doe == 36_524 * b + r
    requires 365 * c + c / 4 <= r && (c < 99 ==> r < 365 * (c + 1) + (c + 1) / 4)
    ensures 100 * b + c < 400 && YearStart(100 * b + c) <= doe < YearEnd(100 * b + c)
  {
    YearStartSplits(b, c);
    if c < 99 {
      YearStartSplits(b, c + 1);
    } else {
      YearStartSplits(b + 1, 0);
    }
  }

  /** The split of two consecutive years: a century begins with a leap year's day. */
  lemma {:induction false} YearStartStep(b: nat, c: nat)
    requires c < 100
    ensures YearStart(100 * b + c) + 365 <= YearStart(100 * b + c + 1)
  {
    YearStartSplits(b, c);
    if c < 99 {
      YearStartSplits(b, c + 1);
    } else {
      YearStartSplits(b + 1, 0);
    }
  }

  lemma {:induction false} YearStartMonotone(y: nat, w: nat)
    requires y <= w
    ensures YearStart(y) + 365 * (w - y) <= YearStart(w)
  {
    hide YearStart;
    if y < w {
      YearStartMonotone(y, w - 1);
      YearStartStep((w - 1) / 100, (w - 1) % 100);
    }
  }

  /** The bracket determines the year. */
  lemma {:induction false} YearOfEraUnique(doe: nat, yoe: nat)
    requires doe < ERA_DAYS && yoe < 400
    requires YearStart(yoe) <= doe < YearEnd(yoe)
    ensures YearOfEra(doe) == yoe
  {
    YearOfEraBracket(doe);
    var w := YearOfEra(doe);
    if w < yoe {
      YearStartMonotone(w + 1, yoe);
    } else if yoe < w {
      YearStartMonotone(yoe + 1, w);
    }
  }

  /** The leap rule repeats every 400 years. */
  lemma {:induction false} LeapPeriod(y: int, era: int)
    ensures IsLeap(y + 400 * era) == IsLeap(y)
  {
    ModShift(y, 4, 100 * era);
    ModShift(y, 100, 4 * era);
    ModShift(y, 400, era);
  }

  lemma {:induction false} ModShift(a: int, m: int, k: int)
    requires m > 0
    ensures (a + m * k) % m == a % m
  {
    var q, r := a / m, a % m;
    assert a + m * k == m * (q + k) + r;
    DivModUnique(a + m * k, m, q + k, r);
  }

  lemma {:induction false} DivModUnique(a: int, m: int, q: int, r: int)
    requires m > 0 && a == m * q + r && 0 <= r < m
    ensures a / m == q && a % m == r
  {
    var q', r' := a / m, a % m;
    assert m * (q - q') == r' - r;
    assert q - q' >= 1 ==> m * (q - q') >= m;
    assert q - q' <= -1 ==> m * (q - q') <= -m;
  }

  /** A March-based year of the era has 366 days just when it ends in a leap February. */
  lemma {:induction false} YearLength(era: int, yoe: nat)
    requires yoe < 400
    ensures YearEnd(yoe) - YearStart(yoe) == MarchYearDays(yoe + era * 400)
  {
    var w := yoe + 1;
    LeapPeriod(w, era);
    assert w / 4 - yoe / 4 == if w % 4 == 0 then 1 else 0;
    assert w / 100 - yoe / 100 == if w % 100 == 0 then 1 else 0;
    if w < 400 {
      assert w % 400 != 0;
    }
  }

  /** The date at day `doy` of the March-based year `y`. */
  function MarchDate(y: int, doy: int): Date {
    var mp := TruncDiv(5 * doy + 2, 153);
    var d := doy - TruncDiv(153 * mp + 2, 5) + 1;
    var m := if mp < 10 then mp + 3 else mp - 9;
    Date(if m <= 2 then y + 1 else y, m, d)
  }

  function MarchYearDays(y: int): int {
    if IsLeap(y + 1) then 366 else 365
  }

  lemma {:induction false} MarchDateStep(y: int, doy: int)
    requires 0 <= doy < MarchYearDays(y)
    ensures ValidDate(MarchDate(y, doy))
    ensures NextDay(MarchDate(y, doy))
         == if doy + 1 < MarchYearDays(y) then MarchDate(y, doy + 1) else MarchDate(y + 1, 0)
  {
  }

  /** Era, March-based year of the era and day of that year: the mixed-radix
      digits of a day number. */
  datatype Digits = Digits(era: int, yoe: nat, doy: int) {
    predicate Valid() {
      yoe < 400 && 0 <= doy < YearEnd(yoe) - YearStart(yoe)
    }

    function DayNumber(): int {
      era * ERA_DAYS + YearStart(yoe) + doy - 719_468
    }

    function ToDate(): Date {
      MarchDate(yoe + era * 400, doy)
    }

    /** The digits of the following day, carrying into the year and the era. */
    function Next(): Digits
      requires Valid()
    {
      if doy + 1 < YearEnd(yoe) - YearStart(yoe) then Digits(era, yoe, doy + 1)
      else if yoe < 399 then Digits(era, yoe + 1, 0)
      else Digits(era + 1, 0, 0)
    }
  }

  lemma {:induction false} EraUnique(z: int, era: int, doe: int)
    requires z == era * ERA_DAYS + doe && 0 <= doe < ERA_DAYS
    ensures Era(z) == era
  {
    EraFloor(z);
  }

  lemma {:induction false} CivilUnfolds(days: int, era: int, yoe: nat, doe: nat)
    requires Era(days + 719_468) == era && days + 719_468 - era * ERA_DAYS == doe
    requires doe < ERA_DAYS && YearOfEra(doe) == yoe
    ensures CivilFromDays(days) == MarchDate(yoe + era * 400, doe - YearStart(yoe))
  {
    hide Era, YearOfEra, YearStart, MarchDate;
  }

  /** The closed form computes the digits of its day. */
  lemma {:induction false} CivilAt(g: Digits)
    requires g.Valid()
    ensures CivilFromDays(g.DayNumber()) == g.ToDate()
  {
    YearStartMonotone(0, g.yoe);
    YearStartMonotone(g.yoe, 399);
    var doe := YearStart(g.yoe) + g.doy;
    EraUnique(g.DayNumber() + 719_468, g.era, doe);
    YearOfEraUnique(doe, g.yoe);
    CivilUnfolds(g.DayNumber(), g.era, g.yoe, doe);
  }

  lemma {:induction false} CivilDigits(days: int) returns (g: Digits)
    ensures g.Valid() && days == g.DayNumber()
  {
    var era := Era(days + 719_468);
    EraFloor(days + 719_468);
    var doe := days + 719_468 - era * ERA_DAYS;
    YearOfEraBracket(doe);
    g := Digits(era, YearOfEra(doe), doe - YearStart(YearOfEra(doe)));
  }

  lemma {:induction false} NextDigitsStep(g: Digits)
    requires g.Valid()
    ensures g.Next().Valid() && g.Next().DayNumber() == g.DayNumber() + 1
  {
    if g.yoe < 399 {
      YearStartMonotone(g.yoe + 1, if g.yoe == 398 then 399 else g.yoe + 2);
    }
  }

  lemma {:induction false} NextDigitsDate(g: Digits)
    requires g.Valid()
    ensures ValidDate(g.ToDate())
    ensures g.Next().ToDate() == NextDay(g.ToDate())
  {
    YearLength(g.era, g.yoe);
    MarchDateStep(g.yoe + g.era * 400, g.doy);
  }

  lemma {:induction false} CivilStepAt(g: Digits, days: int, next: int)
    requires g.Valid() && days == g.DayNumber() && next == g.Next().DayNumber() && g.Next().Valid()
    ensures ValidDate(CivilFromDays(days))
    ensures CivilFromDays(next) == NextDay(CivilFromDays(days))
  {
    CivilAt(g);
    CivilAt(g.Next());
    NextDigitsDate(g);
  }

  /** The closed form is a valid date, and adding one to its argument is the
      next day of the calendar, for every day number, before or after 1970. */
  lemma {:induction false} CivilStep(days: int)
    ensures ValidDate(CivilFromDays(days))
    ensures CivilFromDays(days + 1) == NextDay(CivilFromDays(days))
  {
    var g := CivilDigits(days);
    NextDigitsStep(g);
    CivilStepAt(g, days, days + 1);
  }

  // ----- Main results on days -----

  lemma {:induction false} CivilAtEpoch()
    ensures CivilFromDays(0) == EPOCH
  {
    CivilAt(Digits(4, 369, 306));
  }

  lemma {:induction false} CivilFollows(n: nat, next: nat, d: Date)
    requires next == n + 1 && CivilFromDays(n) == d
    ensures CivilFromDays(next) == NextDay(d)
  {
    CivilStep(n);
  }

  /** The closed form is the walk. */
  lemma {:induction false} CivilIsWalk(n: nat)
    ensures CivilFromDays(n) == WalkDays(n)
  {
    if n == 0 {
      CivilAtEpoch();
    } else {
      CivilIsWalk(n - 1);
      CivilFollows(n - 1, n, WalkDays(n - 1));
    }
  }

  predicate Before(a: Date, b: Date) {
    a.year < b.year || (a.year == b.year && (a.month < b.month || (a.month == b.month && a.day < b.day)))
  }

  lemma {:induction false} WalkIsValid(n: nat)
    ensures ValidDate(WalkDays(n)) && WalkDays(n).year >= 1970
  {
    if n > 0 {
      WalkIsValid(n - 1);
    }
  }

  lemma {:induction false} WalkIncreases(m: nat, n: nat)
    requires m < n
    ensures Before(WalkDays(m), WalkDays(n))
  {
    WalkIsValid(n - 1);
    if m < n - 1 {
      WalkIncreases(m, n - 1);
    }
  }

  // ----- Main results on seconds -----

  /** The reference reading of a timestamp: walk the days, split the rest. */
  function WalkFromUnix(u: nat): DateTime {
    DateTime(WalkDays(u / 86_400), u % 86_400 / 3_600, u % 86_400 % 3_600 / 60, u % 86_400 % 60)
  }

  predicate TimeBefore(a: DateTime, b: DateTime) {
    Before(a.date, b.date)
    || (a.date == b.date
        && (a.hour < b.hour || (a.hour == b.hour && (a.minute < b.minute || (a.minute == b.minute && a.second < b.second)))))
  }

  predicate ClockRange(t: DateTime) {
    ValidDate(t.date) && t.date.year >= 1970 && t.hour < 24 && t.minute < 60 && t.second < 60
  }

  function SecondOfDay(t: DateTime): nat {
    t.hour * 3_600 + t.minute * 60 + t.second
  }

  lemma {:induction false} WalkFromUnixValid(u: nat)
    ensures ClockRange(WalkFromUnix(u)) && SecondOfDay(WalkFromUnix(u)) == u % 86_400
  {
    WalkIsValid(u / 86_400);
    var rem := u % 86_400;
    assert rem % 3_600 % 60 == rem % 60;
  }

  lemma {:induction false} WalkFromUnixIncreases(u: nat, v: nat)
    requires u < v
    ensures TimeBefore(WalkFromUnix(u), WalkFromUnix(v))
  {
    WalkFromUnixValid(u);
    WalkFromUnixValid(v);
    if u / 86_400 < v / 86_400 {
      WalkIncreases(u / 86_400, v / 86_400);
    } else {
      assert u % 86_400 < v % 86_400;
    }
  }

  /** Every timestamp is the walked date, at a time of day that recombines to
      the seconds left over. */
  lemma {:induction false} CivilFromUnixIsWalk(u: nat)
    ensures CivilFromUnix(u) == WalkFromUnix(u)
    ensures ClockRange(CivilFromUnix(u)) && SecondOfDay(CivilFromUnix(u)) == u % 86_400
  {
    CivilIsWalk(u / 86_400);
    WalkFromUnixValid(u);
  }

  /** Strictly increasing in lexicographic order. */
  lemma {:induction false} CivilFromUnixIncreases(u: nat, v: nat)
    requires u < v
    ensures TimeBefore(CivilFromUnix(u), CivilFromUnix(v))
  {
    CivilFromUnixIsWalk(u);
    CivilFromUnixIsWalk(v);
    WalkFromUnixIncreases(u, v);
  }

  // ----- The directory stamp -----

  /** `{m:02}{d:02}-{hh:02}{mm:02}{ss:02}` */
  function StampTail(t: DateTime): string
    requires ClockRange(t)
  {
    Padded(t.date.month, 2) + (Padded(t.date.day, 2) + ("-" +
      (Padded(t.hour, 2) + (Padded(t.minute, 2) + Padded(t.second, 2)))))
  }

  /** `YYYYMMDD-HHMMSS`, the year padded to at least four digits. */
  function Stamp(t: DateTime): string
    requires ClockRange(t)
  {
    Padded(t.date.year, 4) + StampTail(t)
  }

  function FormatTimestamp(unixSecs: nat): string {
    CivilFromUnixIsWalk(unixSecs);
    Stamp(CivilFromUnix(unixSecs))
  }

  function WalkStamp(u: nat): string {
    WalkFromUnixValid(u);
    Stamp(WalkFromUnix(u))
  }

  lemma {:induction false} FormatTimestampIsWalk(u: nat)
    ensures FormatTimestamp(u) == WalkStamp(u)
  {
    CivilFromUnixIsWalk(u);
  }

  /** The number that two characters from `i` on denote. */
  function Pair(s: string, i: nat): nat
    requires i + 2 <= |s| && AllDigits(s[i..i + 2])
  {
    Value(s[i..i + 2])
  }

  predicate Digits2(s: string, i: nat) {
    i + 2 <= |s| && AllDigits(s[i..i + 2])
  }

  lemma {:induction false} Slice(front: string, mid: string, back: string)
    requires |mid| == 2
    ensures var s := front + (mid + back); |s| == |front| + 2 + |back| && s[|front|..|front| + 2] == mid
  {}

  lemma {:induction false} PairIs(n: nat, front: string, back: string)
    requires n < 100
    ensures |Padded(n, 2)| == 2
    ensures var s := front + (Padded(n, 2) + back); Digits2(s, |front|) && Pair(s, |front|) == n
  {
    TwoDigits(n, n);
    ValueOfPadded(n, 2);
    Slice(front, Padded(n, 2), back);
    hide Padded, Value;
  }

  /** The fields `a .. e` after `y`, each in turn behind all that precedes it. */
  lemma {:induction false} Fields(y: string, a: string, b: string, c: string, d: string, e: string)
    requires |a| == |b| == |c| == |d| == |e| == 2
    ensures var s := y + (a + (b + ("-" + (c + (d + e)))));
            && |s| == |y| + 11 && s[|y| + 4] == '-' && s[..|y|] == y
            && s == (y + a) + (b + ("-" + (c + (d + e)))) && |y + a| == |y| + 2
            && s == (y + a + b + "-") + (c + (d + e)) && |y + a + b + "-"| == |y| + 5
            && s == (y + a + b + "-" + c) + (d + e) && |y + a + b + "-" + c| == |y| + 7
            && s == (y + a + b + "-" + c + d) + (e + "") && |y + a + b + "-" + c + d| == |y| + 9
  {}

  /** The fields of a tail, read where they stand after whatever precedes it. */
  lemma {:induction false} TailReads(t: DateTime, year: string)
    requires ClockRange(t)
    ensures var (s, k) := (year + StampTail(t), |year|);
            && |s| == k + 11 && s[k + 4] == '-' && s[..k] == year
            && Digits2(s, k) && Pair(s, k) == t.date.month && Digits2(s, k + 2) && Pair(s, k + 2) == t.date.day
            && Digits2(s, k + 5) && Pair(s, k + 5) == t.hour && Digits2(s, k + 7) && Pair(s, k + 7) == t.minute
            && Digits2(s, k + 9) && Pair(s, k + 9) == t.second
  {
    var mo, d, h, mi, sec := Padded(t.date.month, 2), Padded(t.date.day, 2), Padded(t.hour, 2), Padded(t.minute, 2), Padded(t.second, 2);
    assert StampTail(t) == mo + (d + ("-" + (h + (mi + sec))));
    assert t.date.month < 100 && t.date.day < 100 && t.hour < 100 && t.minute < 100 && t.second < 100;
    hide *;
    PairIs(t.date.month, year, d + ("-" + (h + (mi + sec))));
    PairIs(t.date.day, year + mo, "-" + (h + (mi + sec)));
    PairIs(t.hour, year + mo + d + "-", mi + sec);
    PairIs(t.minute, year + mo + d + "-" + h, sec);
    PairIs(t.second, year + mo + d + "-" + h + mi, "");
    Fields(year, mo, d, h, mi, sec);
  }

  /** `s` is `YYYYMMDD-HHMMSS` for a date and a second of its day, with four digits of
      the year or as many as it takes. */
  predicate Reads(s: string, date: Date, second: nat) {
    |s| >= 15 && var k := |s| - 11;
    && AllDigits(s[..k]) && Value(s[..k]) == date.year && (k == 4 <==> date.year <= 9_999) && s[k + 4] == '-'
    && Digits2(s, k) && Pair(s, k) == date.month && Digits2(s, k + 2) && Pair(s, k + 2) == date.day
    && Digits2(s, k + 5) && Digits2(s, k + 7) && Digits2(s, k + 9) && Pair(s, k + 7) < 60 && Pair(s, k + 9) < 60
    && Pair(s, k + 5) * 3_600 + Pair(s, k + 7) * 60 + Pair(s, k + 9) == second
  }

  lemma {:induction false} StampOfTime(t: DateTime)
    requires ClockRange(t)
    ensures Reads(Stamp(t), t.date, SecondOfDay(t))
  {
    hide *;
    var year := StampYear(t);
    TailReads(t, year);
    ReadsFields(Stamp(t), year, t);
  }

  lemma {:induction false} StampYear(t: DateTime) returns (year: string)
    requires ClockRange(t)
    ensures Stamp(t) == year + StampTail(t) && |year| >= 4 && AllDigits(year) && Value(year) == t.date.year
    ensures |year| == 4 <==> t.date.year <= 9_999
  {
    hide StampTail, Value, Padded, ValidDate;
    year := Padded(t.date.year, 4);
    ValueOfPadded(t.date.year, 4);
    FourDigits(t.date.year);
  }

  lemma {:induction false} ReadsFields(s: string, year: string, t: DateTime)
    requires ClockRange(t) && |year| >= 4 && AllDigits(year) && Value(year) == t.date.year
    requires (|year| == 4 <==> t.date.year <= 9_999)
    requires var k := |year|;
      && |s| == k + 11 && s[k + 4] == '-' && s[..k] == year
      && Digits2(s, k) && Pair(s, k) == t.date.month && Digits2(s, k + 2) && Pair(s, k + 2) == t.date.day
      && Digits2(s, k + 5) && Pair(s, k + 5) == t.hour && Digits2(s, k + 7) && Pair(s, k + 7) == t.minute
      && Digits2(s, k + 9) && Pair(s, k + 9) == t.second
    ensures Reads(s, t.date, SecondOfDay(t))
  {
    hide Pair, Digits2, Value, AllDigits, ValidDate;
  }

  /** A stamp reads back as the walked date and the second of the day. */
  lemma {:induction false} StampReads(u: nat)
    ensures Reads(FormatTimestamp(u), WalkDays(u / 86_400), u % 86_400)
  {
    WalkFromUnixValid(u);
    FormatTimestampIsWalk(u);
    StampOfTime(WalkFromUnix(u));
    hide Reads, Stamp, WalkDays, FormatTimestamp;
  }

  lemma {:induction false} TwoDigits(a: nat, b: nat)
    requires a < 100 && b < 100
    ensures |Padded(a, 2)| == |Padded(b, 2)| == 2
    ensures Less(Padded(a, 2), Padded(b, 2)) <==> a < b
    ensures Padded(a, 2) == Padded(b, 2) <==> a == b
  {
    assert Pow10(2) == 10 * Pow10(1) == 10 * 10 * Pow10(0);
    PaddedLength(a, 2);
    PaddedLength(b, 2);
    ValueOfPadded(a, 2);
    ValueOfPadded(b, 2);
    LessIsNumeric(Padded(a, 2), Padded(b, 2));
  }

  /** The order of two tails, by their fields. */
  lemma {:induction false} StampTailOrder(s: DateTime, t: DateTime)
    requires ClockRange(s) && ClockRange(t)
    ensures |StampTail(s)| == |StampTail(t)| == 11
    ensures Less(StampTail(s), StampTail(t)) <==> TimeBefore(s.(date := s.date.(year := 0)), t.(date := t.date.(year := 0)))
    ensures StampTail(s) == StampTail(t) <==> s.(date := s.date.(year := 0)) == t.(date := t.date.(year := 0))
  {
    var m, d, m', d' := s.date.month, s.date.day, t.date.month, t.date.day;
    TwoDigits(m, m');
    TwoDigits(d, d');
    TwoDigits(s.hour, t.hour);
    TwoDigits(s.minute, t.minute);
    TwoDigits(s.second, t.second);
    var s4, t4 := Padded(s.minute, 2) + Padded(s.second, 2), Padded(t.minute, 2) + Padded(t.second, 2);
    ConcatOrder(Padded(s.minute, 2), Padded(t.minute, 2), Padded(s.second, 2), Padded(t.second, 2));
    var s3, t3 := Padded(s.hour, 2) + s4, Padded(t.hour, 2) + t4;
    ConcatOrder(Padded(s.hour, 2), Padded(t.hour, 2), s4, t4);
    LessIrreflexive("-");
    ConcatOrder("-", "-", s3, t3);
    ConcatOrder(Padded(d, 2), Padded(d', 2), "-" + s3, "-" + t3);
    ConcatOrder(Padded(m, 2), Padded(m', 2), Padded(d, 2) + ("-" + s3), Padded(d', 2) + ("-" + t3));
  }

  lemma {:induction false} ConcatOrder(a: string, b: string, c: string, d: string)
    requires |a| == |b|
    ensures Less(a + c, b + d) <==> Less(a, b) || (a == b && Less(c, d))
    ensures a + c == b + d <==> a == b && c == d
  {
    LessOfConcat(a, b, c, d);
    if a + c == b + d {
      assert a == (a + c)[..|a|] == (b + d)[..|a|] == b;
      assert c == (a + c)[|a|..] == (b + d)[|a|..] == d;
    }
  }

  /** First second of the year 10000. */
  const YEAR_10000 := 253_402_300_800

  /** The walked date of a day given by its digits. */
  lemma {:induction false} WalkAt(g: Digits, n: nat)
    requires g.Valid() && n == g.DayNumber()
    ensures WalkDays(n) == g.ToDate()
  {
    CivilIsWalk(n);
    CivilAt(g);
  }

  lemma {:induction false} TurnOfYear10000(last: nat, first: nat)
    requires first == 2_932_897 && last == first - 1
    ensures WalkDays(last) == Date(9_999, 12, 31)
    ensures WalkDays(first) == Date(10_000, 1, 1)
  {
    WalkAt(Digits(24, 399, 305), last);
    WalkAt(Digits(24, 399, 306), first);
  }

  lemma {:induction false} YearBelow10000(u: nat, last: nat, first: nat)
    requires first == 2_932_897 && last == first - 1
    ensures WalkFromUnix(u).date.year <= 9_999 <==> u < YEAR_10000
  {
    TurnOfYear10000(last, first);
    var n := u / 86_400;
    if n > first {
      WalkIncreases(first, n);
    } else if n < last {
      WalkIncreases(n, last);
    }
  }

  lemma {:induction false} FourDigits(y: nat)
    ensures |Padded(y, 4)| == 4 <==> y <= 9_999
  {
    assert Pow10(4) == 10 * Pow10(3) == 10 * 10 * Pow10(2) == 10 * 10 * 10 * Pow10(1) == 10_000 * Pow10(0);
    PaddedLength(y, 4);
  }

  lemma {:induction false} WalkStampsSort(u: nat, v: nat)
    requires u < v < YEAR_10000
    ensures Less(WalkStamp(u), WalkStamp(v))
  {
    var s, t := WalkFromUnix(u), WalkFromUnix(v);
    WalkFromUnixValid(u);
    WalkFromUnixValid(v);
    WalkFromUnixIncreases(u, v);
    var last := 2_932_896;
    YearBelow10000(u, last, last + 1);
    YearBelow10000(v, last, last + 1);
    YearOrder(s.date.year, t.date.year);
    LessOfConcat(Padded(s.date.year, 4), Padded(t.date.year, 4), StampTail(s), StampTail(t));
    StampTailOrder(s, t);
  }

  lemma {:induction false} YearOrder(y: nat, w: nat)
    requires y <= 9_999 && w <= 9_999
    ensures |Padded(y, 4)| == |Padded(w, 4)|
    ensures Less(Padded(y, 4), Padded(w, 4)) <==> y < w
    ensures Padded(y, 4) == Padded(w, 4) <==> y == w
  {
    FourDigits(y);
    FourDigits(w);
    ValueOfPadded(y, 4);
    ValueOfPadded(w, 4);
    LessIsNumeric(Padded(y, 4), Padded(w, 4));
  }

  /** Up to the end of year 9999 stamps sort as strings in time order. */
  lemma {:induction false} StampsSortInTimeOrder(u: nat, v: nat)
    requires u < v < YEAR_10000
    ensures Less(FormatTimestamp(u), FormatTimestamp(v))
  {
    FormatTimestampIsWalk(u);
    FormatTimestampIsWalk(v);
    WalkStampsSort(u, v);
  }

  lemma {:induction false} StampStart(u: nat)
    ensures WalkStamp(u) != [] && WalkStamp(u)[0] == Padded(WalkFromUnix(u).date.year, 4)[0]
  {
    WalkFromUnixValid(u);
  }

  lemma {:induction false} FirstCharDecides(a: string, b: string)
    requires a != [] && b != [] && a[0] > b[0]
    ensures !Less(a, b)
  {}

  /** The last stamp of 9999 begins with a 9, the first of 10000 with a 1. */
  lemma {:induction false} StampsBreakAtYear10000(u: nat, v: nat)
    requires v == YEAR_10000 && u == v - 1
    ensures !Less(FormatTimestamp(u), FormatTimestamp(v))
  {
    TurnOfYear10000(u / 86_400, v / 86_400);
    FormatTimestampIsWalk(u);
    FormatTimestampIsWalk(v);
    StampStart(u);
    StampStart(v);
    hide Padded, WalkStamp, FormatTimestamp, Less;
    FirstDigits(WalkFromUnix(u).date.year, WalkFromUnix(v).date.year);
    FirstCharDecides(WalkStamp(u), WalkStamp(v));
  }

  lemma {:induction false} FirstDigits(y: nat, w: nat)
    requires y == 9_999 && w == 10_000
    ensures Padded(y, 4)[0] == '9' && Padded(w, 4)[0] == '1'
  {
    FourDigits(y);
    FourDigits(w);
    assert y / 10 / 10 / 10 == 9 && w / 10 / 10 / 10 / 10 == 1;
    assert Decimal(y / 10 / 10)[0] == Decimal(y / 10 / 10 / 10)[0] == '9';
    assert Decimal(w / 10 / 10 / 10)[0] == Decimal(w / 10 / 10 / 10 / 10)[0] == '1';
    assert Decimal(w)[0] == Decimal(w / 10)[0] == Decimal(w / 10 / 10)[0];
  }

  /** The bound is exact: the stamps of all seconds before `bound` sort in time
      order if and only if `bound` does not pass the end of year 9999. */
  lemma {:induction false} StampOrderBound(bound: nat)
    ensures (forall u: nat, v: nat :: u < v < bound ==> Less(FormatTimestamp(u), FormatTimestamp(v)))
       <==> bound <= YEAR_10000
  {
    if bound <= YEAR_10000 {
      forall u: nat, v: nat | u < v < bound
        ensures Less(FormatTimestamp(u), FormatTimestamp(v))
      {
        StampsSortInTimeOrder(u, v);
      }
    } else {
      StampsBreakAtYear10000(YEAR_10000 - 1, YEAR_10000);
    }
  }

  lemma {:induction false} WalkStampsAreDistinct(u: nat, v: nat)
    requires WalkStamp(u) == WalkStamp(v)
    ensures u == v
  {
    var s, t := WalkFromUnix(u), WalkFromUnix(v);
    WalkFromUnixValid(u);
    WalkFromUnixValid(v);
    StampTailOrder(s, t);
    var y, w := Padded(s.date.year, 4), Padded(t.date.year, 4);
    assert |y| == |WalkStamp(u)| - 11 == |w|;
    ConcatOrder(y, w, StampTail(s), StampTail(t));
    ValueOfPadded(s.date.year, 4);
    ValueOfPadded(t.date.year, 4);
    if u < v {
      WalkFromUnixIncreases(u, v);
    } else if v < u {
      WalkFromUnixIncreases(v, u);
    }
  }

  /** Distinct seconds have distinct stamps, in every year. */
  lemma {:induction false} StampsAreDistinct(u: nat, v: nat)
    ensures FormatTimestamp(u) == FormatTimestamp(v) <==> u == v
  {
    FormatTimestampIsWalk(u);
    FormatTimestampIsWalk(v);
    if WalkStamp(u) == WalkStamp(v) {
      WalkStampsAreDistinct(u, v);
    }
  }
}
