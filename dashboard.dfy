/** The two time formatters of the admin dashboard. Clock readings are
    milliseconds since the epoch and are parameters; the divisions of the
    relative-time label are done on reals, as the page divides numbers. */
module Dashboard {
  import opened Base
  import opened Text

  const Year: nat := 31536000
  const Month: nat := 2592000
  const Day: nat := 86400
  const Hour: nat := 3600
  const Minute: nat := 60

  // ---------------------------------------------------------------------------
  // timeAgo

  /** Whole seconds from `then` to `now`, rounded down (`Math.floor` of the
      millisecond difference over 1000; Dafny's division by a positive number
      rounds down as well). */
  function Elapsed(nowMs: int, thenMs: int): int {
    (nowMs - thenMs) / 1000
  }

  /** `seconds / divisor` as the page computes it. */
  function Interval(seconds: int, divisor: nat): real
    requires divisor > 0
  {
    (seconds as real) / (divisor as real)
  }

  /** The label for an elapsed number of seconds: the first of years, months,
      days, hours and minutes whose interval is above 1, else the seconds. */
  function AgoLabel(seconds: int): string {
    if Interval(seconds, Year) > 1.0 then IntToString(Interval(seconds, Year).Floor) + " years ago"
    else if Interval(seconds, Month) > 1.0 then IntToString(Interval(seconds, Month).Floor) + " months ago"
    else if Interval(seconds, Day) > 1.0 then IntToString(Interval(seconds, Day).Floor) + " days ago"
    else if Interval(seconds, Hour) > 1.0 then IntToString(Interval(seconds, Hour).Floor) + " hours ago"
    else if Interval(seconds, Minute) > 1.0 then IntToString(Interval(seconds, Minute).Floor) + " mins ago"
    else IntToString(seconds) + " seconds ago"
  }

  /** `timeAgo(date)` read at the moment `nowMs`. */
  function TimeAgo(nowMs: int, thenMs: int): string {
    AgoLabel(Elapsed(nowMs, thenMs))
  }

  /** The units of the label, largest first. */
  datatype Unit = Years | Months | Days | Hours | Mins | Seconds

  function Divisor(u: Unit): (d: nat)
    ensures d > 0
  {
    match u
    case Years => Year
    case Months => Month
    case Days => Day
    case Hours => Hour
    case Mins => Minute
    case Seconds => 1
  }

  function UnitName(u: Unit): string {
    match u
    case Years => "years"
    case Months => "months"
    case Days => "days"
    case Hours => "hours"
    case Mins => "mins"
    case Seconds => "seconds"
  }

  /** The position of a unit in the order the label tries them. */
  function Rank(u: Unit): nat {
    match u
    case Years => 0
    case Months => 1
    case Days => 2
    case Hours => 3
    case Mins => 4
    case Seconds => 5
  }

  /** The first unit, largest first, whose length is strictly exceeded. */
  function UnitFor(seconds: int): (u: Unit)
    ensures u != Seconds ==> seconds > Divisor(u)
    ensures u == Seconds ==> seconds <= Minute
    ensures forall v: Unit :: Rank(v) < Rank(u) ==> seconds <= Divisor(v)
  {
    if seconds > Year then Years
    else if seconds > Month then Months
    else if seconds > Day then Days
    else if seconds > Hour then Hours
    else if seconds > Minute then Mins
    else Seconds
  }

  /** For each unit but seconds, its interval is above 1 exactly when the
      seconds exceed the unit's length. */
  lemma IntervalAboveOne(seconds: int, u: Unit)
    requires u != Seconds
    ensures Interval(seconds, Divisor(u)) > 1.0 <==> seconds > Divisor(u)
  {
    match u
    case Years =>
    case Months =>
    case Days =>
    case Hours =>
    case Mins =>
  }

  /** Rounding a unit's interval down gives the integer quotient. */
  lemma IntervalFloor(seconds: int, u: Unit)
    requires u != Seconds
    ensures Interval(seconds, Divisor(u)).Floor == seconds / Divisor(u)
  {
    var d := Divisor(u);
    var q := seconds / d;
    var r := seconds % d;
    assert seconds == q * d + r && 0 <= r < d;
    match u
    case Years =>
      assert Interval(seconds, d) == (q as real) + (r as real) / 31536000.0;
    case Months =>
      assert Interval(seconds, d) == (q as real) + (r as real) / 2592000.0;
    case Days =>
      assert Interval(seconds, d) == (q as real) + (r as real) / 86400.0;
    case Hours =>
      assert Interval(seconds, d) == (q as real) + (r as real) / 3600.0;
    case Mins =>
      assert Interval(seconds, d) == (q as real) + (r as real) / 60.0;
  }

  /** The label names the first unit whose length the elapsed time strictly
      exceeds, with the whole number of those units elapsed. */
  lemma AgoLabelMeaning(seconds: int)
    ensures var u := UnitFor(seconds);
      AgoLabel(seconds) == IntToString(seconds / Divisor(u)) + " " + UnitName(u) + " ago"
  {
    var u := UnitFor(seconds);
    assert " " + UnitName(u) + " ago" == [' '] + UnitName(u) + " ago";
    if u == Seconds {
      assert seconds / 1 == seconds;
      LabelInSeconds(seconds);
    } else {
      LabelInUnit(seconds, u);
    }
  }

  /** The guards of the units larger than the one UnitFor picks all fail. */
  lemma LargerUnitsFail(seconds: int, u: Unit)
    requires u == UnitFor(seconds)
    ensures Rank(u) > 0 ==> !(Interval(seconds, Year) > 1.0)
    ensures Rank(u) > 1 ==> !(Interval(seconds, Month) > 1.0)
    ensures Rank(u) > 2 ==> !(Interval(seconds, Day) > 1.0)
    ensures Rank(u) > 3 ==> !(Interval(seconds, Hour) > 1.0)
    ensures Rank(u) > 4 ==> !(Interval(seconds, Minute) > 1.0)
  {
    IntervalAboveOne(seconds, Years);
    IntervalAboveOne(seconds, Months);
    IntervalAboveOne(seconds, Days);
    IntervalAboveOne(seconds, Hours);
    IntervalAboveOne(seconds, Mins);
  }

  lemma LabelInUnit(seconds: int, u: Unit)
    requires u == UnitFor(seconds) && u != Seconds
    ensures AgoLabel(seconds) == IntToString(seconds / Divisor(u)) + [' '] + UnitName(u) + " ago"
  {
    LargerUnitsFail(seconds, u);
    IntervalAboveOne(seconds, u);
    IntervalFloor(seconds, u);
    var n := Interval(seconds, Divisor(u)).Floor;
    match u
    case Years =>
      assert AgoLabel(seconds) == IntToString(n) + " years ago";
    case Months =>
      assert AgoLabel(seconds) == IntToString(n) + " months ago";
    case Days =>
      assert AgoLabel(seconds) == IntToString(n) + " days ago";
    case Hours =>
      assert AgoLabel(seconds) == IntToString(n) + " hours ago";
    case Mins =>
      assert AgoLabel(seconds) == IntToString(n) + " mins ago";
  }

  lemma LabelInSeconds(seconds: int)
    requires UnitFor(seconds) == Seconds
    ensures AgoLabel(seconds) == IntToString(seconds) + [' '] + "seconds" + " ago"
  {
    LargerUnitsFail(seconds, Seconds);
  }

  /** Every unit but seconds shows a count of at least 1, and the count is the
      number of whole units in the elapsed time. */
  lemma CountIsWholeUnits(seconds: int)
    ensures var u := UnitFor(seconds); var n := seconds / Divisor(u);
      (u != Seconds ==> n >= 1) &&
      n * Divisor(u) <= seconds < (n + 1) * Divisor(u)
  {
  }

  /** Up to a minute, the label counts seconds. */
  lemma ShortTimesInSeconds(seconds: int)
    requires seconds <= Minute
    ensures AgoLabel(seconds) == IntToString(seconds) + " seconds ago"
  {
    AgoLabelMeaning(seconds);
    assert seconds / 1 == seconds;
  }

  /** A full minute still reads "60 seconds ago", the next second "1 mins ago". */
  lemma AroundAMinute()
    ensures AgoLabel(60) == "60 seconds ago"
    ensures AgoLabel(61) == "1 mins ago"
  {
    ShortTimesInSeconds(60);
    AgoLabelMeaning(61);
    assert UnitFor(61) == Mins && 61 / Divisor(Mins) == 1;
    assert NatToString(60) == NatToString(6) + [DigitChar(0)];
  }

  // ---------------------------------------------------------------------------
  // formatUptime

  /** Days, hours of the day and minutes of the hour in an uptime. */
  function UptimeParts(seconds: nat): (p: (nat, nat, nat))
    ensures p.1 < 24 && p.2 < 60
  {
    (seconds / Day, (seconds % Day) / Hour, (seconds % Hour) / Minute)
  }

  /** `formatUptime`: "{days}d {hours}h {minutes}m". */
  function FormatUptime(seconds: nat): string {
    var p := UptimeParts(seconds);
    NatToString(p.0) + "d " + NatToString(p.1) + "h " + NatToString(p.2) + "m"
  }

  /** The uptime line: a missing or zero uptime shows as "-". */
  function UptimeLabel(uptime: Option<nat>): (s: string)
    ensures uptime.None? || uptime.value == 0 ==> s == "-"
    ensures uptime.Some? && uptime.value != 0 ==> s == FormatUptime(uptime.value)
  {
    if uptime.Some? && uptime.value != 0 then FormatUptime(uptime.value) else "-"
  }

  /** The length of the run of digits a string starts with. */
  function DigitRun(s: string): (n: nat)
    ensures n <= |s|
  {
    if s != [] && IsDigit(s[0]) then 1 + DigitRun(s[1..]) else 0
  }

  lemma {:induction false} DigitRunOf(a: string, c: char, x: string)
    requires forall i :: 0 <= i < |a| ==> IsDigit(a[i])
    requires !IsDigit(c)
    ensures DigitRun(a + [c] + x) == |a|
    decreases |a|
  {
    if a == [] {
      assert (a + [c] + x)[0] == c;
    } else {
      assert (a + [c] + x)[1..] == a[1..] + [c] + x;
      DigitRunOf(a[1..], c, x);
    }
  }

  /** A number followed by a letter can be read back from the front of a string. */
  lemma ReadNumber(m: nat, n: nat, c: char, x: string, y: string)
    requires !IsDigit(c)
    requires NatToString(m) + [c] + x == NatToString(n) + [c] + y
    ensures m == n && x == y
  {
    var a := NatToString(m);
    var b := NatToString(n);
    DigitRunOf(a, c, x);
    DigitRunOf(b, c, y);
    assert a == (a + [c] + x)[..|a|];
    assert b == (b + [c] + y)[..|b|];
    NatToStringInjective(m, n);
    assert x == (a + [c] + x)[|a| + 1..];
    assert y == (b + [c] + y)[|b| + 1..];
  }

  /** The text after the days figure. */
  function AfterDays(h: nat, m: nat): string {
    " " + NatToString(h) + "h " + NatToString(m) + "m"
  }

  lemma FormatUptimeSplits(s: nat)
    ensures var p := UptimeParts(s);
      FormatUptime(s) == NatToString(p.0) + ['d'] + AfterDays(p.1, p.2) &&
      AfterDays(p.1, p.2)[1..] == NatToString(p.1) + ['h'] + (" " + NatToString(p.2) + "m") &&
      (" " + NatToString(p.2) + "m")[1..] == NatToString(p.2) + ['m'] + []
  {
  }

  /** The label gives back the days, hours and minutes it shows. */
  lemma UptimeLabelReadsBack(s: nat, t: nat)
    requires FormatUptime(s) == FormatUptime(t)
    ensures UptimeParts(s) == UptimeParts(t)
  {
    var p := UptimeParts(s);
    var q := UptimeParts(t);
    FormatUptimeSplits(s);
    FormatUptimeSplits(t);
    ReadNumber(p.0, q.0, 'd', AfterDays(p.1, p.2), AfterDays(q.1, q.2));
    ReadNumber(p.1, q.1, 'h', " " + NatToString(p.2) + "m", " " + NatToString(q.2) + "m");
    ReadNumber(p.2, q.2, 'm', [], []);
  }

  /** Two uptimes read the same exactly when they fall in the same minute. */
  lemma UptimeShowsTheMinute(s: nat, t: nat)
    ensures FormatUptime(s) == FormatUptime(t) <==> s / Minute == t / Minute
  {
    PartsOfMinutes(s);
    PartsOfMinutes(t);
    if FormatUptime(s) == FormatUptime(t) {
      UptimeLabelReadsBack(s, t);
    }
    if s / Minute == t / Minute {
      SameMinuteSameParts(s, t);
    }
  }

  lemma SameMinuteSameParts(s: nat, t: nat)
    requires s / Minute == t / Minute
    ensures UptimeParts(s) == UptimeParts(t)
  {
    PartsOfMinutes(s);
    PartsOfMinutes(t);
  }

  /** The parts depend only on the whole minutes elapsed. */
  lemma PartsOfMinutes(s: nat)
    ensures var k := s / Minute;
      UptimeParts(s) == (k / 1440, (k % 1440) / 60, k % 60)
    ensures var p := UptimeParts(s);
      s / Minute == 1440 * p.0 + 60 * p.1 + p.2
  {
    var k := s / Minute;
    var r := s % Minute;
    var d := k / 1440;
    var e := k % 1440;
    var h := e / 60;
    var m := e % 60;
    assert k == 1440 * d + e;
    assert e == 60 * h + m;
    assert s == 60 * k + r;
    PartsFrom(s, d, h, m, r);
    MinutesSplit(k, d, h, m);
  }

  lemma PartsFrom(s: nat, d: nat, h: nat, m: nat, r: nat)
    requires s == 86400 * d + 3600 * h + 60 * m + r && h < 24 && m < 60 && r < 60
    ensures UptimeParts(s) == (d, h, m)
  {
    DaysOf(s, d, 3600 * h + 60 * m + r);
    HoursOf(3600 * h + 60 * m + r, h, 60 * m + r);
    HoursOf(s, 24 * d + h, 60 * m + r);
    MinutesOf(60 * m + r, m, r);
  }

  lemma MinutesSplit(k: nat, d: nat, h: nat, m: nat)
    requires k == 1440 * d + 60 * h + m && h < 24 && m < 60
    ensures k / 1440 == d && (k % 1440) / 60 == h && k % 60 == m
  {
  }

  lemma DaysOf(s: nat, d: nat, x: nat)
    requires s == 86400 * d + x && x < 86400
    ensures s / Day == d && s % Day == x
  {
  }

  lemma HoursOf(s: nat, h: nat, x: nat)
    requires s == 3600 * h + x && x < 3600
    ensures s / Hour == h && s % Hour == x
  {
  }

  lemma MinutesOf(y: nat, m: nat, r: nat)
    requires y == 60 * m + r && r < 60
    ensures y / Minute == m
  {
  }

  lemma WholeMinutes(s: nat, k: nat)
    requires k == s / Minute
    ensures 60 * k <= s < 60 * k + 60
  {
  }

  /** The parts account for the uptime up to its seconds within the minute. */
  lemma UptimePartsBound(seconds: nat)
    ensures var p := UptimeParts(seconds);
      p.0 * Day + p.1 * Hour + p.2 * Minute <= seconds < p.0 * Day + p.1 * Hour + p.2 * Minute + Minute
  {
    PartsOfMinutes(seconds);
    WholeMinutes(seconds, seconds / Minute);
  }

}
