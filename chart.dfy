/** `getActivityChartData`: per-day update counts of the three content tables
    merged into one series. The JavaScript `Map` keyed by date keeps its keys
    in insertion order; it is modelled as its entry sequence. Calendar dates
    are integer day numbers, so "the day i days before today" is `today - i`. */
module Chart {
  import opened Base

  /** A (date, count) pair: a row of one table's grouped query, an entry of the
      date map, and a point of the resulting chart. */
  datatype DayCount = DayCount(date: int, count: int)

  const Days: nat := 7

  predicate DistinctDates(m: seq<DayCount>) {
    forall i, j :: 0 <= i < j < |m| ==> m[i].date != m[j].date
  }

  /** The position of the entry for date d. */
  function IndexOfDate(m: seq<DayCount>, d: int): (r: Option<nat>)
    ensures r.Some? ==> r.value < |m| && m[r.value].date == d
    ensures r.None? ==> forall i :: 0 <= i < |m| ==> m[i].date != d
  {
    if m == [] then None
    else if m[|m| - 1].date == d then Some(|m| - 1)
    else IndexOfDate(m[..|m| - 1], d)
  }

  /** `dateMap.get(d) || 0`. */
  function GetOrZero(m: seq<DayCount>, d: int): int {
    match IndexOfDate(m, d)
    case Some(i) => m[i].count
    case None => 0
  }

  /** `dateMap.set(d, v)`: an existing key keeps its place, a new key goes last. */
  function Put(m: seq<DayCount>, d: int, v: int): (r: seq<DayCount>)
    ensures IndexOfDate(m, d).Some? ==> r == m[IndexOfDate(m, d).value := DayCount(d, v)]
    ensures IndexOfDate(m, d).None? ==> r == m + [DayCount(d, v)]
  {
    match IndexOfDate(m, d)
    case Some(i) => m[i := DayCount(d, v)]
    case None => m + [DayCount(d, v)]
  }

  /** The entries of the seeding loop after its first n rounds: today, the day
      before, ..., n - 1 days back, each with count 0. */
  function Seed(today: int, n: nat): (r: seq<DayCount>)
    ensures |r| == n
    ensures forall i :: 0 <= i < n ==> r[i] == DayCount(today - i, 0)
  {
    if n == 0 then [] else Seed(today, n - 1) + [DayCount(today - (n - 1), 0)]
  }

  /** One call of the `forEach` callback in `process`. */
  function Step(m: seq<DayCount>, row: DayCount): (r: seq<DayCount>)
    ensures |r| == |m| || |r| == |m| + 1
  {
    Put(m, row.date, GetOrZero(m, row.date) + row.count)
  }

  /** The map after `process(rows)`. */
  function Accumulate(m: seq<DayCount>, rows: seq<DayCount>): (r: seq<DayCount>)
    ensures |m| <= |r| <= |m| + |rows|
    decreases |rows|
  {
    if rows == [] then m else Step(Accumulate(m, rows[..|rows| - 1]), rows[|rows| - 1])
  }

  function Reverse(s: seq<DayCount>): (r: seq<DayCount>)
    ensures |r| == |s|
    ensures forall i :: 0 <= i < |s| ==> r[i] == s[|s| - 1 - i]
  {
    seq(|s|, i requires 0 <= i < |s| => s[|s| - 1 - i])
  }

  /** The chart the handler returns, before dates are turned into labels. */
  function ChartSpec(today: int, posts: seq<DayCount>, projects: seq<DayCount>, stories: seq<DayCount>)
    : (points: seq<DayCount>)
    ensures Days <= |points| <= Days + |posts| + |projects| + |stories|
  {
    Reverse(Accumulate(Accumulate(Accumulate(Seed(today, Days), posts), projects), stories))
  }

  // ---------------------------------------------------------------------------
  // The handler

  /** `process(rows)`: add each row's count to its date's entry. */
  method Process(m: seq<DayCount>, rows: seq<DayCount>) returns (r: seq<DayCount>)
    ensures r == Accumulate(m, rows)
  {
    r := m;
    var j := 0;
    while j < |rows|
      invariant 0 <= j <= |rows|
      invariant r == Accumulate(m, rows[..j])
    {
      var row := rows[j];
      var current := GetOrZero(r, row.date);
      r := Put(r, row.date, current + row.count);
      assert rows[..j + 1][..j] == rows[..j];
      j := j + 1;
    }
    assert rows[..|rows|] == rows;
  }

  method ActivityChart(today: int, posts: seq<DayCount>, projects: seq<DayCount>, stories: seq<DayCount>)
    returns (points: seq<DayCount>)
    ensures points == ChartSpec(today, posts, projects, stories)
  {
    var dateMap: seq<DayCount> := [];
    var i := 0;
    while i < Days
      invariant 0 <= i <= Days
      invariant dateMap == Seed(today, i)
    {
      assert IndexOfDate(dateMap, today - i).None?;
      dateMap := Put(dateMap, today - i, 0);
      i := i + 1;
    }
    dateMap := Process(dateMap, posts);
    dateMap := Process(dateMap, projects);
    dateMap := Process(dateMap, stories);
    points := Reverse(dateMap);
  }

  // ---------------------------------------------------------------------------
  // What the chart holds

  /** The total count of the rows for date d. */
  function Sum(rows: seq<DayCount>, d: int): int
    decreases |rows|
  {
    if rows == [] then 0
    else Sum(rows[..|rows| - 1], d) + (if rows[|rows| - 1].date == d then rows[|rows| - 1].count else 0)
  }

  predicate Mentions(rows: seq<DayCount>, d: int) {
    exists i :: 0 <= i < |rows| && rows[i].date == d
  }

  lemma SeedDistinct(today: int, n: nat)
    ensures DistinctDates(Seed(today, n))
  {
  }

  lemma IndexOfDateAfterUpdate(m: seq<DayCount>, k: nat, e: DayCount, d: int)
    requires DistinctDates(m) && k < |m| && e.date == m[k].date
    ensures DistinctDates(m[k := e])
    ensures d == e.date ==> IndexOfDate(m[k := e], d) == Some(k)
    ensures d != e.date ==> IndexOfDate(m[k := e], d) == IndexOfDate(m, d)
  {
    var r := m[k := e];
    var found := IndexOfDate(r, d);
    var before := IndexOfDate(m, d);
    if d == e.date {
      assert found.Some? by { assert r[k].date == d; }
    } else {
      if found.Some? { assert m[found.value].date == d; }
      if before.Some? { assert r[before.value].date == d; }
    }
  }

  lemma IndexOfDateAfterAppend(m: seq<DayCount>, e: DayCount, d: int)
    requires DistinctDates(m) && IndexOfDate(m, e.date).None?
    ensures DistinctDates(m + [e])
    ensures d == e.date ==> IndexOfDate(m + [e], d) == Some(|m|)
    ensures d != e.date ==> IndexOfDate(m + [e], d) == IndexOfDate(m, d)
  {
    assert (m + [e])[..|m|] == m;
  }

  /** One row adds its count to its date's entry, appending the date when it
      is new, and leaves every other date and every earlier position alone. */
  lemma StepMeaning(m: seq<DayCount>, row: DayCount, d: int)
    requires DistinctDates(m)
    ensures var r := Step(m, row);
      DistinctDates(r) && |m| <= |r| &&
      (forall i :: 0 <= i < |m| ==> r[i].date == m[i].date) &&
      (IndexOfDate(r, d).Some? <==> IndexOfDate(m, d).Some? || row.date == d) &&
      GetOrZero(r, d) == GetOrZero(m, d) + (if row.date == d then row.count else 0)
  {
    var e := DayCount(row.date, GetOrZero(m, row.date) + row.count);
    match IndexOfDate(m, row.date)
    case Some(k) =>
      IndexOfDateAfterUpdate(m, k, e, d);
    case None =>
      IndexOfDateAfterAppend(m, e, d);
  }

  lemma MentionsSnoc(rows: seq<DayCount>, d: int)
    requires rows != []
    ensures Mentions(rows, d) <==> Mentions(rows[..|rows| - 1], d) || rows[|rows| - 1].date == d
  {
    var front := rows[..|rows| - 1];
    if Mentions(rows, d) {
      var i :| 0 <= i < |rows| && rows[i].date == d;
      if i < |rows| - 1 { assert front[i] == rows[i]; }
    }
    if Mentions(front, d) {
      var i :| 0 <= i < |front| && front[i].date == d;
      assert rows[i] == front[i];
    }
  }

  /** Accumulating keeps dates distinct, keeps every earlier entry's date in
      its place, and leaves each date with its old value plus the counts of
      its rows; a date appears exactly when it was there or some row names it. */
  lemma {:induction false} AccumulateMeaning(m: seq<DayCount>, rows: seq<DayCount>, d: int)
    requires DistinctDates(m)
    ensures var r := Accumulate(m, rows);
      DistinctDates(r) && |m| <= |r| &&
      (forall i :: 0 <= i < |m| ==> r[i].date == m[i].date) &&
      (IndexOfDate(r, d).Some? <==> IndexOfDate(m, d).Some? || Mentions(rows, d)) &&
      GetOrZero(r, d) == GetOrZero(m, d) + Sum(rows, d)
    decreases |rows|
  {
    if rows != [] {
      var front := rows[..|rows| - 1];
      AccumulateMeaning(m, front, d);
      StepMeaning(Accumulate(m, front), rows[|rows| - 1], d);
      MentionsSnoc(rows, d);
    }
  }

  /** Each seeded day is found in the seed, no other date is. */
  lemma SeedLookup(today: int, d: int)
    ensures IndexOfDate(Seed(today, Days), d).Some? <==> today - (Days - 1) <= d <= today
    ensures GetOrZero(Seed(today, Days), d) == 0
  {
    var s := Seed(today, Days);
    if today - (Days - 1) <= d <= today {
      assert s[today - d].date == d;
    }
  }

  /** The date map once all three tables are processed. */
  function Entries(today: int, posts: seq<DayCount>, projects: seq<DayCount>, stories: seq<DayCount>)
    : seq<DayCount>
  {
    Accumulate(Accumulate(Accumulate(Seed(today, Days), posts), projects), stories)
  }

  lemma EntriesMeaning(today: int, posts: seq<DayCount>, projects: seq<DayCount>, stories: seq<DayCount>, d: int)
    ensures var c := Entries(today, posts, projects, stories);
      DistinctDates(c) && Days <= |c| &&
      (forall i :: 0 <= i < Days ==> c[i].date == today - i) &&
      (IndexOfDate(c, d).Some? <==>
         (today - (Days - 1) <= d <= today) || Mentions(posts, d) || Mentions(projects, d) || Mentions(stories, d)) &&
      GetOrZero(c, d) == Sum(posts, d) + Sum(projects, d) + Sum(stories, d)
  {
    var s := Seed(today, Days);
    SeedDistinct(today, Days);
    SeedLookup(today, d);
    var a := Accumulate(s, posts);
    AccumulateMeaning(s, posts, d);
    var b := Accumulate(a, projects);
    AccumulateMeaning(a, projects, d);
    AccumulateMeaning(b, stories, d);
  }

  /** Some point of the chart is for date d. */
  predicate Charted(points: seq<DayCount>, d: int) {
    exists i :: 0 <= i < |points| && points[i].date == d
  }

  /** A date is charted exactly when it is one of the seven seeded days or some
      row names it; it is charted once, with the sum of the three tables'
      counts for it; and the seven seeded days are the last seven points,
      oldest first. */
  lemma ChartMeaning(today: int, posts: seq<DayCount>, projects: seq<DayCount>, stories: seq<DayCount>, d: int)
    ensures var points := ChartSpec(today, posts, projects, stories);
      DistinctDates(points) && Days <= |points| &&
      (forall j :: |points| - Days <= j < |points| ==> points[j].date == today - (|points| - 1 - j)) &&
      (Charted(points, d) <==>
         (today - (Days - 1) <= d <= today) || Mentions(posts, d) || Mentions(projects, d) || Mentions(stories, d)) &&
      (forall j :: 0 <= j < |points| && points[j].date == d ==>
         points[j].count == Sum(posts, d) + Sum(projects, d) + Sum(stories, d))
  {
    var c := Entries(today, posts, projects, stories);
    EntriesMeaning(today, posts, projects, stories, d);
    assert ChartSpec(today, posts, projects, stories) == Reverse(c);
    ReversedMap(c, today, d);
  }

  /** What reversing a date map keeps: distinct dates, the seeded days (now
      last, oldest first), and for each date whether and with what count it
      appears. */
  lemma ReversedMap(c: seq<DayCount>, today: int, d: int)
    requires DistinctDates(c) && Days <= |c| && (forall i :: 0 <= i < Days ==> c[i].date == today - i)
    ensures var points := Reverse(c);
      DistinctDates(points) &&
      (forall j :: |points| - Days <= j < |points| ==> points[j].date == today - (|points| - 1 - j)) &&
      (Charted(points, d) <==> IndexOfDate(c, d).Some?) &&
      (forall j :: 0 <= j < |points| && points[j].date == d ==> points[j].count == GetOrZero(c, d))
  {
    ReversedDistinct(c);
    ReversedSeed(c, today);
    ReversedLookup(c, d);
  }

  lemma ReversedDistinct(c: seq<DayCount>)
    requires DistinctDates(c)
    ensures DistinctDates(Reverse(c))
  {
    var points := Reverse(c);
    var n := |c|;
    forall i, j | 0 <= i < j < n ensures points[i].date != points[j].date {
      assert points[i] == c[n - 1 - i] && points[j] == c[n - 1 - j];
    }
  }

  lemma ReversedSeed(c: seq<DayCount>, today: int)
    requires Days <= |c| && (forall i :: 0 <= i < Days ==> c[i].date == today - i)
    ensures var points := Reverse(c);
      forall j :: |points| - Days <= j < |points| ==> points[j].date == today - (|points| - 1 - j)
  {
    var points := Reverse(c);
    var n := |c|;
    forall j | n - Days <= j < n ensures points[j].date == today - (n - 1 - j) {
      assert points[j] == c[n - 1 - j];
    }
  }

  lemma ReversedLookup(c: seq<DayCount>, d: int)
    requires DistinctDates(c)
    ensures var points := Reverse(c);
      (Charted(points, d) <==> IndexOfDate(c, d).Some?) &&
      (forall j :: 0 <= j < |points| && points[j].date == d ==> points[j].count == GetOrZero(c, d))
  {
    var points := Reverse(c);
    var n := |c|;
    if Charted(points, d) {
      var j :| 0 <= j < n && points[j].date == d;
      assert c[n - 1 - j].date == d;
    }
    match IndexOfDate(c, d)
    case Some(k) =>
      assert points[n - 1 - k] == c[k];
      forall j | 0 <= j < n && points[j].date == d ensures points[j].count == c[k].count {
        assert points[j] == c[n - 1 - j];
      }
    case None =>
  }

  predicate WithinWeek(rows: seq<DayCount>, today: int) {
    forall i :: 0 <= i < |rows| ==> today - (Days - 1) <= rows[i].date <= today
  }

  /** An entry dated within the seeded week sits at a seeded position, since
      dates are distinct. */
  lemma SeededPosition(c: seq<DayCount>, today: int, j: nat)
    requires DistinctDates(c) && Days <= |c| && (forall i :: 0 <= i < Days ==> c[i].date == today - i)
    requires j < |c| && today - (Days - 1) <= c[j].date <= today
    ensures j < Days && c[j].date == today - j
  {
    var k := today - c[j].date;
    assert c[k].date == c[j].date;
  }

  lemma EntryInWeek(today: int, posts: seq<DayCount>, projects: seq<DayCount>, stories: seq<DayCount>, j: nat)
    requires WithinWeek(posts, today) && WithinWeek(projects, today) && WithinWeek(stories, today)
    requires j < |Entries(today, posts, projects, stories)|
    ensures today - (Days - 1) <= Entries(today, posts, projects, stories)[j].date <= today
  {
    var c := Entries(today, posts, projects, stories);
    var d := c[j].date;
    EntriesMeaning(today, posts, projects, stories, d);
    if Mentions(posts, d) { var i :| 0 <= i < |posts| && posts[i].date == d; }
    if Mentions(projects, d) { var i :| 0 <= i < |projects| && projects[i].date == d; }
    if Mentions(stories, d) { var i :| 0 <= i < |stories| && stories[i].date == d; }
  }

  /** When every row falls in the seeded week, the chart has exactly seven
      points, one per day from six days ago to today, and each counts the
      rows of the three tables for its day. */
  lemma ChartOfAWeek(today: int, posts: seq<DayCount>, projects: seq<DayCount>, stories: seq<DayCount>)
    requires WithinWeek(posts, today) && WithinWeek(projects, today) && WithinWeek(stories, today)
    ensures var points := ChartSpec(today, posts, projects, stories);
      |points| == Days &&
      (forall i :: 0 <= i < Days ==> points[i].date == today - (Days - 1) + i) &&
      (forall i :: 0 <= i < Days ==>
         points[i].count == Sum(posts, points[i].date) + Sum(projects, points[i].date) + Sum(stories, points[i].date))
  {
    var c := Entries(today, posts, projects, stories);
    EntriesMeaning(today, posts, projects, stories, today);
    var last := |c| - 1;
    EntryInWeek(today, posts, projects, stories, last);
    SeededPosition(c, today, last);
    var points := ChartSpec(today, posts, projects, stories);
    forall i | 0 <= i < Days
      ensures points[i].date == today - (Days - 1) + i
      ensures points[i].count == Sum(posts, points[i].date) + Sum(projects, points[i].date) + Sum(stories, points[i].date)
    {
      ChartMeaning(today, posts, projects, stories, points[i].date);
    }
  }

  // ---------------------------------------------------------------------------
  // A week of points

  /** The rows of one query that fall on a seeded day. */
  function InWeek(rows: seq<DayCount>, today: int): (r: seq<DayCount>)
    ensures WithinWeek(r, today)
    decreases |rows|
  {
    if rows == [] then []
    else
      var last := rows[|rows| - 1];
      InWeek(rows[..|rows| - 1], today) + (if today - (Days - 1) <= last.date <= today then [last] else [])
  }

  /** Dropping the rows outside the week keeps every seeded day's total. */
  lemma {:induction false} InWeekSum(rows: seq<DayCount>, today: int, d: int)
    requires today - (Days - 1) <= d <= today
    ensures Sum(InWeek(rows, today), d) == Sum(rows, d)
    decreases |rows|
  {
    if rows != [] {
      var front := rows[..|rows| - 1];
      var last := rows[|rows| - 1];
      InWeekSum(front, today, d);
      var kept := InWeek(front, today);
      if today - (Days - 1) <= last.date <= today {
        assert InWeek(rows, today) == kept + [last];
        assert (kept + [last])[..|kept|] == kept;
        assert Sum(kept + [last], d) == Sum(kept, d) + (if last.date == d then last.count else 0);
      } else {
        assert InWeek(rows, today) == kept + [];
        assert kept + [] == kept;
      }
    }
  }

  /** The chart the dashboard's "last 7 days" title describes: the handler
      with the rows of days before the seeded week left out. It always has
      exactly seven points, one per day from six days ago to today, each
      counting all three tables' rows for its day. */
  method WeekChart(today: int, posts: seq<DayCount>, projects: seq<DayCount>, stories: seq<DayCount>)
    returns (points: seq<DayCount>)
    ensures |points| == Days
    ensures forall i :: 0 <= i < Days ==> points[i].date == today - (Days - 1) + i
    ensures forall i :: 0 <= i < Days ==>
      points[i].count == Sum(posts, points[i].date) + Sum(projects, points[i].date) + Sum(stories, points[i].date)
  {
    var p, q, s := InWeek(posts, today), InWeek(projects, today), InWeek(stories, today);
    points := ActivityChart(today, p, q, s);
    ChartOfAWeek(today, p, q, s);
    forall i | 0 <= i < Days
      ensures points[i].count == Sum(posts, points[i].date) + Sum(projects, points[i].date) + Sum(stories, points[i].date)
    {
      InWeekSum(posts, today, points[i].date);
      InWeekSum(projects, today, points[i].date);
      InWeekSum(stories, today, points[i].date);
    }
  }

  /** The query's window starts at a moment seven days ago, so a row may carry
      the date seven days back, which the seed does not hold: that date is
      appended to the map and the chart then has eight points, with that day
      first. */
  lemma EighthDayIsPrepended(today: int, n: int)
    ensures var points := ChartSpec(today, [DayCount(today - Days, n)], [], []);
      |points| == Days + 1 && points[0] == DayCount(today - Days, n)
  {
    var s := Seed(today, Days);
    SeedLookup(today, today - Days);
    assert Accumulate(s, [DayCount(today - Days, n)]) == Step(s, DayCount(today - Days, n));
  }
}
