/**
  The four statistics functions: `time_stats`, `station_stats`,
  `trip_duration_stats` and `user_stats`. Each "most common" value is
  `column.mode()[0]`, which fails on a column with no values; min and max
  skip empty cells; `value_counts()` is a map from value to count.
 */
module Stats {
  import opened Wrappers
  import opened Tables

  /** `v` occurs in `xs` and no value occurs more often. */
  predicate IsMode<T(==)>(xs: seq<T>, v: T)
  {
    v in xs && forall w :: w in xs ==> Count(xs, w) <= Count(xs, v)
  }

  /**
    Scans `xs[i..]` for a value that occurs more often than `best`; `best`
    already beats every value before position `i`.
   */
  function Leader<T(==)>(xs: seq<T>, i: nat, best: T): (r: T)
    requires i <= |xs| && best in xs
    requires forall j :: 0 <= j < i ==> Count(xs, xs[j]) <= Count(xs, best)
    ensures r in xs
    ensures forall j :: 0 <= j < |xs| ==> Count(xs, xs[j]) <= Count(xs, r)
    decreases |xs| - i
  {
    if i == |xs| then best
    else Leader(xs, i + 1, if Count(xs, xs[i]) > Count(xs, best) then xs[i] else best)
  }

  /**
    `column.mode()[0]`: a most frequent value, None where the column is empty
    and the `[0]` lookup fails. Among tied values the one met first in row
    order is returned.
   */
  function Mode<T(==)>(xs: seq<T>): (r: Option<T>)
    ensures r.None? <==> xs == []
    ensures r.Some? ==> IsMode(xs, r.value)
  {
    if xs == [] then None
    else
      var v := Leader(xs, 1, xs[0]);
      assert forall w :: w in xs ==> Count(xs, w) <= Count(xs, v) by {
        forall w | w in xs ensures Count(xs, w) <= Count(xs, v) {
          var j :| 0 <= j < |xs| && xs[j] == w;
        }
      }
      Some(v)
  }

  /** Whether a value is a most frequent one does not depend on the order of the rows. */
  lemma ModeIgnoresOrder<T>(xs: seq<T>, ys: seq<T>, v: T)
    requires multiset(xs) == multiset(ys)
    ensures IsMode(xs, v) <==> IsMode(ys, v)
  {
    forall w ensures Count(xs, w) == Count(ys, w) {
      CountIsMultiplicity(xs, w);
      CountIsMultiplicity(ys, w);
    }
    assert forall w :: w in xs <==> w in ys by {
      forall w ensures w in xs <==> w in ys {
        assert w in xs <==> w in multiset(xs);
        assert w in ys <==> w in multiset(ys);
      }
    }
  }

  /** `min()` over the present values; None (NaN) where there are none. */
  function Min(xs: seq<int>): (r: Option<int>)
    ensures r.None? <==> xs == []
    ensures r.Some? ==> r.value in xs && forall x :: x in xs ==> r.value <= x
  {
    if xs == [] then None
    else
      assert xs == [xs[0]] + xs[1..];
      match Min(xs[1..])
      case None => Some(xs[0])
      case Some(m) => Some(if xs[0] <= m then xs[0] else m)
  }

  /** `max()` over the present values; None (NaN) where there are none. */
  function Max(xs: seq<int>): (r: Option<int>)
    ensures r.None? <==> xs == []
    ensures r.Some? ==> r.value in xs && forall x :: x in xs ==> x <= r.value
  {
    if xs == [] then None
    else
      assert xs == [xs[0]] + xs[1..];
      match Max(xs[1..])
      case None => Some(xs[0])
      case Some(m) => Some(if xs[0] >= m then xs[0] else m)
  }

  /** `value_counts()`: each value that occurs, with the number of its occurrences. */
  function Tally<T(==)>(xs: seq<T>): (m: map<T, nat>)
    ensures forall i :: 0 <= i < |xs| ==> xs[i] in m
    ensures forall v :: v in m ==> v in xs && m[v] == Count(xs, v)
  {
    if xs == [] then map[]
    else
      var rest := Tally(xs[1..]);
      rest[xs[0] := (if xs[0] in rest then rest[xs[0]] else 0) + 1]
  }

  /** `df['Trip Duration'].sum()`. */
  function TotalDuration(rows: seq<Trip>): (r: int)
    ensures (forall i :: 0 <= i < |rows| ==> rows[i].duration >= 0) ==>
      r >= 0 && forall i :: 0 <= i < |rows| ==> rows[i].duration <= r
  {
    if rows == [] then 0 else rows[0].duration + TotalDuration(rows[1..])
  }

  lemma {:induction false} TotalDurationAppend(a: seq<Trip>, b: seq<Trip>)
    ensures TotalDuration(a + b) == TotalDuration(a) + TotalDuration(b)
  {
    if a == [] {
      assert a + b == b;
    } else {
      TotalDurationAppend(a[1..], b);
      assert (a + b)[1..] == a[1..] + b;
    }
  }

  /** Taking one row out of a table takes its duration out of the total. */
  lemma RemoveOneDuration(b: seq<Trip>, i: nat)
    requires i < |b|
    ensures TotalDuration(b) == b[i].duration + TotalDuration(b[..i] + b[i + 1..])
  {
    TotalDurationAppend(b[..i], b[i..]);
    TotalDurationAppend(b[..i], b[i + 1..]);
    assert b == b[..i] + b[i..];
    assert b[i..][1..] == b[i + 1..];
  }

  /** Removing the first row of `a` and a matching row of `b` keeps the two multisets equal. */
  lemma RemoveMatchingRow(a: seq<Trip>, b: seq<Trip>, i: nat)
    requires a != [] && i < |b| && b[i] == a[0]
    requires multiset(a) == multiset(b)
    ensures multiset(a[1..]) == multiset(b[..i] + b[i + 1..])
  {
    assert a == [a[0]] + a[1..];
    assert b == b[..i] + [b[i]] + b[i + 1..];
    calc {
      multiset(a[1..]);
      multiset(a) - multiset{a[0]};
      multiset(b) - multiset{b[i]};
      multiset(b[..i] + b[i + 1..]);
    }
  }

  /** `sum()` does not depend on the order of the rows. */
  lemma {:induction false} TotalDurationIgnoresOrder(a: seq<Trip>, b: seq<Trip>)
    requires multiset(a) == multiset(b)
    ensures TotalDuration(a) == TotalDuration(b)
    decreases |a|
  {
    if a == [] {
      assert |b| == |multiset(b)| == 0;
    } else {
      assert a[0] in multiset(b);
      var i :| 0 <= i < |b| && b[i] == a[0];
      RemoveMatchingRow(a, b, i);
      TotalDurationIgnoresOrder(a[1..], b[..i] + b[i + 1..]);
      RemoveOneDuration(b, i);
    }
  }

  /** The total over the rows a filter keeps plus the total over those it drops is the total over all rows. */
  lemma {:induction false} TotalDurationSplits(rows: seq<Trip>, keep: Trip -> bool)
    ensures TotalDuration(Select(rows, keep)) + TotalDuration(Select(rows, (t: Trip) => !keep(t))) == TotalDuration(rows)
  {
    if rows != [] {
      TotalDurationSplits(rows[1..], keep);
      var kept := Select(rows[1..], keep);
      var dropped := Select(rows[1..], (t: Trip) => !keep(t));
      if keep(rows[0]) {
        assert ([rows[0]] + kept)[1..] == kept;
      } else {
        assert ([rows[0]] + dropped)[1..] == dropped;
      }
    }
  }

  // The columns the statistics read.
  function MonthOf(t: Trip): int { t.month }
  function DayOf(t: Trip): string { t.dayOfWeek }
  function HourOf(t: Trip): int { t.hour }
  function StartOf(t: Trip): string { t.startStation }
  function EndOf(t: Trip): string { t.endStation }
  function UserTypeOf(t: Trip): string { t.userType }
  function GenderOf(t: Trip): Option<string> { t.gender }
  function BirthYearOf(t: Trip): Option<int> { t.birthYear }

  /**
    The `combination` column: start station, the word `to`, end station, with
    no separator, so the key begins with the start and ends with the end station.
   */
  function PairKey(start: string, end: string): (r: string)
    ensures |r| == |start| + 2 + |end|
    ensures r[..|start|] == start && r[|start|..|start| + 2] == "to" && r[|start| + 2..] == end
  {
    start + "to" + end
  }

  function TripOf(t: Trip): string { PairKey(t.startStation, t.endStation) }

  /** Two different station pairs can share a key, and are then counted as one trip. */
  lemma PairKeysCanCollide()
    ensures PairKey("Ato", "B") == PairKey("A", "toB")
  {
  }

  /** The column whose `mode()[0]` found no value (pandas then raises `KeyError: 0`). */
  datatype Missing = NoMode(column: string)

  datatype TimeReport = TimeReport(month: int, day: string, hour: int)

  /** `time_stats`: the most common month, day of week and start hour. */
  function TimeStats(rows: seq<Trip>): (r: Result<TimeReport, Missing>)
    ensures r.Failure? <==> rows == []
    ensures r.Success? ==>
      && IsMode(Column(rows, MonthOf), r.value.month)
      && IsMode(Column(rows, DayOf), r.value.day)
      && IsMode(Column(rows, HourOf), r.value.hour)
  {
    match Mode(Column(rows, MonthOf))
    case None => Failure(NoMode("month"))
    case Some(month) =>
      Success(TimeReport(month, Mode(Column(rows, DayOf)).value, Mode(Column(rows, HourOf)).value))
  }

  datatype StationReport = StationReport(start: string, end: string, trip: string)

  /** `station_stats`: the most common start station, end station and start-to-end combination. */
  function StationStats(rows: seq<Trip>): (r: Result<StationReport, Missing>)
    ensures r.Failure? <==> rows == []
    ensures r.Success? ==>
      && IsMode(Column(rows, StartOf), r.value.start)
      && IsMode(Column(rows, EndOf), r.value.end)
      && IsMode(Column(rows, TripOf), r.value.trip)
  {
    match Mode(Column(rows, StartOf))
    case None => Failure(NoMode("Start Station"))
    case Some(start) =>
      Success(StationReport(start, Mode(Column(rows, EndOf)).value, Mode(Column(rows, TripOf)).value))
  }

  /** Counting the present values of an optional column: one key per present value, with its number of rows. */
  lemma TallyOfPresent<T>(xs: seq<Option<T>>)
    ensures forall v :: v in Tally(Present(xs)) <==> Some(v) in xs
    ensures forall v :: v in Tally(Present(xs)) ==> Tally(Present(xs))[v] == Count(xs, Some(v))
  {
    var present := Present(xs);
    forall v | Some(v) in xs ensures v in Tally(present) {
      var i :| 0 <= i < |xs| && xs[i] == Some(v);
      assert v in present;
      var j :| 0 <= j < |present| && present[j] == v;
    }
    forall v | v in Tally(present) ensures Tally(present)[v] == Count(xs, Some(v)) {
      PresentCount(xs, v);
    }
  }

  /** The birth years present in the table. */
  function BirthYears(rows: seq<Trip>): seq<int>
  {
    Present(Column(rows, BirthYearOf))
  }

  /** The demographic part of `user_stats`: absent for Washington. */
  datatype Demographics =
    | Unavailable
    | Available(genders: map<string, nat>, earliest: int, recent: int, common: int)

  datatype UserReport = UserReport(userTypes: map<string, nat>, demographics: Demographics)

  /**
    `user_stats`: counts per user type; for every city but Washington also
    counts per gender and the earliest, most recent and most common birth year.
   */
  function UserStats(city: string, rows: seq<Trip>): (r: Result<UserReport, Missing>)
    ensures r.Failure? <==> city != "washington" && BirthYears(rows) == []
    ensures r.Success? ==> (r.value.demographics.Unavailable? <==> city == "washington")
    ensures r.Success? ==> forall u :: u in r.value.userTypes ==> u in Column(rows, UserTypeOf)
    ensures r.Success? ==> forall i :: 0 <= i < |rows| ==> rows[i].userType in r.value.userTypes
    ensures r.Success? ==> forall u :: u in r.value.userTypes ==> r.value.userTypes[u] == Count(Column(rows, UserTypeOf), u)
    ensures r.Success? && r.value.demographics.Available? ==>
      var d := r.value.demographics;
      var years := BirthYears(rows);
      && (forall g :: g in d.genders <==> Some(g) in Column(rows, GenderOf))
      && (forall g :: g in d.genders ==> d.genders[g] == Count(Column(rows, GenderOf), Some(g)))
      && d.earliest in years && d.recent in years && IsMode(years, d.common)
      && (forall y :: y in years ==> d.earliest <= y <= d.recent)
      && d.earliest <= d.common <= d.recent
  {
    var userTypes := Tally(Column(rows, UserTypeOf));
    if city == "washington" then Success(UserReport(userTypes, Unavailable))
    else
      var years := BirthYears(rows);
      match Mode(years)
      case None => Failure(NoMode("Birth Year"))
      case Some(common) =>
        TallyOfPresent(Column(rows, GenderOf));
        var genders := Tally(Present(Column(rows, GenderOf)));
        Success(UserReport(userTypes, Available(genders, Min(years).value, Max(years).value, common)))
  }

  /** All four statistics, in the order the program computes them. */
  datatype Report = Report(time: TimeReport, stations: StationReport, totalDuration: int, users: UserReport)

  /** The four statistics functions run in sequence; the first failing `mode()[0]` ends the run. */
  function Describe(city: string, rows: seq<Trip>): (r: Result<Report, Missing>)
    ensures r.Failure? <==> rows == [] || (city != "washington" && BirthYears(rows) == [])
    ensures rows == [] ==> r == Failure(NoMode("month"))
    ensures r.Success? ==> r.value.totalDuration == TotalDuration(rows)
  {
    match TimeStats(rows)
    case Failure(e) => Failure(e)
    case Success(time) =>
      match StationStats(rows)
      case Failure(e) => Failure(e)
      case Success(stations) =>
        match UserStats(city, rows)
        case Failure(e) => Failure(e)
        case Success(users) => Success(Report(time, stations, TotalDuration(rows), users))
  }

  /**
    A successful report is made of the results of `time_stats`,
    `station_stats` and `user_stats` on the same table, so their mode and
    birth-year properties carry over to it.
   */
  lemma DescribeIsItsParts(city: string, rows: seq<Trip>)
    requires Describe(city, rows).Success?
    ensures var report := Describe(city, rows).value;
      && TimeStats(rows) == Success(report.time)
      && StationStats(rows) == Success(report.stations)
      && UserStats(city, rows) == Success(report.users)
  {
  }
}
