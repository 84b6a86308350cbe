/**
  `load_data`: look the city up in `CITY_DATA`, read its table, then narrow
  it by month and by day of week. Reading the CSV and deriving the month,
  weekday and hour columns happen outside the model: `files` maps each file
  name to the table it holds, with the derived columns present.
 */
module Loading {
  import opened Wrappers
  import opened Text
  import opened Tables
  import opened Prompts

  /** `CITY_DATA`: the file holding each city's trips. */
  const CityData: map<string, string> :=
    map["chicago" := "chicago.csv", "new york city" := "new_york_city.csv", "washington" := "washington.csv"]

  /** The six months the data covers, in calendar order. */
  const Months: seq<string> := ["january", "february", "march", "april", "may", "june"]

  /** Why `load_data` raises: a city with no file (`KeyError`), a file that is not there, a month off the list (`ValueError`). */
  datatype LoadError = UnknownCity(city: string) | MissingFile(file: string) | UnknownMonth(month: string)

  /** `xs.index(x)`: the position of the first occurrence, None where Python raises `ValueError`. */
  function IndexOf<T(==)>(xs: seq<T>, x: T): (r: Option<nat>)
    ensures r.Some? <==> x in xs
    ensures r.Some? ==> r.value < |xs| && xs[r.value] == x && x !in xs[..r.value]
  {
    if xs == [] then None
    else if xs[0] == x then Some(0)
    else match IndexOf(xs[1..], x)
      case None => None
      case Some(i) => assert xs[1..][..i] == xs[1..i + 1]; Some(i + 1)
  }

  /** `months.index(month) + 1`: january is 1, june is 6. */
  function MonthNumber(month: string): (r: Option<int>)
    ensures r.Some? <==> month in Months
    ensures r.Some? ==> 1 <= r.value <= |Months| && Months[r.value - 1] == month
  {
    match IndexOf(Months, month)
    case None => None
    case Some(i) => Some(i + 1)
  }

  /** The mask `df['month'] == month`. */
  function InMonth(month: int): Trip -> bool
  {
    (t: Trip) => t.month == month
  }

  /** The mask `df['day_of_week'] == day.title()`. */
  function OnDay(day: string): Trip -> bool
  {
    (t: Trip) => t.dayOfWeek == Title(day)
  }

  /** The filtering part of `load_data`, applied to a loaded table. */
  function FilterRows(rows: seq<Trip>, month: string, day: string): (r: Result<seq<Trip>, LoadError>)
    ensures r.Failure? <==> month != "all" && month !in Months
    ensures r.Failure? ==> r.error == UnknownMonth(month)
  {
    var byMonth :=
      if month == "all" then Success(rows)
      else match MonthNumber(month)
        case None => Failure(UnknownMonth(month))
        case Some(m) => Success(Select(rows, InMonth(m)));
    match byMonth
    case Failure(e) => Failure(e)
    case Success(kept) => Success(if day == "all" then kept else Select(kept, OnDay(day)))
  }

  /** `load_data(city, month, day)` with the city files given as `files`. */
  function LoadData(city: string, month: string, day: string, files: map<string, seq<Trip>>)
    : (r: Result<seq<Trip>, LoadError>)
    ensures city !in CityData <==> r == Failure(UnknownCity(city))
    ensures city in CityData ==> (r == Failure(MissingFile(CityData[city])) <==> CityData[city] !in files)
    ensures city in CityData && CityData[city] in files ==> r == FilterRows(files[CityData[city]], month, day)
  {
    if city !in CityData then Failure(UnknownCity(city))
    else if CityData[city] !in files then Failure(MissingFile(CityData[city]))
    else FilterRows(files[CityData[city]], month, day)
  }

  /** Of the cities on the prompt's list, only `all` has no file. */
  lemma CityWithoutFile(city: string)
    requires city in CityList
    ensures city !in CityData <==> city == "all"
  {
  }

  /** The month prompt's list is the six months plus `all`. */
  lemma MonthListIsMonthsAndAll(month: string)
    ensures month in MonthList <==> month in Months || month == "all"
  {
    assert MonthList == Months + ["all"];
  }

  /** The month names map to their calendar numbers. */
  lemma MonthNumbers()
    ensures MonthNumber("january") == Some(1)
    ensures MonthNumber("march") == Some(3)
    ensures MonthNumber("june") == Some(6)
  {
    assert Months[0] == "january";
    assert Months[2] == "march";
    assert Months[5] == "june";
  }

  /** `all` passes the city prompt but has no entry in `CITY_DATA`: loading it fails. */
  lemma AllCityCannotBeLoaded(month: string, day: string, files: map<string, seq<Trip>>)
    ensures LoadData("all", month, day, files) == Failure(UnknownCity("all"))
  {
  }

  /** With month `all` and day `all` every loaded row is kept, in order. */
  lemma NoFilterKeepsEverything(rows: seq<Trip>)
    ensures FilterRows(rows, "all", "all") == Success(rows)
  {
  }

  /** With a month name, exactly the rows of that month number are kept, each as often as it was loaded. */
  lemma MonthFilterIsExact(rows: seq<Trip>, month: string, t: Trip)
    requires month in Months
    ensures FilterRows(rows, month, "all").Success?
    ensures var kept := FilterRows(rows, month, "all").value;
      && MonthNumber(month).Some?
      && Count(kept, t) == (if t.month == MonthNumber(month).value then Count(rows, t) else 0)
  {
    SelectCount(rows, InMonth(MonthNumber(month).value), t);
  }

  /** With a day name, exactly the rows whose weekday is that name title-cased are kept. */
  lemma DayFilterIsExact(rows: seq<Trip>, day: string, t: Trip)
    requires day != "all"
    ensures FilterRows(rows, "all", day).Success?
    ensures Count(FilterRows(rows, "all", day).value, t) == (if t.dayOfWeek == Title(day) then Count(rows, t) else 0)
  {
    SelectCount(rows, OnDay(day), t);
  }

  /**
    With any month and day that load, exactly the rows matching both the
    month number (unless `all`) and the title-cased day (unless `all`) are
    kept, each as often as it was loaded.
   */
  lemma FilterIsExact(rows: seq<Trip>, month: string, day: string, t: Trip)
    requires FilterRows(rows, month, day).Success?
    ensures month != "all" ==> MonthNumber(month).Some?
    ensures Count(FilterRows(rows, month, day).value, t) ==
      if (month == "all" || t.month == MonthNumber(month).value) && (day == "all" || t.dayOfWeek == Title(day))
      then Count(rows, t) else 0
  {
    var byMonth := if month == "all" then rows else Select(rows, InMonth(MonthNumber(month).value));
    if month != "all" {
      SelectCount(rows, InMonth(MonthNumber(month).value), t);
    }
    if day != "all" {
      SelectCount(byMonth, OnDay(day), t);
    }
  }

  /** Every filter result is the input with some rows removed and the rest in their original order. */
  lemma FilterIsSubsequence(rows: seq<Trip>, month: string, day: string)
    requires FilterRows(rows, month, day).Success?
    ensures IsSubsequence(FilterRows(rows, month, day).value, rows)
  {
    var byMonth := if month == "all" then rows else Select(rows, InMonth(MonthNumber(month).value));
    if month != "all" {
      SelectIsSubsequence(rows, InMonth(MonthNumber(month).value));
    } else {
      SubsequenceReflexive(rows);
    }
    if day != "all" {
      SelectIsSubsequence(byMonth, OnDay(day));
      SubsequenceTransitive(Select(byMonth, OnDay(day)), byMonth, rows);
    }
  }

  /** Filtering an already filtered table with the same month and day changes nothing. */
  lemma FilterIdempotent(rows: seq<Trip>, month: string, day: string)
    requires FilterRows(rows, month, day).Success?
    ensures FilterRows(FilterRows(rows, month, day).value, month, day) == FilterRows(rows, month, day)
  {
    if month != "all" {
      var inMonth := InMonth(MonthNumber(month).value);
      if day == "all" {
        SelectIdempotent(rows, inMonth);
      } else {
        var onDay := OnDay(day);
        var both := (t: Trip) => inMonth(t) && onDay(t);
        var once := Select(Select(rows, inMonth), onDay);
        SelectSelect(rows, inMonth, onDay, both);
        SelectSelect(once, inMonth, onDay, both);
        SelectIdempotent(rows, both);
      }
    } else if day != "all" {
      SelectIdempotent(rows, OnDay(day));
    }
  }
}
