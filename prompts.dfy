/**
  `get_filters`: three prompts, each repeated until the answer is one of a
  closed list. The console is the stream `answers`, read from position `pos`
  on. The first answer to each prompt is lower-cased; the answers to
  "Please try again" are compared exactly as typed.
 */
module Prompts {
  import opened Wrappers
  import opened Text

  const CityList: seq<string> := ["chicago", "new york city", "washington", "all"]
  const MonthList: seq<string> := ["january", "february", "march", "april", "may", "june", "all"]
  const DayList: seq<string> :=
    ["monday", "tuesday", "wednesday", "thursday", "friday", "saturday", "sunday", "all"]

  /** The outcome of one prompt: the accepted answer and where the stream continues, or end of input. */
  datatype Choice = Chosen(value: string, next: nat) | Exhausted

  /** The re-prompt loop: answers from `from` on are taken verbatim until one is in `choices`. */
  function Retry(choices: seq<string>, answers: seq<string>, from: nat): (r: Choice)
    ensures r.Chosen? ==> from < r.next <= |answers| && r.value == answers[r.next - 1] && r.value in choices
    ensures forall j :: from <= j < (if r.Chosen? then r.next - 1 else |answers|) ==> answers[j] !in choices
    decreases |answers| - from
  {
    if from >= |answers| then Exhausted
    else if answers[from] in choices then Chosen(answers[from], from + 1)
    else Retry(choices, answers, from + 1)
  }

  /**
    One validated prompt: the accepted value is the first answer, lower-cased,
    if that is in `choices`; otherwise the first later answer that is in
    `choices` exactly as typed.
   */
  function Choose(choices: seq<string>, answers: seq<string>, pos: nat): (r: Choice)
    ensures r.Chosen? ==> r.value in choices && pos < r.next <= |answers|
    ensures r.Chosen? && r.next == pos + 1 ==> r.value == Lower(answers[pos])
    ensures r.Chosen? && r.next > pos + 1 ==> Lower(answers[pos]) !in choices && r.value == answers[r.next - 1]
    ensures pos < |answers| && r.Exhausted? ==> Lower(answers[pos]) !in choices
    ensures forall j :: pos < j < (if r.Chosen? then r.next - 1 else |answers|) ==> answers[j] !in choices
  {
    if pos >= |answers| then Exhausted
    else if Lower(answers[pos]) in choices then Chosen(Lower(answers[pos]), pos + 1)
    else Retry(choices, answers, pos + 1)
  }

  /** The prompt-and-retry loop of one question. */
  method ReadChoice(choices: seq<string>, answers: seq<string>, pos: nat) returns (r: Choice)
    ensures r == Choose(choices, answers, pos)
  {
    if pos >= |answers| {
      return Exhausted;
    }
    var answer := Lower(answers[pos]);
    var i := pos + 1;
    while answer !in choices
      invariant pos < i <= |answers|
      invariant answer !in choices ==> Choose(choices, answers, pos) == Retry(choices, answers, i)
      invariant answer in choices ==> Choose(choices, answers, pos) == Chosen(answer, i)
      decreases |answers| - i
    {
      if i == |answers| {
        return Exhausted;
      }
      answer := answers[i];
      i := i + 1;
    }
    r := Chosen(answer, i);
  }

  /** The (city, month, day) triple `get_filters` returns. */
  datatype Selection = Selection(city: string, month: string, day: string)

  predicate IsValid(s: Selection)
  {
    s.city in CityList && s.month in MonthList && s.day in DayList
  }

  /** A selection together with the position of the next unread answer. */
  datatype Asked = Asked(selection: Selection, next: nat)

  /** The three prompts in order: city, then month, then day. */
  function Filters(answers: seq<string>, pos: nat): (r: Option<Asked>)
    ensures r.Some? ==> IsValid(r.value.selection) && pos + 3 <= r.value.next <= |answers|
  {
    match Choose(CityList, answers, pos)
    case Exhausted => None
    case Chosen(city, afterCity) =>
      match Choose(MonthList, answers, afterCity)
      case Exhausted => None
      case Chosen(month, afterMonth) =>
        match Choose(DayList, answers, afterMonth)
        case Exhausted => None
        case Chosen(day, afterDay) => Some(Asked(Selection(city, month, day), afterDay))
  }

  /** `get_filters()`. */
  method GetFilters(answers: seq<string>, pos: nat) returns (r: Option<Asked>)
    ensures r == Filters(answers, pos)
  {
    var city := ReadChoice(CityList, answers, pos);
    if city.Exhausted? {
      return None;
    }
    var month := ReadChoice(MonthList, answers, city.next);
    if month.Exhausted? {
      return None;
    }
    var day := ReadChoice(DayList, answers, month.next);
    if day.Exhausted? {
      return None;
    }
    r := Some(Asked(Selection(city.value, month.value, day.value), day.next));
  }

  /** Three answers that are already on their lists are accepted at the first asking. */
  lemma FiltersAcceptValidAnswers(city: string, month: string, day: string)
    requires city in CityList && month in MonthList && day in DayList
    ensures Filters([city, month, day], 0) == Some(Asked(Selection(city, month, day), 3))
  {
    LowerOfListEntry(CityList, city);
    LowerOfListEntry(MonthList, month);
    LowerOfListEntry(DayList, day);
  }

  /** Every entry of the three lists is already in lower case. */
  lemma LowerOfListEntry(list: seq<string>, s: string)
    requires list == CityList || list == MonthList || list == DayList
    requires s in list
    ensures Lower(s) == s
  {
    forall i | 0 <= i < |s| ensures !IsUpper(s[i]) {
    }
    LowerWithoutUpper(s);
  }

  /**
    The first answer is lower-cased: `Chicago` is accepted as `chicago`, and
    `ALL` as the city `all`, which is on the city list.
   */
  lemma FirstAnswerIsLowered()
    ensures Choose(CityList, ["Chicago"], 0) == Chosen("chicago", 1)
    ensures Choose(CityList, ["ALL"], 0) == Chosen("all", 1)
  {
    assert Lower("Chicago") == "chicago";
    assert Lower("ALL") == "all";
  }

  /**
    A re-prompted answer is not lower-cased: after an invalid first answer,
    `Chicago` is rejected and only `chicago` is accepted.
   */
  lemma RetryIsCaseSensitive()
    ensures Choose(CityList, ["Paris", "Chicago", "chicago"], 0) == Chosen("chicago", 3)
  {
    var answers := ["Paris", "Chicago", "chicago"];
    assert Lower("Paris") !in CityList by {
      assert Lower("Paris")[0] == 'p';
    }
    assert answers[1] !in CityList;
    assert Retry(CityList, answers, 1) == Retry(CityList, answers, 2);
  }
}
