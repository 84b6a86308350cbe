/**
  `raw_data`: while the answer is `yes` (in any case), show the next five
  rows of the table and ask again; any other answer ends the paging.
 */
module Paging {
  import opened Text

  const PageSize: nat := 5

  /** `df[cursor:cursor + 5]`, clipped to the table as slicing clips, so empty past the end. */
  function Page<T>(rows: seq<T>, cursor: nat): (r: seq<T>)
    ensures |r| == if cursor >= |rows| then 0 else if cursor + PageSize <= |rows| then PageSize else |rows| - cursor
    ensures forall i :: 0 <= i < |r| ==> r[i] == rows[cursor + i]
  {
    var lo := if cursor < |rows| then cursor else |rows|;
    var hi := if cursor + PageSize < |rows| then cursor + PageSize else |rows|;
    rows[lo..hi]
  }

  /** The test `answer.lower() == 'yes'`, letter by letter. */
  predicate IsYes(answer: string)
  {
    |answer| == 3 && LowerChar(answer[0]) == 'y' && LowerChar(answer[1]) == 'e' && LowerChar(answer[2]) == 's'
  }

  /** `IsYes` is the comparison the program makes: the lower-cased answer is `yes`. */
  lemma IsYesIsLowerYes(answer: string)
    ensures IsYes(answer) <==> Lower(answer) == "yes"
  {
    if Lower(answer) == "yes" {
      assert Lower(answer)[0] == 'y' && Lower(answer)[1] == 'e' && Lower(answer)[2] == 's';
    }
  }

  /** The number of consecutive `yes` answers from `pos` on. */
  function YesRun(answers: seq<string>, pos: nat): (n: nat)
    requires pos <= |answers|
    ensures pos + n <= |answers|
    ensures forall j :: pos <= j < pos + n ==> IsYes(answers[j])
    ensures pos + n < |answers| ==> !IsYes(answers[pos + n])
    decreases |answers| - pos
  {
    if pos == |answers| || !IsYes(answers[pos]) then 0 else 1 + YesRun(answers, pos + 1)
  }

  /**
    `raw_data(df)` with the answers read from `answers[pos..]`: the k-th page
    shown (counting from 0) is rows `[5k, 5k + 5)`, and one page is shown per
    leading `yes`.
   */
  method RawData<T>(rows: seq<T>, answers: seq<string>, pos: nat) returns (pages: seq<seq<T>>)
    requires pos <= |answers|
    ensures |pages| == YesRun(answers, pos)
    ensures forall k :: 0 <= k < |pages| ==> pages[k] == Page(rows, PageSize * k)
  {
    pages := [];
    if pos == |answers| {
      return;
    }
    var answer := Lower(answers[pos]);
    var i := pos + 1;
    var cursor := 0;
    while true
      invariant pos < i <= |answers|
      invariant answer == Lower(answers[i - 1])
      invariant |pages| == i - 1 - pos
      invariant forall j :: pos <= j < i - 1 ==> IsYes(answers[j])
      invariant cursor == PageSize * |pages|
      invariant forall k :: 0 <= k < |pages| ==> pages[k] == Page(rows, PageSize * k)
      decreases |answers| - i
    {
      if answer == "yes" {
        pages := pages + [Page(rows, cursor)];
        cursor := cursor + PageSize;
        if i == |answers| {
          return;
        }
        answer := Lower(answers[i]);
        i := i + 1;
      } else {
        return;
      }
    }
  }

  /** The pages one after another. */
  function Concat<T>(pages: seq<seq<T>>): (r: seq<T>)
  {
    if pages == [] then [] else Concat(pages[..|pages| - 1]) + pages[|pages| - 1]
  }

  /**
    Consecutive pages neither overlap nor skip rows: together the first n
    pages are exactly the first 5n rows (all rows, if there are fewer).
   */
  lemma {:induction false} PagesCoverPrefix<T>(rows: seq<T>, pages: seq<seq<T>>)
    requires forall k :: 0 <= k < |pages| ==> pages[k] == Page(rows, PageSize * k)
    ensures Concat(pages) == rows[..if PageSize * |pages| <= |rows| then PageSize * |pages| else |rows|]
  {
    if pages != [] {
      var n := |pages|;
      PagesCoverPrefix(rows, pages[..n - 1]);
      var lo := if PageSize * (n - 1) <= |rows| then PageSize * (n - 1) else |rows|;
      var hi := if PageSize * n <= |rows| then PageSize * n else |rows|;
      assert pages[n - 1] == rows[lo..hi];
      assert rows[..lo] + rows[lo..hi] == rows[..hi];
    }
  }
}
