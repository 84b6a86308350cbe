/**
  The loaded trip table: one record per CSV row, with the columns the program
  derives at load time (`month`, `day_of_week`, `hour`) already present, and
  the sequence operations that stand in for the table engine's primitives:
  counting, boolean-mask selection and column extraction.
 */
module Tables {
  import opened Wrappers

  /**
    One trip. `month` is 1..12 as the timestamp engine gives it, `dayOfWeek`
    the full weekday name ("Monday"), `hour` the start hour. `gender` and
    `birthYear` are None where the CSV cell is empty (and for every row of the
    city whose file has no such columns).
   */
  datatype Trip = Trip(
    month: int,
    dayOfWeek: string,
    hour: int,
    startStation: string,
    endStation: string,
    duration: int,
    userType: string,
    gender: Option<string>,
    birthYear: Option<int>)

  /** Number of occurrences of `v` in `xs`. */
  function Count<T(==)>(xs: seq<T>, v: T): (n: nat)
    ensures n <= |xs|
    ensures n > 0 <==> v in xs
  {
    if xs == [] then 0 else (if xs[0] == v then 1 else 0) + Count(xs[1..], v)
  }

  lemma {:induction false} CountIsMultiplicity<T>(xs: seq<T>, v: T)
    ensures Count(xs, v) == multiset(xs)[v]
  {
    if xs != [] {
      CountIsMultiplicity(xs[1..], v);
      assert xs == [xs[0]] + xs[1..];
    }
  }

  /**
    Boolean-mask selection `df[mask]`: the rows for which `keep` holds, in
    their original order.
   */
  function Select<T>(xs: seq<T>, keep: T -> bool): (r: seq<T>)
    ensures |r| <= |xs|
    ensures forall i :: 0 <= i < |r| ==> keep(r[i])
  {
    if xs == [] then []
    else if keep(xs[0]) then [xs[0]] + Select(xs[1..], keep)
    else Select(xs[1..], keep)
  }

  /** `a` is `b` with some elements removed and the rest in the same order. */
  predicate IsSubsequence<T(==)>(a: seq<T>, b: seq<T>)
    decreases |b|
  {
    if a == [] then true
    else if b == [] then false
    else if a[0] == b[0] then IsSubsequence(a[1..], b[1..])
    else IsSubsequence(a, b[1..])
  }

  lemma {:induction false} SelectIsSubsequence<T>(xs: seq<T>, keep: T -> bool)
    ensures IsSubsequence(Select(xs, keep), xs)
  {
    if xs != [] {
      SelectIsSubsequence(xs[1..], keep);
      if !keep(xs[0]) {
        var r := Select(xs[1..], keep);
        if r != [] {
          SubsequenceOfTail(r, xs);
        }
      }
    }
  }

  /** A subsequence of the tail is a subsequence of the whole. */
  lemma {:induction false} SubsequenceOfTail<T>(a: seq<T>, b: seq<T>)
    requires b != []
    requires IsSubsequence(a, b[1..])
    ensures IsSubsequence(a, b)
    decreases |b|, |a|
  {
    if a != [] && a[0] == b[0] {
      DropHead(a, b[1..]);
    }
  }

  /** Removing the first element keeps the subsequence relation. */
  lemma {:induction false} DropHead<T>(a: seq<T>, b: seq<T>)
    requires a != []
    requires IsSubsequence(a, b)
    ensures IsSubsequence(a[1..], b)
    decreases |b|, |a|
  {
    if a[1..] != [] {
      if a[0] == b[0] {
        SubsequenceOfTail(a[1..], b);
      } else {
        DropHead(a, b[1..]);
        SubsequenceOfTail(a[1..], b);
      }
    }
  }

  /** Every table is a subsequence of itself. */
  lemma {:induction false} SubsequenceReflexive<T>(xs: seq<T>)
    ensures IsSubsequence(xs, xs)
  {
    if xs != [] {
      SubsequenceReflexive(xs[1..]);
    }
  }

  lemma {:induction false} SubsequenceTransitive<T>(a: seq<T>, b: seq<T>, c: seq<T>)
    requires IsSubsequence(a, b) && IsSubsequence(b, c)
    ensures IsSubsequence(a, c)
    decreases |c|
  {
    if a != [] {
      if b[0] == c[0] {
        if a[0] == b[0] {
          SubsequenceTransitive(a[1..], b[1..], c[1..]);
        } else {
          SubsequenceTransitive(a, b[1..], c[1..]);
          SubsequenceOfTail(a, c);
        }
      } else {
        SubsequenceTransitive(a, b, c[1..]);
        SubsequenceOfTail(a, c);
      }
    }
  }

  /**
    Selection keeps every occurrence of a kept row and none of a dropped one;
    with `SelectIsSubsequence`, this pins the result down exactly.
   */
  lemma {:induction false} SelectCount<T>(xs: seq<T>, keep: T -> bool, v: T)
    ensures Count(Select(xs, keep), v) == if keep(v) then Count(xs, v) else 0
  {
    if xs != [] {
      SelectCount(xs[1..], keep, v);
      if keep(xs[0]) {
        var rest := Select(xs[1..], keep);
        assert ([xs[0]] + rest)[1..] == rest;
      }
    }
  }

  /** A row is in a selection exactly when it is in the input and is kept. */
  lemma SelectMembership<T>(xs: seq<T>, keep: T -> bool, v: T)
    ensures v in Select(xs, keep) <==> v in xs && keep(v)
  {
    SelectCount(xs, keep, v);
  }

  /** Applying the same mask twice selects nothing more and nothing less than once. */
  lemma {:induction false} SelectIdempotent<T>(xs: seq<T>, keep: T -> bool)
    ensures Select(Select(xs, keep), keep) == Select(xs, keep)
  {
    if xs != [] {
      SelectIdempotent(xs[1..], keep);
      if keep(xs[0]) {
        var rest := Select(xs[1..], keep);
        assert ([xs[0]] + rest)[1..] == rest;
      }
    }
  }

  /** Two masks applied one after the other select what their conjunction selects. */
  lemma {:induction false} SelectSelect<T>(xs: seq<T>, first: T -> bool, second: T -> bool, both: T -> bool)
    requires forall x :: both(x) == (first(x) && second(x))
    ensures Select(Select(xs, first), second) == Select(xs, both)
  {
    if xs != [] {
      SelectSelect(xs[1..], first, second, both);
      if first(xs[0]) {
        var rest := Select(xs[1..], first);
        assert ([xs[0]] + rest)[1..] == rest;
      }
    }
  }

  /** The column `f` of the table, one value per row, in row order. */
  function Column<T, U>(xs: seq<T>, f: T -> U): (r: seq<U>)
    ensures |r| == |xs|
    ensures forall i :: 0 <= i < |xs| ==> r[i] == f(xs[i])
  {
    if xs == [] then [] else [f(xs[0])] + Column(xs[1..], f)
  }

  /** The values present in an optional column (empty cells dropped). */
  function Present<T>(xs: seq<Option<T>>): (r: seq<T>)
    ensures |r| <= |xs|
    ensures forall i :: 0 <= i < |xs| && xs[i].Some? ==> xs[i].value in r
    ensures forall v :: v in r ==> Some(v) in xs
  {
    if xs == [] then []
    else if xs[0].Some? then [xs[0].value] + Present(xs[1..])
    else Present(xs[1..])
  }

  /** Dropping the empty cells keeps every present value as often as it occurs. */
  lemma {:induction false} PresentCount<T>(xs: seq<Option<T>>, v: T)
    ensures Count(Present(xs), v) == Count(xs, Some(v))
  {
    if xs != [] {
      PresentCount(xs[1..], v);
      if xs[0].Some? {
        assert ([xs[0].value] + Present(xs[1..]))[1..] == Present(xs[1..]);
      }
    }
  }
}
