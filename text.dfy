/**
  The two string operations the program applies to console answers:
  `str.lower()` and `str.title()`, on ASCII letters (other characters
  are left as they are).
 */
module Text {

  predicate IsUpper(c: char) { 'A' <= c <= 'Z' }

  predicate IsLower(c: char) { 'a' <= c <= 'z' }

  /** A character that has an upper and a lower case form. */
  predicate IsCased(c: char) { IsUpper(c) || IsLower(c) }

  function LowerChar(c: char): (r: char)
    ensures !IsUpper(r)
    ensures IsCased(c) <==> IsCased(r)
  {
    if IsUpper(c) then (c as int + 32) as char else c
  }

  function UpperChar(c: char): (r: char)
    ensures !IsLower(r)
    ensures IsCased(c) <==> IsCased(r)
  {
    if IsLower(c) then (c as int - 32) as char else c
  }

  /** `s.lower()`: every character is replaced by its lower-case form. */
  function Lower(s: string): (r: string)
    ensures |r| == |s|
    ensures forall i :: 0 <= i < |s| ==> r[i] == LowerChar(s[i])
  {
    if s == [] then [] else [LowerChar(s[0])] + Lower(s[1..])
  }

  /**
    `s.title()` continued after a character that was (`afterCased`) or was
    not a cased letter: a letter that follows a cased letter becomes lower
    case, any other letter upper case.
   */
  function TitleFrom(s: string, afterCased: bool): (r: string)
    ensures |r| == |s|
    ensures forall i :: 0 <= i < |s| ==>
      r[i] == (if (i == 0 && afterCased) || (0 < i && IsCased(s[i - 1])) then LowerChar(s[i]) else UpperChar(s[i]))
  {
    if s == [] then []
    else [if afterCased then LowerChar(s[0]) else UpperChar(s[0])] + TitleFrom(s[1..], IsCased(s[0]))
  }

  /** `s.title()`: the first letter of every word in upper case, the rest in lower case. */
  function Title(s: string): (r: string)
    ensures |r| == |s|
    ensures |s| > 0 ==> r[0] == UpperChar(s[0])
  {
    TitleFrom(s, false)
  }

  /** A string without upper-case letters is its own lower-case form. */
  lemma {:induction false} LowerWithoutUpper(s: string)
    requires forall i :: 0 <= i < |s| ==> !IsUpper(s[i])
    ensures Lower(s) == s
  {
    var r := Lower(s);
    forall i | 0 <= i < |s| ensures r[i] == s[i] {
    }
  }

  /** Title-casing changes only the case of letters: it is the identity up to `lower()`. */
  lemma {:induction false} TitleKeepsLetters(s: string)
    ensures Lower(Title(s)) == Lower(s)
  {
    var t := TitleFrom(s, false);
    var lt, ls := Lower(t), Lower(s);
    assert |lt| == |ls|;
    forall i | 0 <= i < |s| ensures lt[i] == ls[i] {
      var low := (i == 0 && false) || (0 < i && IsCased(s[i - 1]));
      assert t[i] == if low then LowerChar(s[i]) else UpperChar(s[i]);
    }
  }

  /** A single lower-case word title-cases to the word with its first letter capitalised. */
  lemma TitleOfLowerWord(s: string)
    requires |s| > 0
    requires forall i :: 0 <= i < |s| ==> IsLower(s[i])
    ensures Title(s) == [UpperChar(s[0])] + s[1..]
  {
    var t := TitleFrom(s, false);
    forall i | 1 <= i < |s| ensures t[i] == s[i] {
      assert IsCased(s[i - 1]);
    }
  }

  /** The answer `monday` title-cases to the weekday name `Monday`. */
  lemma TitleOfMonday()
    ensures Title("monday") == "Monday"
  {
    var s := "monday";
    assert forall i :: 0 <= i < |s| ==> IsLower(s[i]);
    TitleOfLowerWord(s);
    assert UpperChar('m') == 'M';
  }
}
