/**
 * The word-bounded identifier patterns the page scanner searches for, and
 * `re.finditer` over them: scan forward, and after a match resume where it ended.
 */
module PartPatterns {
  import opened Strings
  import opened Settings
  import opened Utils

  /** `\b` at position k of t: exactly one side of k is a word character. */
  predicate BoundaryAt(t: string, k: int)
    requires 0 <= k <= |t|
  {
    (k > 0 && IsWordChar(t[k - 1])) != (k < |t| && IsWordChar(t[k]))
  }

  /** The pattern `\b<shape>\b` matches the text at position i. */
  predicate MatchAt(p: PartNumberPattern, t: string, i: int)
  {
    0 <= i && i + PatternLength(p) <= |t|
    && BoundaryAt(t, i)
    && HasShape(p, t[i..i + PatternLength(p)])
    && BoundaryAt(t, i + PatternLength(p))
  }

  /** The text of the match at i (`match.group()`). */
  function MatchText(p: PartNumberPattern, t: string, i: nat): string
    requires i + PatternLength(p) <= |t|
  {
    t[i..i + PatternLength(p)]
  }

  /**
   * No match of a pattern starts strictly inside another match of it: a shape
   * ends in a digit followed by a boundary, and its only inner boundaries sit
   * around the hyphen.
   */
  lemma NoMatchInsideMatch(p: PartNumberPattern, t: string, i: int, j: int)
    requires MatchAt(p, t, i) && i < j < i + PatternLength(p)
    ensures !MatchAt(p, t, j)
  {
    match p
    case FourDashThree => NoMatchInsideFourDashThree(t, i, j);
    case FourDashTwo => NoMatchInsideFourDashTwo(t, i, j);
    case LetterFourDashThree => NoMatchInsideLetterFourDashThree(t, i, j);
  }

  lemma NoMatchInsideFourDashThree(t: string, i: int, j: int)
    requires MatchAt(FourDashThree, t, i) && i < j < i + PatternLength(FourDashThree)
    ensures !MatchAt(FourDashThree, t, j)
  {
    var L := PatternLength(FourDashThree);
    var w := t[i..i + L];
    var d := j - i;
    if d <= 3 {
      assert w[..4][d - 1] == t[j - 1] && w[..4][d] == t[j];
    } else if d == 4 {
      assert j + L <= |t| ==> t[j..j + L][..4][0] == '-';
    } else if d == 5 {
      assert w[5..][2] == t[i + 7];
      assert j + L <= |t| ==> t[j..j + L][..4][3] == t[i + 8];
    } else {
      assert w[5..][d - 6] == t[j - 1] && w[5..][d - 5] == t[j];
    }
  }

  lemma NoMatchInsideFourDashTwo(t: string, i: int, j: int)
    requires MatchAt(FourDashTwo, t, i) && i < j < i + PatternLength(FourDashTwo)
    ensures !MatchAt(FourDashTwo, t, j)
  {
    var L := PatternLength(FourDashTwo);
    var w := t[i..i + L];
    var d := j - i;
    if d <= 3 {
      assert w[..4][d - 1] == t[j - 1] && w[..4][d] == t[j];
    } else if d == 4 {
      assert j + L <= |t| ==> t[j..j + L][..4][0] == '-';
    } else if d == 5 {
      assert w[5..][1] == t[i + 6];
      assert j + L <= |t| ==> t[j..j + L][..4][2] == t[i + 7];
    } else {
      assert w[5..][0] == t[j - 1] && w[5..][1] == t[j];
    }
  }

  lemma NoMatchInsideLetterFourDashThree(t: string, i: int, j: int)
    requires MatchAt(LetterFourDashThree, t, i) && i < j < i + PatternLength(LetterFourDashThree)
    ensures !MatchAt(LetterFourDashThree, t, j)
  {
    var L := PatternLength(LetterFourDashThree);
    var w := t[i..i + L];
    var d := j - i;
    if d == 1 {
      assert w[1..5][0] == t[j];
    } else if d <= 4 {
      assert w[1..5][d - 2] == t[j - 1] && w[1..5][d - 1] == t[j];
    } else if d == 5 {
      assert t[j] == '-';
    } else if d == 6 {
      assert w[6..][0] == t[j];
    } else {
      assert w[6..][d - 7] == t[j - 1] && w[6..][d - 6] == t[j];
    }
  }

  /** Every position at or after `from` where the pattern matches, in increasing order. */
  function MatchStarts(p: PartNumberPattern, t: string, from: nat): (r: seq<nat>)
    ensures forall x :: x in r <==> from <= x && MatchAt(p, t, x)
    ensures forall a, b :: 0 <= a < b < |r| ==> r[a] < r[b]
    decreases |t| - from
  {
    if from >= |t| then []
    else
      var rest := MatchStarts(p, t, from + 1);
      if MatchAt(p, t, from) then
        assert forall b :: 0 <= b < |rest| ==> rest[b] in rest;
        [from] + rest
      else rest
  }

  /** `re.finditer(pattern, text)` from position `pos`, as the start positions of its matches. */
  function FindIter(p: PartNumberPattern, t: string, pos: nat): seq<nat>
    decreases |t| - pos
  {
    if pos >= |t| then []
    else if MatchAt(p, t, pos) then [pos] + FindIter(p, t, pos + PatternLength(p))
    else FindIter(p, t, pos + 1)
  }

  lemma {:induction false} SkipNonMatches(p: PartNumberPattern, t: string, a: nat, b: nat)
    requires a <= b
    requires forall x :: a <= x < b ==> !MatchAt(p, t, x)
    ensures MatchStarts(p, t, a) == MatchStarts(p, t, b)
    decreases b - a
  {
    if a < b && a < |t| {
      SkipNonMatches(p, t, a + 1, b);
    }
  }

  /** Resuming after each match loses nothing: `finditer` reports every match position. */
  lemma {:induction false} FindIterFindsEveryMatch(p: PartNumberPattern, t: string, pos: nat)
    ensures FindIter(p, t, pos) == MatchStarts(p, t, pos)
    decreases |t| - pos
  {
    if pos < |t| {
      if MatchAt(p, t, pos) {
        FindIterFindsEveryMatch(p, t, pos + PatternLength(p));
        forall x | pos + 1 <= x < pos + PatternLength(p)
          ensures !MatchAt(p, t, x)
        {
          NoMatchInsideMatch(p, t, pos, x);
        }
        SkipNonMatches(p, t, pos + 1, pos + PatternLength(p));
      } else {
        FindIterFindsEveryMatch(p, t, pos + 1);
      }
    }
  }

  /** A scanned identifier is already stripped and always passes `validate_part_number`. */
  lemma MatchValidates(p: PartNumberPattern, t: string, i: nat)
    requires MatchAt(p, t, i)
    ensures Strip(MatchText(p, t, i)) == MatchText(p, t, i)
    ensures ValidatePartNumber(MatchText(p, t, i))
  {
    var w := MatchText(p, t, i);
    assert !IsSpace(w[0]) by {
      match p
      case FourDashThree => assert w[..4][0] == w[0];
      case FourDashTwo => assert w[..4][0] == w[0];
      case LetterFourDashThree =>
    }
    assert !IsSpace(w[|w| - 1]) by {
      match p
      case FourDashThree => assert w[5..][2] == w[|w| - 1];
      case FourDashTwo => assert w[5..][1] == w[|w| - 1];
      case LetterFourDashThree => assert w[6..][2] == w[|w| - 1];
    }
    StripOfStripped(w);
    ShapeIsValid(p, w);
  }

  /** The boundaries keep the short patterns out of longer identifiers. */
  lemma BoundaryExamples()
    ensures !MatchAt(FourDashThree, "A6000-123", 1)
    ensures MatchAt(LetterFourDashThree, "A6000-123", 0)
    ensures !MatchAt(FourDashTwo, "6000-487", 0)
    ensures MatchAt(FourDashThree, "6000-487", 0)
  {
    var a := "A6000-123";
    assert a[1..9] == "6000-123";
    assert a[0..9] == a;
    var b := "6000-487";
    assert b[0..8] == b;
  }
}
