/** Identifier validation, list chunking and file-name sanitising. */
module Utils {
  import opened Strings
  import opened Settings

  /** The body of an identifier pattern, without anchors or word boundaries. */
  predicate HasShape(p: PartNumberPattern, w: string)
  {
    match p
    case FourDashThree => |w| == 8 && AllDigits(w[..4]) && w[4] == '-' && AllDigits(w[5..])
    case FourDashTwo => |w| == 7 && AllDigits(w[..4]) && w[4] == '-' && AllDigits(w[5..])
    case LetterFourDashThree => |w| == 9 && IsUpper(w[0]) && AllDigits(w[1..5]) && w[5] == '-' && AllDigits(w[6..])
  }

  function PatternLength(p: PartNumberPattern): nat
  {
    match p
    case FourDashThree => 8
    case FourDashTwo => 7
    case LetterFourDashThree => 9
  }

  /** `re.match('^' + body + '$', s)`: `$` also matches just before a final newline. */
  predicate AnchoredMatch(p: PartNumberPattern, s: string)
  {
    HasShape(p, s) || (|s| > 0 && s[|s| - 1] == '\n' && HasShape(p, s[..|s| - 1]))
  }

  function ShapeCount(s: string): nat
  {
    (if HasShape(FourDashThree, s) then 1 else 0)
    + (if HasShape(FourDashTwo, s) then 1 else 0)
    + (if HasShape(LetterFourDashThree, s) then 1 else 0)
  }

  /**
   * `validate_part_number`: false for the empty string and anything shorter than 7;
   * otherwise true when one of the three anchored shapes matches.
   * Callers pass stripped text, for which an accepted identifier has exactly one shape.
   */
  function ValidatePartNumber(s: string): (r: bool)
    ensures r ==> 7 <= |s| <= 10
    ensures r && (s == [] || s[|s| - 1] != '\n') ==>
      ShapeCount(s) == 1
      && (((|s| == 8 || |s| == 7) && s[4] == '-' && AllDigits(s[..4]) && AllDigits(s[5..]))
          || (|s| == 9 && IsUpper(s[0]) && s[5] == '-' && AllDigits(s[1..5]) && AllDigits(s[6..])))
  {
    if |s| < 7 then false
    else AnchoredMatch(FourDashThree, s) || AnchoredMatch(FourDashTwo, s) || AnchoredMatch(LetterFourDashThree, s)
  }

  /** Every well-formed identifier is accepted. */
  lemma ShapeIsValid(p: PartNumberPattern, w: string)
    requires HasShape(p, w)
    ensures ValidatePartNumber(w) && |w| == PatternLength(p)
  {
  }

  lemma ValidationExamples()
    ensures ValidatePartNumber("6000-487") && ValidatePartNumber("2015-05") && ValidatePartNumber("A6000-487")
    ensures !ValidatePartNumber("a6000-487") && !ValidatePartNumber("600000-487")
    ensures !ValidatePartNumber("") && !ValidatePartNumber("600-48")
  {
  }

  /** `chunk_list(lst, chunk_size)`: slices `lst[i:i + chunk_size]` for i in `range(0, len(lst), chunk_size)`. */
  function ChunkList<T>(s: seq<T>, size: int): seq<seq<T>>
    requires size != 0
    decreases |s|
  {
    if size < 0 || s == [] then []
    else if |s| <= size then [s]
    else [s[..size]] + ChunkList(s[size..], size)
  }

  function Flatten<T>(ss: seq<seq<T>>): seq<T>
  {
    if ss == [] then [] else ss[0] + Flatten(ss[1..])
  }

  /** Concatenating the chunks gives the list back; every chunk is full except possibly the last, which is not empty. */
  lemma {:induction false} ChunkListPartition<T>(s: seq<T>, size: int)
    requires size > 0
    ensures Flatten(ChunkList(s, size)) == s
    ensures forall c :: 0 <= c < |ChunkList(s, size)| ==> 0 < |ChunkList(s, size)[c]| <= size
    ensures forall c :: 0 <= c < |ChunkList(s, size)| - 1 ==> |ChunkList(s, size)[c]| == size
    decreases |s|
  {
    if s != [] && |s| > size {
      ChunkListPartition(s[size..], size);
      assert s[..size] + s[size..] == s;
    }
  }

  /** There are ceil(len / size) chunks: the least count whose chunks hold the whole list. */
  lemma {:induction false} ChunkListCount<T>(s: seq<T>, size: int)
    requires size > 0
    ensures var n := |ChunkList(s, size)|; (n - 1) * size < |s| <= n * size
    decreases |s|
  {
    if |s| > size {
      var n' := |ChunkList(s[size..], size)|;
      ChunkListCount(s[size..], size);
      assert (n' + 1) * size == n' * size + size;
      assert n' * size == (n' - 1) * size + size;
    }
  }

  /** Chunk c holds the elements from c * size up to the next multiple of size, or to the end. */
  lemma {:induction false} ChunkListSlice<T>(s: seq<T>, size: int, c: nat)
    requires size > 0 && c < |ChunkList(s, size)|
    ensures c * size < |s|
    ensures ChunkList(s, size)[c] == s[c * size..if (c + 1) * size < |s| then (c + 1) * size else |s|]
    decreases |s|
  {
    if c > 0 {
      ChunkListLater(s, size, c);
      var rest := s[size..];
      ChunkListSlice(rest, size, c - 1);
      var lo := (c - 1) * size;
      var hi := if c * size < |rest| then c * size else |rest|;
      ShiftedBounds(|s|, size, c);
      SliceOfDrop(s, size, lo, hi);
    }
  }

  /** A chunk after the first is a chunk of what follows the first. */
  lemma ChunkListLater<T>(s: seq<T>, size: int, c: nat)
    requires size > 0 && 0 < c < |ChunkList(s, size)|
    ensures |s| > size && ChunkList(s, size)[c] == ChunkList(s[size..], size)[c - 1]
  {
  }

  lemma ShiftedBounds(n: int, size: int, c: nat)
    requires size > 0 && c > 0
    ensures (c - 1) * size + size == c * size
    ensures c * size + size == (c + 1) * size
    ensures (c * size < n - size) == ((c + 1) * size < n)
  {
  }

  lemma SliceOfDrop<T>(s: seq<T>, d: nat, lo: nat, hi: nat)
    requires d <= |s| && lo <= hi <= |s| - d
    ensures s[d..][lo..hi] == s[lo + d..hi + d]
  {
  }

  predicate IsForbiddenFilenameChar(c: char)
  {
    c in "<>:\"/\\|?*"
  }

  /** `re.sub(r'[<>:"/\\|?*]', '_', s)` */
  function ReplaceForbidden(s: string): (r: string)
    ensures |r| == |s|
    ensures forall i :: 0 <= i < |s| ==> r[i] == if IsForbiddenFilenameChar(s[i]) then '_' else s[i]
  {
    if s == [] then [] else [if IsForbiddenFilenameChar(s[0]) then '_' else s[0]] + ReplaceForbidden(s[1..])
  }

  /**
   * `sanitize_filename`: the forbidden characters become `_`, every other character
   * keeps its place, and the result is the stripped slice of that text.
   */
  function SanitizeFilename(s: string): (r: string)
    ensures |r| <= |s|
    ensures forall i :: 0 <= i < |r| ==> !IsForbiddenFilenameChar(r[i])
    ensures var t := ReplaceForbidden(s); var a := LeadingSpaces(t); a + |r| <= |t| && r == t[a..a + |r|]
    ensures var t := ReplaceForbidden(s); forall k :: LeadingSpaces(t) + |r| <= k < |t| ==> IsSpace(t[k])
    ensures r == [] || (!IsSpace(r[0]) && !IsSpace(r[|r| - 1]))
  {
    Strip(ReplaceForbidden(s))
  }

  lemma SanitizeFilenameIdempotent(s: string)
    ensures SanitizeFilename(SanitizeFilename(s)) == SanitizeFilename(s)
  {
    var r := SanitizeFilename(s);
    assert ReplaceForbidden(r) == r;
    StripIdempotent(ReplaceForbidden(s));
  }
  /** `[x for x in s if keep(x)]` */
  function Filter<T>(s: seq<T>, keep: T -> bool): (r: seq<T>)
    ensures |r| <= |s|
  {
    if s == [] then [] else Filter(s[..|s| - 1], keep) + (if keep(s[|s| - 1]) then [s[|s| - 1]] else [])
  }

  /** The comprehension keeps exactly the elements that pass. */
  lemma {:induction false} FilterExact<T>(s: seq<T>, keep: T -> bool)
    ensures forall x :: x in Filter(s, keep) <==> x in s && keep(x)
  {
    if s != [] {
      FilterExact(s[..|s| - 1], keep);
      assert s == s[..|s| - 1] + [s[|s| - 1]];
    }
  }

  /** The comprehension keeps the order: filtering a concatenation filters each part in turn. */
  lemma {:induction false} FilterConcat<T>(a: seq<T>, b: seq<T>, keep: T -> bool)
    ensures Filter(a + b, keep) == Filter(a, keep) + Filter(b, keep)
    decreases |b|
  {
    if b != [] {
      var b' := b[..|b| - 1];
      assert (a + b)[..|a + b| - 1] == a + b';
      FilterConcat(a, b', keep);
    } else {
      assert a + b == a;
    }
  }

  /** A test every element passes keeps the whole sequence. */
  lemma {:induction false} FilterKeepsAll<T>(s: seq<T>, keep: T -> bool)
    requires forall i :: 0 <= i < |s| ==> keep(s[i])
    ensures Filter(s, keep) == s
  {
    if s != [] {
      FilterKeepsAll(s[..|s| - 1], keep);
    }
  }
}
