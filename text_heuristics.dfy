/**
 * The text heuristics of the page scanner: the description that follows an
 * identifier, and the category a page's first lines announce.
 */
module TextHeuristics {
  import opened Optional
  import opened Strings

  const DESCRIPTION_WINDOW: nat := 200
  const MIN_LINE_LENGTH: nat := 5
  const DESCRIPTION_LIMIT: nat := 100
  const CATEGORY_LINES: nat := 10

  function Min(a: int, b: int): int { if a < b then a else b }

  /** `text[start:start + 200]` */
  function Window(text: string, start: nat): (w: string)
    ensures |w| <= DESCRIPTION_WINDOW
  {
    text[Min(start, |text|)..Min(start + DESCRIPTION_WINDOW, |text|)]
  }

  /** Index of the first line whose stripped text is longer than five characters; `|lines|` when there is none. */
  function FirstLongLine(lines: seq<string>): (k: nat)
    ensures k <= |lines|
    ensures forall j :: 0 <= j < k ==> |Strip(lines[j])| <= MIN_LINE_LENGTH
    ensures k < |lines| ==> |Strip(lines[k])| > MIN_LINE_LENGTH
  {
    if lines == [] then 0
    else if |Strip(lines[0])| > MIN_LINE_LENGTH then 0
    else
      var k := FirstLongLine(lines[1..]);
      assert forall j :: 1 <= j <= k ==> lines[j] == lines[1..][j - 1];
      1 + k
  }

  /** Length of the match of `^\W+`, 0 when there is none. */
  function LeadingNonWord(s: string): (n: nat)
    ensures n <= |s|
    ensures forall i :: 0 <= i < n ==> !IsWordChar(s[i])
    ensures n == |s| || IsWordChar(s[n])
  {
    if s != [] && !IsWordChar(s[0]) then 1 + LeadingNonWord(s[1..]) else 0
  }

  /** The characters of `s` that are not whitespace, in order. */
  function NonSpace(s: string): string
  {
    if s == [] then [] else (if IsSpace(s[0]) then [] else [s[0]]) + NonSpace(s[1..])
  }

  lemma {:induction false} NonSpaceAppend(a: string, b: string)
    ensures NonSpace(a + b) == NonSpace(a) + NonSpace(b)
  {
    if a == [] {
      assert a + b == b;
    } else {
      assert (a + b)[0] == a[0] && (a + b)[1..] == a[1..] + b;
      NonSpaceAppend(a[1..], b);
    }
  }

  lemma {:induction false} NonSpaceOfSpaces(s: string)
    requires forall i :: 0 <= i < |s| ==> IsSpace(s[i])
    ensures NonSpace(s) == []
  {
    if s != [] {
      NonSpaceOfSpaces(s[1..]);
    }
  }

  /** `re.sub(r'\s+', ' ', s)`: every maximal run of whitespace becomes one space. */
  function CollapseSpaces(s: string): (r: string)
    ensures |r| <= |s|
    ensures forall i :: 0 <= i < |r| && IsSpace(r[i]) ==> r[i] == ' '
    ensures forall i :: 0 <= i < |r| - 1 ==> !(IsSpace(r[i]) && IsSpace(r[i + 1]))
    ensures s != [] ==> r != [] && (IsSpace(s[0]) ==> r[0] == ' ') && (!IsSpace(s[0]) ==> r[0] == s[0])
    ensures NonSpace(r) == NonSpace(s)
    decreases |s|
  {
    if s == [] then []
    else if IsSpace(s[0]) then
      var n := LeadingSpaces(s);
      var rest := CollapseSpaces(s[n..]);
      assert s == s[..n] + s[n..];
      NonSpaceAppend(s[..n], s[n..]);
      NonSpaceOfSpaces(s[..n]);
      assert ([' '] + rest)[1..] == rest;
      [' '] + rest
    else
      var rest := CollapseSpaces(s[1..]);
      assert ([s[0]] + rest)[1..] == rest;
      [s[0]] + rest
  }

  /** The chosen line cleaned up: leading non-word run removed, whitespace collapsed. */
  function CleanLine(line: string): (r: string)
    ensures forall i :: 0 <= i < |r| && IsSpace(r[i]) ==> r[i] == ' '
    ensures forall i :: 0 <= i < |r| - 1 ==> !(r[i] == ' ' && r[i + 1] == ' ')
    ensures r == [] || IsWordChar(r[0])
  {
    var t := Strip(line);
    var u := t[LeadingNonWord(t)..];
    assert u == [] || IsWordChar(u[0]);
    CollapseSpaces(u)
  }

  /**
   * `_extract_description(text, start)`: the first line of the 200-character
   * window after `start` whose stripped length exceeds 5, cleaned and cut to 100
   * characters; `""` when no line qualifies.
   */
  function ExtractDescription(text: string, start: nat): (r: string)
    ensures |r| <= DESCRIPTION_LIMIT
    ensures '\n' !in r
    ensures forall i :: 0 <= i < |r| && IsSpace(r[i]) ==> r[i] == ' '
    ensures forall i :: 0 <= i < |r| - 1 ==> !(r[i] == ' ' && r[i + 1] == ' ')
    ensures r == [] || IsWordChar(r[0])
  {
    var lines := Split(Window(text, start), '\n');
    var k := FirstLongLine(lines);
    if k == |lines| then ""
    else
      var c := CleanLine(lines[k]);
      c[..Min(DESCRIPTION_LIMIT, |c|)]
  }

  lemma {:induction false} NonSpacePrefix(s: string, n: nat)
    requires n <= |s|
    ensures NonSpace(s[..n]) <= NonSpace(s)
  {
    assert s == s[..n] + s[n..];
    NonSpaceAppend(s[..n], s[n..]);
  }

  /**
   * The description comes only from the first qualifying line of the window:
   * its non-blank characters are, in order, a prefix of that line's non-blank
   * characters after the leading non-word run. No qualifying line, or a line
   * made only of non-word characters, gives `""`.
   */
  lemma DescriptionSource(text: string, start: nat)
    ensures var lines := Split(Window(text, start), '\n');
      var k := FirstLongLine(lines);
      && (k == |lines| ==> ExtractDescription(text, start) == "")
      && (k < |lines| ==>
            var t := Strip(lines[k]);
            && NonSpace(ExtractDescription(text, start)) <= NonSpace(t[LeadingNonWord(t)..])
            && ((forall i :: 0 <= i < |t| ==> !IsWordChar(t[i])) ==> ExtractDescription(text, start) == ""))
  {
    var lines := Split(Window(text, start), '\n');
    var k := FirstLongLine(lines);
    if k < |lines| {
      var c := CleanLine(lines[k]);
      NonSpacePrefix(c, Min(DESCRIPTION_LIMIT, |c|));
    }
  }

  predicate AllLowerLetters(w: string)
  {
    forall i :: 0 <= i < |w| ==> IsLowerLetter(w[i])
  }

  /** An alternative of a category pattern: a non-empty lower-case word. */
  type Keyword = w: string | w != [] && AllLowerLetters(w) witness "a"

  /** Keywords of the first category pattern, with `pumps?` written as its two spellings, longer first. */
  const PRODUCT_KEYWORDS: seq<Keyword> :=
    ["pumps", "pump", "motor", "controller", "heater", "filter", "jet", "light", "cover", "spa", "tub"]

  /** Keywords of the second category pattern. */
  const DEPARTMENT_KEYWORDS: seq<Keyword> := ["electrical", "plumbing", "hardware", "accessory", "part"]

  /** The default categories by page range. */
  const PAGE_RANGE_CATEGORIES: seq<string> := ["Accessories", "Pumps & Motors", "Electrical", "Plumbing", "Hardware"]

  /** The first alternative, in pattern order, that matches the lower-cased line at position i. */
  function KeywordAt(low: string, i: nat, kws: seq<string>): (r: Option<string>)
    ensures r.Some? ==> r.value in kws && OccursAt(low, r.value, i)
    ensures r.None? ==> forall k :: k in kws ==> !OccursAt(low, k, i)
  {
    if kws == [] then None
    else if OccursAt(low, kws[0], i) then Some(kws[0])
    else KeywordAt(low, i, kws[1..])
  }

  /** `re.search` of a case-insensitive alternation: the leftmost position, then the first alternative there. */
  function SearchFrom(low: string, kws: seq<string>, i: nat): (r: Option<(nat, string)>)
    ensures r.Some? ==> i <= r.value.0 <= |low| && KeywordAt(low, r.value.0, kws) == Some(r.value.1)
    ensures r.Some? ==> forall j :: i <= j < r.value.0 ==> KeywordAt(low, j, kws).None?
    ensures r.None? ==> forall j :: i <= j <= |low| ==> KeywordAt(low, j, kws).None?
    decreases |low| - i
  {
    if i > |low| then None
    else match KeywordAt(low, i, kws)
      case Some(k) => Some((i, k))
      case None => SearchFrom(low, kws, i + 1)
  }

  /** `.title()` of a matched word depends only on the keyword it matched. */
  lemma TitleIgnoresCase(w: string, k: string)
    requires LowerStr(w) == k && AllLowerLetters(k) && k != []
    ensures Title(w) == Title(k)
  {
    assert LowerStr(w[1..]) == LowerStr(w)[1..];
    assert LowerStr(k[1..]) == k[1..];
  }

  /** `.title()` of the group one pattern matches in the line, if it matches. */
  function PatternCategory(line: string, kws: seq<Keyword>): (r: Option<string>)
    ensures r.Some? ==> exists k :: k in kws && r.value == Title(k)
    ensures r.None? <==> SearchFrom(LowerStr(line), kws, 0).None?
    ensures r.Some? ==> r.value == Title(SearchFrom(LowerStr(line), kws, 0).value.1)
  {
    var low := LowerStr(line);
    match SearchFrom(low, kws, 0)
    case Some(m) =>
      var w := line[m.0..m.0 + |m.1|];
      assert LowerStr(w) == m.1;
      TitleIgnoresCase(w, m.1);
      Some(Title(w))
    case None => None
  }

  /** The category one line announces: the first pattern wins over the second wherever they match. */
  function LineCategory(line: string): (r: Option<string>)
    ensures r.Some? ==> exists k :: k in PRODUCT_KEYWORDS + DEPARTMENT_KEYWORDS && r.value == Title(k)
    ensures PatternCategory(line, PRODUCT_KEYWORDS).Some? ==> r == PatternCategory(line, PRODUCT_KEYWORDS)
    ensures r.None? <==> PatternCategory(line, PRODUCT_KEYWORDS).None? && PatternCategory(line, DEPARTMENT_KEYWORDS).None?
  {
    match PatternCategory(line, PRODUCT_KEYWORDS)
    case Some(c) => Some(c)
    case None => PatternCategory(line, DEPARTMENT_KEYWORDS)
  }

  /** Index of the first line that announces a category; `|lines|` when none does. */
  function FirstCategoryLine(lines: seq<string>): (k: nat)
    ensures k <= |lines|
    ensures forall j :: 0 <= j < k ==> LineCategory(lines[j]).None?
    ensures k < |lines| ==> LineCategory(lines[k]).Some?
  {
    if lines == [] then 0
    else if LineCategory(lines[0]).Some? then 0
    else
      var k := FirstCategoryLine(lines[1..]);
      assert forall j :: 1 <= j <= k && j < |lines| ==> lines[j] == lines[1..][j - 1];
      1 + k
  }

  function PageRangeCategory(pageNum: int): (r: string)
    ensures r in PAGE_RANGE_CATEGORIES
  {
    if pageNum < 50 then "Accessories"
    else if pageNum < 100 then "Pumps & Motors"
    else if pageNum < 150 then "Electrical"
    else if pageNum < 200 then "Plumbing"
    else "Hardware"
  }

  function Take<T>(s: seq<T>, n: nat): (r: seq<T>)
    ensures |r| == Min(n, |s|)
  {
    if |s| <= n then s else s[..n]
  }

  /**
   * `_extract_category(text, page_num)`: the category of the earliest of the
   * first ten lines that names one, else the page-range default. Always one of
   * the title-cased keywords or one of the five defaults, never empty.
   */
  function ExtractCategory(text: string, pageNum: int): (r: string)
    ensures r != []
    ensures r in PAGE_RANGE_CATEGORIES || exists k :: k in PRODUCT_KEYWORDS + DEPARTMENT_KEYWORDS && r == Title(k)
  {
    var lines := HeadLines(text);
    var k := FirstCategoryLine(lines);
    if k < |lines| then LineCategory(lines[k]).value
    else PageRangeCategory(pageNum)
  }

  /** The first ten lines of a page, the ones the classifier reads. */
  function HeadLines(text: string): (r: seq<string>)
    ensures |r| <= CATEGORY_LINES
  {
    Take(Split(text, '\n'), CATEGORY_LINES)
  }

  /** Line order dominates: the earliest of the first ten lines naming a category decides it. */
  lemma CategoryFromEarliestLine(text: string, pageNum: int, j: nat)
    requires j < |HeadLines(text)| && LineCategory(HeadLines(text)[j]).Some?
    requires forall i :: 0 <= i < j ==> LineCategory(HeadLines(text)[i]).None?
    ensures ExtractCategory(text, pageNum) == LineCategory(HeadLines(text)[j]).value
  {
    var k := FirstCategoryLine(HeadLines(text));
    assert k == j;
  }

  /** When none of the first ten lines names a category, the page number decides it. */
  lemma CategoryFallback(text: string, pageNum: int)
    requires forall i :: 0 <= i < |HeadLines(text)| ==> LineCategory(HeadLines(text)[i]).None?
    ensures ExtractCategory(text, pageNum) == PageRangeCategory(pageNum)
  {
    assert FirstCategoryLine(HeadLines(text)) == |HeadLines(text)|;
  }
}
