/** File-name parts of a catalog path, and the catalog's version and creation date. */
module CatalogInfo {
  import opened Optional
  import opened Strings
  import opened Time
  import opened PdfDocument

  /** Index of the last occurrence of c in s, -1 when there is none (`s.rfind(c)`). */
  function LastIndexOf(s: string, c: char): (i: int)
    ensures -1 <= i < |s|
    ensures i >= 0 ==> s[i] == c
    ensures forall j :: i < j < |s| ==> s[j] != c
  {
    if s == [] then -1
    else if s[|s| - 1] == c then |s| - 1
    else LastIndexOf(s[..|s| - 1], c)
  }

  /** `Path(p).name`: the text after the last separator. */
  function PathName(path: string): (r: string)
    ensures '/' !in r
  {
    path[LastIndexOf(path, '/') + 1..]
  }

  /** Where `.suffix` starts: the last dot, if it is neither the first nor the last character. */
  function SuffixStart(name: string): (i: int)
  {
    var i := LastIndexOf(name, '.');
    if 0 < i < |name| - 1 then i else |name|
  }

  /** `Path(p).suffix` */
  function Suffix(name: string): (r: string)
    ensures r == [] || (r[0] == '.' && '.' !in r[1..] && |r| >= 2)
  {
    name[SuffixStart(name)..]
  }

  /** `Path(p).stem` */
  function Stem(name: string): string
  {
    name[..SuffixStart(name)]
  }

  /** The stem and the suffix split the name. */
  lemma StemSuffix(name: string)
    ensures Stem(name) + Suffix(name) == name
    ensures Suffix(name) != [] ==> Stem(name) != []
  {
  }

  predicate FourDigitsAt(s: string, i: nat)
  {
    i + 4 <= |s| && AllDigits(s[i..i + 4])
  }

  /** `re.search(r'\d{4}', s)` from position i: the leftmost run of four digits. */
  function FirstFourDigits(s: string, i: nat): (r: Option<nat>)
    ensures r.Some? ==> i <= r.value && FourDigitsAt(s, r.value)
    ensures r.Some? ==> forall j :: i <= j < r.value ==> !FourDigitsAt(s, j)
    ensures r.None? ==> forall j :: i <= j ==> !FourDigitsAt(s, j)
    decreases |s| - i
  {
    if i + 4 > |s| then None
    else if FourDigitsAt(s, i) then Some(i)
    else FirstFourDigits(s, i + 1)
  }

  const CATALOG: string := "catalog"

  /** "catalog", in any case, occurs in s at position i (7 is its length). */
  predicate CatalogAt(s: string, i: nat)
  {
    i + 7 <= |s| && forall k :: 0 <= k < 7 ==> Lower(s[i + k]) == CATALOG[k]
  }

  /** Matching "catalog" case-insensitively is matching it in the lower-cased text. */
  lemma CatalogAtLower(s: string, i: nat)
    requires i + 7 <= |s|
    ensures CatalogAt(s, i) <==> OccursAt(LowerStr(s), CATALOG, i)
  {
    CatalogWindowIff(s, i, LowerStr(s)[i..i + 7]);
  }

  lemma CatalogWindowIff(s: string, i: nat, w: string)
    requires i + 7 <= |s| && w == LowerStr(s)[i..i + 7]
    ensures |CATALOG| == 7
    ensures CatalogAt(s, i) <==> w == CATALOG
  {
    LowerWindow(s, i, w);
    if CatalogAt(s, i) {
      CatalogWindow(w, s, i);
    }
    if w == CATALOG {
      WindowCatalog(w, s, i);
    }
  }

  lemma WindowCatalog(w: string, s: string, i: nat)
    requires i + 7 <= |s| && w == CATALOG
    requires forall k :: 0 <= k < 7 ==> w[k] == Lower(s[i + k])
    ensures CatalogAt(s, i)
  {
  }

  lemma LowerWindow(s: string, i: nat, w: string)
    requires i + 7 <= |s| && w == LowerStr(s)[i..i + 7]
    ensures |CATALOG| == 7 && |w| == 7
    ensures forall k :: 0 <= k < 7 ==> w[k] == Lower(s[i + k])
  {
  }

  lemma CatalogWindow(w: string, s: string, i: nat)
    requires |w| == 7 && CatalogAt(s, i)
    requires forall k :: 0 <= k < 7 ==> w[k] == Lower(s[i + k])
    ensures w == CATALOG
  {
    assert |CATALOG| == 7;
  }

  /**
   * The end of the greedy `.*catalog` that follows position `from`: just after the
   * last "catalog" (in any case) that ends before `hi`, where the line does.
   */
  function CatalogEnd(s: string, from: nat, hi: int): (r: Option<nat>)
    requires from <= |s| && hi <= |s|
    ensures r.Some? ==> from + 7 <= r.value <= hi && CatalogAt(s, r.value - 7)
    decreases hi
  {
    if hi < from + 7 then None
    else if CatalogAt(s, hi - 7) then Some(hi)
    else CatalogEnd(s, from, hi - 1)
  }

  /** The `.*` is greedy: no later "catalog" fits before `hi`, and none at all when there is no match. */
  lemma {:induction false} CatalogEndIsLast(s: string, from: nat, hi: int)
    requires from <= |s| && hi <= |s|
    ensures CatalogEnd(s, from, hi).Some? ==>
      forall j :: CatalogEnd(s, from, hi).value - 7 < j && j + 7 <= hi ==> !CatalogAt(s, j)
    ensures CatalogEnd(s, from, hi).None? ==> forall j :: from <= j && j + 7 <= hi ==> !CatalogAt(s, j)
    decreases hi
  {
    if hi >= from + 7 && !CatalogAt(s, hi - 7) {
      CatalogEndIsLast(s, from, hi - 1);
      assert CatalogEnd(s, from, hi) == CatalogEnd(s, from, hi - 1);
    }
  }

  /** Where the line holding position i ends: the next newline, or the end of the text. */
  function LineEnd(s: string, i: nat): (e: nat)
    requires i <= |s|
    ensures i <= e <= |s| && '\n' !in s[i..e]
    ensures e < |s| ==> s[e] == '\n'
  {
    var e := i + IndexOf(s[i..], '\n');
    assert s[i..e] == s[i..][..e - i];
    e
  }

  /** Where the phrase `\d{4}.*catalog` that starts at i ends, if one starts there. */
  function PhraseEnd(text: string, i: nat): (r: Option<nat>)
    requires i + 4 <= |text|
    ensures r.Some? ==> i + 4 + 7 <= r.value <= |text| && CatalogAt(text, r.value - 7)
  {
    if FourDigitsAt(text, i) then CatalogEnd(text, i + 4, LineEnd(text, i + 4)) else None
  }

  /** A version phrase starts with four digits, ends with "catalog" in any case and stays on one line. */
  predicate VersionPhrase(v: string)
  {
    |v| >= 4 + 7 && AllDigits(v[..4]) && '\n' !in v && CatalogAt(v, |v| - 7)
  }

  lemma CatalogAtSlice(text: string, i: nat, e: nat)
    requires i + 7 <= e <= |text| && CatalogAt(text, e - 7)
    ensures CatalogAt(text[i..e], |text[i..e]| - 7)
  {
  }

  lemma PhraseOnOneLine(text: string, i: nat, e: nat)
    requires i + 4 <= |text| && PhraseEnd(text, i) == Some(e)
    ensures '\n' !in text[i..e]
  {
    var r := text[i..e];
    var le := LineEnd(text, i + 4);
    assert AllDigits(text[i..i + 4]);
    assert forall k :: 0 <= k < 4 ==> r[k] == text[i..i + 4][k];
    assert forall k :: 4 <= k < |r| ==> r[k] == text[i + 4..le][k - 4];
  }

  lemma PhraseStartsWithDigits(text: string, i: nat, e: nat)
    requires i + 4 <= e <= |text| && FourDigitsAt(text, i)
    ensures AllDigits(text[i..e][..4])
  {
    assert text[i..e][..4] == text[i..i + 4];
  }

  lemma PhraseShape(text: string, i: nat, e: nat)
    requires i + 4 <= |text| && PhraseEnd(text, i) == Some(e)
    ensures VersionPhrase(text[i..e])
  {
    PhraseStartsWithDigits(text, i, e);
    CatalogAtSlice(text, i, e);
    PhraseOnOneLine(text, i, e);
  }

  /**
   * `re.search(r'(\d{4}.*catalog)', text, re.IGNORECASE)` from position i: the
   * leftmost start of four digits followed, on the same line, by "catalog".
   */
  function VersionInText(text: string, i: nat): (r: Option<string>)
    ensures r.Some? ==> VersionPhrase(r.value)
    ensures r.None? <==> forall j :: i <= j && j + 4 <= |text| ==> PhraseEnd(text, j).None?
    decreases |text| - i
  {
    if i + 4 > |text| then None
    else match PhraseEnd(text, i)
      case Some(e) =>
        PhraseShape(text, i, e);
        Some(text[i..e])
      case None => VersionInText(text, i + 1)
  }

  /** The search finds the leftmost phrase: the first start from i on where one begins decides the result. */
  lemma {:induction false} VersionInTextLeftmost(text: string, i: nat, j: nat)
    requires i <= j && j + 4 <= |text| && PhraseEnd(text, j).Some?
    requires forall k :: i <= k < j ==> PhraseEnd(text, k).None?
    ensures VersionInText(text, i) == Some(text[j..PhraseEnd(text, j).value])
    decreases j - i
  {
    if i < j {
      VersionInTextLeftmost(text, i + 1, j);
    }
  }

  const UNKNOWN_VERSION: string := "Unknown"

  /**
   * `_extract_catalog_version`: the leftmost four digits of the file stem; else
   * the version phrase of the first page's text; else "Unknown".
   */
  function ExtractCatalogVersion(stem: string, doc: Document): (r: string)
    ensures r == UNKNOWN_VERSION || (|r| >= 4 && AllDigits(r[..4]))
    ensures FirstFourDigits(stem, 0).None? && r != UNKNOWN_VERSION ==> VersionPhrase(r)
    ensures FirstFourDigits(stem, 0).Some? ==> r == stem[FirstFourDigits(stem, 0).value..][..4]
    ensures FirstFourDigits(stem, 0).None? && doc.opens && doc.pages != [] && VersionInText(doc.pages[0].text, 0).Some?
      ==> r == VersionInText(doc.pages[0].text, 0).value
    ensures r == UNKNOWN_VERSION <==>
      FirstFourDigits(stem, 0).None? && !(doc.opens && doc.pages != [] && VersionInText(doc.pages[0].text, 0).Some?)
  {
    match FirstFourDigits(stem, 0)
    case Some(i) => stem[i..i + 4]
    case None =>
      if doc.opens && doc.pages != [] && doc.pages[0].text != "" then
        match VersionInText(doc.pages[0].text, 0)
        case Some(v) => v
        case None => UNKNOWN_VERSION
      else UNKNOWN_VERSION
  }

  /** `1[0-2]`, `0[1-9]`, `[1-9]`: the alternatives of `%m`, in the order they are tried. */
  function MonthLength(s: string, pos: nat, alt: nat): (n: Option<nat>)
    ensures n.Some? ==> pos + n.value <= |s| && 1 <= n.value <= 2 && AllDigits(s[pos..pos + n.value])
  {
    if alt == 0 && pos + 2 <= |s| && s[pos] == '1' && '0' <= s[pos + 1] <= '2' then Some(2)
    else if alt == 1 && pos + 2 <= |s| && s[pos] == '0' && '1' <= s[pos + 1] <= '9' then Some(2)
    else if alt == 2 && pos + 1 <= |s| && '1' <= s[pos] <= '9' then Some(1)
    else None
  }

  /** `3[01]`, `[12]\d`, `0[1-9]`, `[1-9]`, ` [1-9]`: the alternatives of `%d`; the number is what `int()` reads. */
  function DayField(s: string, pos: nat, alt: nat): (r: Option<(nat, nat)>)
    ensures r.Some? ==> pos + r.value.0 <= |s| && 1 <= r.value.0 <= 2 && 1 <= r.value.1 <= 31
  {
    if alt == 0 && pos + 2 <= |s| && s[pos] == '3' && '0' <= s[pos + 1] <= '1' then Some((2, 30 + DigitValue(s[pos + 1])))
    else if alt == 1 && pos + 2 <= |s| && '1' <= s[pos] <= '2' && IsDigit(s[pos + 1]) then
      Some((2, DigitValue(s[pos]) * 10 + DigitValue(s[pos + 1])))
    else if alt == 2 && pos + 2 <= |s| && s[pos] == '0' && '1' <= s[pos + 1] <= '9' then Some((2, DigitValue(s[pos + 1])))
    else if alt == 3 && pos + 1 <= |s| && '1' <= s[pos] <= '9' then Some((1, DigitValue(s[pos])))
    else if alt == 4 && pos + 2 <= |s| && s[pos] == ' ' && '1' <= s[pos + 1] <= '9' then Some((2, DigitValue(s[pos + 1])))
    else None
  }

  /**
   * The regular-expression match `strptime` makes for '%Y%m%d': four digits, then
   * the first month alternative from `mAlt` on, with the first day alternative
   * from `dAlt` on that matches after it. Returns (month, day, end of match).
   */
  function MatchMonthDay(s: string, mAlt: nat, dAlt: nat): (r: Option<(nat, nat, nat)>)
    requires |s| >= 4
    ensures r.Some? ==> 1 <= r.value.0 <= 12 && 1 <= r.value.1 <= 31 && r.value.2 <= |s|
    decreases 3 - mAlt, 5 - dAlt
  {
    if mAlt >= 3 then None
    else if dAlt >= 5 then MatchMonthDay(s, mAlt + 1, 0)
    else match MonthLength(s, 4, mAlt)
      case None => MatchMonthDay(s, mAlt + 1, 0)
      case Some(ml) =>
        var month := if ml == 2 then DigitValue(s[4]) * 10 + DigitValue(s[5]) else DigitValue(s[4]);
        match DayField(s, 4 + ml, dAlt)
        case None => MatchMonthDay(s, mAlt, dAlt + 1)
        case Some(df) => Some((month, df.1, 4 + ml + df.0))
  }

  /**
   * `datetime.strptime(s, '%Y%m%d')`: None where it raises ValueError, because the
   * pattern does not match, text is left over, or the date does not exist.
   */
  function StrptimeYmd(s: string): (r: Option<(int, int, int)>)
    ensures r.Some? ==> ValidDate(r.value.0, r.value.1, r.value.2)
    ensures r.Some? ==> 6 <= |s| <= 8 && AllDigits(s[..4]) && r.value.0 == DigitsValue(s[..4])
  {
    if |s| < 4 || !AllDigits(s[..4]) then None
    else match MatchMonthDay(s, 0, 0)
      case None => None
      case Some(md) =>
        var year := DigitsValue(s[..4]);
        if md.2 != |s| || !ValidDate(year, md.0, md.1) then None
        else Some((year, md.0, md.1))
  }

  /**
   * `_extract_catalog_date`: a date only when `/CreationDate` starts with "D:"
   * and the next eight characters parse as a real YYYYMMDD date.
   */
  function ExtractCatalogDate(doc: Document): (r: Option<Timestamp>)
    ensures r.Some? ==> doc.infoReadable && doc.creationDate.Some? && StartsWith(doc.creationDate.value, "D:")
    ensures r.Some? ==> var s := doc.creationDate.value;
      var ymd := StrptimeYmd(s[2..if |s| < 10 then |s| else 10]);
      ymd.Some? && r.value == Midnight(ymd.value.0, ymd.value.1, ymd.value.2)
    ensures doc.infoReadable && doc.creationDate.Some? && StartsWith(doc.creationDate.value, "D:") ==>
      var s := doc.creationDate.value;
      StrptimeYmd(s[2..if |s| < 10 then |s| else 10]).Some? ==> r.Some?
  {
    if !doc.infoReadable || doc.creationDate.None? then None
    else
      var s := doc.creationDate.value;
      if !StartsWith(s, "D:") then None
      else match StrptimeYmd(s[2..if |s| < 10 then |s| else 10])
        case Some(ymd) => Some(Midnight(ymd.0, ymd.1, ymd.2))
        case None => None
  }

  function DigitChar(n: nat): (c: char)
    requires n < 10
    ensures IsDigit(c) && DigitValue(c) == n
  {
    ('0' as int + n) as char
  }

  /** `f"{y:04d}{m:02d}{d:02d}"` */
  function DateDigits(y: nat, m: nat, d: nat): string
    requires y < 10000 && m < 100 && d < 100
  {
    [DigitChar(y / 1000), DigitChar(y / 100 % 10), DigitChar(y / 10 % 10), DigitChar(y % 10),
     DigitChar(m / 10), DigitChar(m % 10), DigitChar(d / 10), DigitChar(d % 10)]
  }

  lemma FourDigitsValue(s: string, y: nat)
    requires y < 10000 && |s| == 4
    requires s == [DigitChar(y / 1000), DigitChar(y / 100 % 10), DigitChar(y / 10 % 10), DigitChar(y % 10)]
    ensures AllDigits(s) && DigitsValue(s) == y
  {
    DigitsValueOfFour(s);
    PlaceValues(y);
  }

  /** The value of four digits, by place. */
  lemma DigitsValueOfFour(s: string)
    requires |s| == 4 && AllDigits(s)
    ensures DigitsValue(s) == ((DigitValue(s[0]) * 10 + DigitValue(s[1])) * 10 + DigitValue(s[2])) * 10 + DigitValue(s[3])
  {
    assert s[..1][..0] == [];
    assert DigitsValue(s[..1]) == DigitValue(s[0]);
    assert s[..2][..1] == s[..1];
    assert DigitsValue(s[..2]) == DigitValue(s[0]) * 10 + DigitValue(s[1]);
    assert s[..3][..2] == s[..2];
    assert s[..4][..3] == s[..3] && s[..4] == s;
  }

  /** A number below 10000 is the sum of its decimal places. */
  lemma PlaceValues(y: nat)
    requires y < 10000
    ensures ((y / 1000 * 10 + y / 100 % 10) * 10 + y / 10 % 10) * 10 + y % 10 == y
  {
    DivTen(y);
    DivTen(y / 10);
    DivTen(y / 100);
    assert y / 10 / 10 == y / 100;
    assert y / 100 / 10 == y / 1000;
  }

  lemma DivTen(a: nat)
    ensures a == a / 10 * 10 + a % 10
  {
  }

  /** Two month digits `mm`, 1 to 12: the first month alternative that matches takes both. */
  lemma MonthDigitsMatch(s: string, m: nat)
    requires |s| == 8 && 1 <= m <= 12 && s[4] == DigitChar(m / 10) && s[5] == DigitChar(m % 10)
    ensures var mAlt := if m >= 10 then 0 else 1;
      && MonthLength(s, 4, mAlt) == Some(2)
      && MatchMonthDay(s, 0, 0) == MatchMonthDay(s, mAlt, 0)
  {
    if m < 10 {
      assert MonthLength(s, 4, 0).None?;
    }
  }

  /** Two day digits `dd`, 1 to 31, after a two-digit month: the day alternative that takes both matches. */
  lemma DayDigitsMatch(s: string, mAlt: nat, m: nat, d: nat)
    requires |s| == 8 && mAlt < 3 && MonthLength(s, 4, mAlt) == Some(2)
    requires DigitValue(s[4]) * 10 + DigitValue(s[5]) == m
    requires 1 <= d <= 31 && s[6] == DigitChar(d / 10) && s[7] == DigitChar(d % 10)
    ensures MatchMonthDay(s, mAlt, 0) == Some((m, d, 8))
  {
    var dAlt := if d >= 30 then 0 else if d >= 10 then 1 else 2;
    assert DayField(s, 6, dAlt) == Some((2, d));
    if dAlt >= 1 {
      assert DayField(s, 6, 0).None?;
    }
    if dAlt == 2 {
      assert DayField(s, 6, 1).None?;
    }
  }

  /** Every real date written as YYYYMMDD parses back to itself, for four-digit years. */
  lemma StrptimeRoundTrip(y: nat, m: nat, d: nat)
    requires ValidDate(y, m, d)
    ensures StrptimeYmd(DateDigits(y, m, d)) == Some((y, m, d))
  {
    var s := DateDigits(y, m, d);
    FourDigitsValue(s[..4], y);
    MonthDigitsMatch(s, m);
    DayDigitsMatch(s, if m >= 10 then 0 else 1, m, d);
  }

  /** A creation date whose digits are left over after the match is refused. */
  lemma TrailingDataRefused()
    ensures StrptimeYmd("20241301").None?
  {
    var s := "20241301";
    assert MonthLength(s, 4, 0).None? && MonthLength(s, 4, 1).None? && MonthLength(s, 4, 2) == Some(1);
    assert DayField(s, 5, 0) == Some((2, 30));
    assert MatchMonthDay(s, 0, 0) == MatchMonthDay(s, 2, 0);
  }
}
