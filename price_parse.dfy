/**
 * Reading the net unit price out of the portal's results table: the first
 * header naming a net price picks the column, and the first data row's cell
 * in that column gives the leftmost decimal number, commas dropped.
 */
module PriceParse {
  import opened Optional
  import opened Strings
  import Utils

  /** One row of the results table: the text of its header cells (`th`) and of its data cells (`td`). */
  datatype HtmlRow = HtmlRow(headerCells: seq<string>, dataCells: seq<string>)

  /** A decimal number as the portal writes it: the digits before the point and those after it. */
  datatype Decimal = Decimal(whole: string, fraction: string)

  function Pow10(n: nat): (r: nat)
    ensures r >= 1
  {
    if n == 0 then 1 else 10 * Pow10(n - 1)
  }

  predicate WellFormed(d: Decimal)
  {
    d.whole != [] && AllDigits(d.whole) && AllDigits(d.fraction)
  }

  /** What `float()` reads from the matched text, kept exact. */
  function DecimalValue(d: Decimal): (r: real)
    requires WellFormed(d)
    ensures r >= 0.0
    ensures DigitsValue(d.whole) as real <= r < DigitsValue(d.whole) as real + 1.0
  {
    FractionBelowOne(d.fraction);
    DigitsValue(d.whole) as real + DigitsValue(d.fraction) as real / Pow10(|d.fraction|) as real
  }

  /** A run of n digits is worth less than 10^n. */
  lemma {:induction false} DigitsBelowPow10(s: string)
    requires AllDigits(s)
    ensures DigitsValue(s) < Pow10(|s|)
  {
    if s != [] {
      DigitsBelowPow10(s[..|s| - 1]);
    }
  }

  lemma FractionBelowOne(f: string)
    requires AllDigits(f)
    ensures 0.0 <= DigitsValue(f) as real / Pow10(|f|) as real < 1.0
  {
    DigitsBelowPow10(f);
    DivBelowOne(DigitsValue(f) as real, Pow10(|f|) as real);
  }

  lemma DivBelowOne(a: real, b: real)
    requires 0.0 <= a < b
    ensures 0.0 <= a / b < 1.0
  {
  }

  /** The length of the run of digits that starts at i. */
  function DigitRun(s: string, i: nat): (n: nat)
    requires i <= |s|
    ensures i + n <= |s|
    ensures forall k :: i <= k < i + n ==> IsDigit(s[k])
    ensures i + n == |s| || !IsDigit(s[i + n])
    decreases |s| - i
  {
    if i < |s| && IsDigit(s[i]) then 1 + DigitRun(s, i + 1) else 0
  }

  /** The first digit at or after i. */
  function FirstDigit(s: string, i: nat): (r: Option<nat>)
    requires i <= |s|
    ensures r.Some? ==> i <= r.value < |s| && IsDigit(s[r.value])
    ensures r.Some? ==> forall k :: i <= k < r.value ==> !IsDigit(s[k])
    ensures r.None? ==> forall k :: i <= k < |s| ==> !IsDigit(s[k])
    decreases |s| - i
  {
    if i == |s| then None
    else if IsDigit(s[i]) then Some(i)
    else FirstDigit(s, i + 1)
  }

  /**
   * `re.search(r'[\d,]+\.?\d*', s)` on text without commas: the leftmost
   * digits, greedily, then a point and the digits after it if a point follows.
   */
  function NumberMatch(s: string): (r: Option<Decimal>)
    ensures r.Some? ==> WellFormed(r.value)
    ensures r.None? <==> forall k :: 0 <= k < |s| ==> !IsDigit(s[k])
  {
    match FirstDigit(s, 0)
    case None => None
    case Some(k) =>
      var e := k + DigitRun(s, k);
      assert AllDigits(s[k..e]);
      if e < |s| && s[e] == '.' then
        var f := DigitRun(s, e + 1);
        assert AllDigits(s[e + 1..e + 1 + f]);
        Some(Decimal(s[k..e], s[e + 1..e + 1 + f]))
      else Some(Decimal(s[k..e], ""))
  }

  /** `s.replace(',', '')` */
  function RemoveCommas(s: string): (r: string)
    ensures |r| <= |s|
    ensures ',' !in r
    ensures ',' !in s ==> r == s
  {
    if s == [] then []
    else RemoveCommas(s[..|s| - 1]) + (if s[|s| - 1] == ',' then [] else [s[|s| - 1]])
  }

  predicate NotComma(c: char) { c != ',' }

  /** Dropping the commas keeps every other character, in order: it is the comprehension that filters them out. */
  lemma {:induction false} RemoveCommasFilters(s: string)
    ensures RemoveCommas(s) == Utils.Filter(s, NotComma)
  {
    if s != [] {
      RemoveCommasFilters(s[..|s| - 1]);
    }
  }

  /** What the price cell is worth: the leftmost number of the stripped cell, commas dropped. */
  function CellPrice(cell: string): (r: Option<real>)
    ensures r.Some? ==> r.value >= 0.0
  {
    match NumberMatch(RemoveCommas(Strip(cell)))
    case Some(d) => Some(DecimalValue(d))
    case None => None
  }

  /** A header names the net price when it mentions both "net" and "price". */
  predicate NamesNetPrice(header: string)
  {
    Contains(header, "net") && Contains(header, "price")
  }

  /** The header texts as compared: stripped and lower-cased. */
  function Headers(cells: seq<string>): (r: seq<string>)
    ensures |r| == |cells|
    ensures forall i :: 0 <= i < |cells| ==> r[i] == LowerStr(Strip(cells[i]))
  {
    if cells == [] then [] else Headers(cells[..|cells| - 1]) + [LowerStr(Strip(cells[|cells| - 1]))]
  }

  /** The first header from i on that names the net price (the scan breaks at the first one). */
  function NetPriceColumn(headers: seq<string>, i: nat): (r: Option<nat>)
    requires i <= |headers|
    ensures r.Some? ==> i <= r.value < |headers| && NamesNetPrice(headers[r.value])
    ensures r.Some? ==> forall k :: i <= k < r.value ==> !NamesNetPrice(headers[k])
    ensures r.None? ==> forall k :: i <= k < |headers| ==> !NamesNetPrice(headers[k])
    decreases |headers| - i
  {
    if i == |headers| then None
    else if NamesNetPrice(headers[i]) then Some(i)
    else NetPriceColumn(headers, i + 1)
  }

  /**
   * `_parse_price_from_table`: no price without a header row and a data row,
   * without a net-price header, or when the first data row has no cell under it.
   */
  function ParsePriceFromTable(rows: seq<HtmlRow>): (r: Option<real>)
    ensures |rows| < 2 ==> r.None?
    ensures |rows| >= 2 && (forall h :: h in rows[0].headerCells ==> !NamesNetPrice(LowerStr(Strip(h)))) ==> r.None?
    ensures r.Some? ==> r.value >= 0.0
    ensures r.Some? ==> exists c :: (0 <= c < |rows[1].dataCells| && c < |rows[0].headerCells|
                                     && NamesNetPrice(LowerStr(Strip(rows[0].headerCells[c])))
                                     && r == CellPrice(rows[1].dataCells[c]))
    ensures |rows| >= 2 && NetPriceColumn(Headers(rows[0].headerCells), 0).Some? ==>
      var c := NetPriceColumn(Headers(rows[0].headerCells), 0).value;
      r == if c < |rows[1].dataCells| then CellPrice(rows[1].dataCells[c]) else None
  {
    if |rows| < 2 then None
    else
      var headers := Headers(rows[0].headerCells);
      match NetPriceColumn(headers, 0)
      case None => None
      case Some(col) =>
        var cells := rows[1].dataCells;
        if |cells| <= col then None
        else CellPrice(cells[col])
  }

  /** The first data row too short for the net-price column gives no price. */
  lemma ShortDataRowGivesNoPrice(rows: seq<HtmlRow>)
    requires |rows| >= 2
    requires NetPriceColumn(Headers(rows[0].headerCells), 0).Some?
    requires |rows[1].dataCells| <= NetPriceColumn(Headers(rows[0].headerCells), 0).value
    ensures ParsePriceFromTable(rows).None?
  {
  }

  /**
   * The number is read where the first digit is: text without digits, then a
   * number, then text that does not continue it, reads as that number.
   */
  lemma ReadsLeftmostNumber(pre: string, whole: string, fraction: string, post: string)
    requires forall k :: 0 <= k < |pre| ==> !IsDigit(pre[k])
    requires WellFormed(Decimal(whole, fraction))
    requires post == [] || !IsDigit(post[0])
    ensures NumberMatch(pre + whole + "." + fraction + post) == Some(Decimal(whole, fraction))
  {
    var s := pre + whole + "." + fraction + post;
    var e := |pre| + |whole|;
    PointedShape(pre, whole, fraction, post);
    FirstDigitAfter(pre, whole + ("." + fraction + post));
    DigitRunOf(pre, whole, "." + fraction + post);
    DigitRunOf(pre + whole + ".", fraction, post);
    NumberMatchWithPoint(s, |pre|, e, |fraction|);
  }

  /**
   * Without a point: text without digits, then digits, then text that starts
   * with neither a digit nor a point, reads as that whole number.
   */
  lemma ReadsLeftmostWholeNumber(pre: string, whole: string, post: string)
    requires forall k :: 0 <= k < |pre| ==> !IsDigit(pre[k])
    requires whole != [] && AllDigits(whole)
    requires post == [] || (!IsDigit(post[0]) && post[0] != '.')
    ensures NumberMatch(pre + whole + post) == Some(Decimal(whole, ""))
  {
    var s := pre + whole + post;
    var e := |pre| + |whole|;
    assert s == pre + (whole + post);
    assert s[|pre|..e] == whole;
    FirstDigitAfter(pre, whole + post);
    DigitRunOf(pre, whole, post);
    NumberMatchWithoutPoint(s, |pre|, e);
  }

  /** Where the first digit and the end of its run are known and no point follows. */
  lemma NumberMatchWithoutPoint(s: string, k: nat, e: nat)
    requires k <= e <= |s|
    requires FirstDigit(s, 0) == Some(k)
    requires DigitRun(s, k) == e - k
    requires e == |s| || s[e] != '.'
    ensures NumberMatch(s) == Some(Decimal(s[k..e], ""))
  {
  }

  /** How the pieces of a pointed number sit in their concatenation. */
  lemma PointedShape(pre: string, whole: string, fraction: string, post: string)
    ensures var s := pre + whole + "." + fraction + post;
            var e := |pre| + |whole|;
            && e + 1 + |fraction| <= |s| && s[e] == '.'
            && s[|pre|..e] == whole && s[e + 1..e + 1 + |fraction|] == fraction
            && s == pre + (whole + ("." + fraction + post))
            && s == pre + whole + ("." + fraction + post)
            && s == (pre + whole + ".") + fraction + post
  {
  }

  /** Where the first digit, the end of its run, the point and the digits after it are known. */
  lemma NumberMatchWithPoint(s: string, k: nat, e: nat, f: nat)
    requires k <= e < |s| && e + 1 + f <= |s|
    requires FirstDigit(s, 0) == Some(k)
    requires DigitRun(s, k) == e - k
    requires s[e] == '.'
    requires DigitRun(s, e + 1) == f
    ensures NumberMatch(s) == Some(Decimal(s[k..e], s[e + 1..e + 1 + f]))
  {
  }

  lemma {:induction false} FirstDigitAfter(pre: string, rest: string)
    requires forall k :: 0 <= k < |pre| ==> !IsDigit(pre[k])
    requires rest != [] && IsDigit(rest[0])
    ensures FirstDigit(pre + rest, 0) == Some(|pre|)
  {
    FirstDigitAt(pre + rest, 0, |pre|);
  }

  lemma DigitRunOf(a: string, w: string, b: string)
    requires AllDigits(w)
    requires b == [] || !IsDigit(b[0])
    ensures DigitRun(a + w + b, |a|) == |w|
  {
    DigitRunExact(a + w + b, |a|, |w|);
  }

  lemma {:induction false} FirstDigitAt(s: string, i: nat, k: nat)
    requires i <= k < |s| && IsDigit(s[k])
    requires forall j :: i <= j < k ==> !IsDigit(s[j])
    ensures FirstDigit(s, i) == Some(k)
    decreases k - i
  {
    if i < k {
      FirstDigitAt(s, i + 1, k);
    }
  }

  lemma {:induction false} DigitRunExact(s: string, i: nat, n: nat)
    requires i + n <= |s|
    requires forall j :: i <= j < i + n ==> IsDigit(s[j])
    requires i + n == |s| || !IsDigit(s[i + n])
    ensures DigitRun(s, i) == n
    decreases n
  {
    if n > 0 {
      DigitRunExact(s, i + 1, n - 1);
    }
  }

  lemma DollarPriceValue()
    ensures WellFormed(Decimal("123", "45")) && DecimalValue(Decimal("123", "45")) == 123.45
  {
    assert DigitsValue("123") == 123 by {
      assert "123"[..2] == "12";
      assert "12"[..1] == "1";
      assert "1"[..0] == "";
    }
    assert DigitsValue("45") == 45 by {
      assert "45"[..1] == "4";
      assert "4"[..0] == "";
    }
    assert Pow10(2) == 100;
  }

  lemma DollarPriceMatch()
    ensures NumberMatch(RemoveCommas(Strip("$123.45"))) == Some(Decimal("123", "45"))
  {
    DollarCellClean();
    DollarPieces();
    ReadsLeftmostNumber("$", "123", "45", "");
  }

  lemma DollarCellClean()
    ensures RemoveCommas(Strip("$123.45")) == "$123.45"
  {
    StripOfStripped("$123.45");
    assert ',' !in "$123.45";
  }

  lemma DollarPieces()
    ensures "$" + "123" + "." + "45" + "" == "$123.45"
    ensures !IsDigit("$"[0]) && WellFormed(Decimal("123", "45"))
  {
  }

  /** A dollar price reads as its value: "$123.45" is 123.45. */
  lemma DollarPriceExample()
    ensures CellPrice("$123.45") == Some(123.45)
  {
    DollarPriceMatch();
    DollarPriceValue();
  }
}
