/**
 * The page scanner and the extraction driver: identifiers found by the three
 * patterns in a page's text, then those found in its tables; duplicates merged,
 * every part stamped with its catalog, and the catalog's counts filled in.
 */
module PdfExtractor {
  import opened Optional
  import opened Strings
  import opened Time
  import opened Json
  import opened Settings
  import opened Utils
  import opened Schemas
  import opened PartPatterns
  import opened TextHeuristics
  import opened Tables
  import opened Dedup
  import opened PdfDocument
  import opened CatalogInfo

  /** The match starts ms of p all leave room for a whole match in the text. */
  predicate InText(p: PartNumberPattern, text: string, ms: seq<nat>)
  {
    forall k :: 0 <= k < |ms| ==> ms[k] + PatternLength(p) <= |text|
  }

  lemma FindIterInText(p: PartNumberPattern, text: string)
    ensures InText(p, text, FindIter(p, text, 0))
  {
    var ms := FindIter(p, text, 0);
    FindIterFindsEveryMatch(p, text, 0);
    forall k | 0 <= k < |ms|
      ensures ms[k] + PatternLength(p) <= |text|
    {
      assert ms[k] in ms;
      assert MatchAt(p, text, ms[k]);
    }
  }

  /** The start of every match of p in the text, as `re.finditer(p, text)` reports them. */
  function Matches(p: PartNumberPattern, text: string): (r: seq<nat>)
    ensures InText(p, text, r)
  {
    FindIterInText(p, text);
    FindIter(p, text, 0)
  }

  /** `finditer` reports exactly the match positions, left to right. */
  lemma MatchesAreMatches(p: PartNumberPattern, text: string)
    ensures forall m :: m in Matches(p, text) <==> MatchAt(p, text, m)
    ensures forall a, b :: 0 <= a < b < |Matches(p, text)| ==> Matches(p, text)[a] < Matches(p, text)[b]
  {
    FindIterFindsEveryMatch(p, text, 0);
  }

  /** The part a text match yields: the identifier, the description after the match, the page's category. */
  function TextPart(number: string, text: string, end: nat, pageNum: int): Part
  {
    NewPart(number).(description := ExtractDescription(text, end),
                     category := ExtractCategory(text, pageNum),
                     pageReference := pageNum)
  }

  /** The text parts of a page: every part carries a valid identifier, the page and the page's one category. */
  predicate FromText(q: Part, text: string, pageNum: int)
  {
    && ValidatePartNumber(q.partNumber)
    && q.pageReference == pageNum
    && q.status == Extracted
    && q.category == ExtractCategory(text, pageNum)
  }

  /** What one match start contributes: its part, if the stripped match validates. */
  function MatchPart(p: PartNumberPattern, text: string, pageNum: int, m: nat): seq<Part>
    requires m + PatternLength(p) <= |text|
  {
    var w := Strip(MatchText(p, text, m));
    if ValidatePartNumber(w) then [TextPart(w, text, m + PatternLength(p), pageNum)] else []
  }

  /** The parts for the match starts ms of one pattern, in order, keeping the matches that validate once stripped. */
  function MatchParts(p: PartNumberPattern, text: string, pageNum: int, ms: seq<nat>): (r: seq<Part>)
    requires InText(p, text, ms)
    ensures |r| <= |ms|
  {
    if ms == [] then []
    else
      MatchParts(p, text, pageNum, ms[..|ms| - 1]) + MatchPart(p, text, pageNum, ms[|ms| - 1])
  }

  /** Every part one pattern yields carries a valid identifier, the page and the page's category. */
  lemma {:induction false} MatchPartsFromText(p: PartNumberPattern, text: string, pageNum: int, ms: seq<nat>)
    requires InText(p, text, ms)
    ensures forall q :: q in MatchParts(p, text, pageNum, ms) ==> FromText(q, text, pageNum)
  {
    if ms != [] {
      MatchPartsFromText(p, text, pageNum, ms[..|ms| - 1]);
    }
  }

  /** The text parts for a list of patterns: pattern by pattern, each in position order. */
  function PatternsParts(ps: seq<PartNumberPattern>, text: string, pageNum: int): (r: seq<Part>)
    ensures forall q :: q in r ==> FromText(q, text, pageNum)
  {
    if ps == [] then []
    else
      var p := ps[|ps| - 1];
      MatchPartsFromText(p, text, pageNum, Matches(p, text));
      PatternsParts(ps[..|ps| - 1], text, pageNum) + MatchParts(p, text, pageNum, Matches(p, text))
  }

  /** `_extract_parts_from_page`: nothing for a page without text, even when it has tables. */
  function PageParts(page: Page, pageNum: int): (r: seq<Part>)
    ensures page.text == [] ==> r == []
    ensures forall q :: q in r ==> FromText(q, page.text, pageNum) || FromTableRow(q, pageNum)
    ensures forall q :: q in r ==> ValidatePartNumber(q.partNumber) && q.pageReference == pageNum && q.status == Extracted
  {
    if page.text == [] then []
    else PatternsParts(PDF_PART_NUMBER_PATTERNS, page.text, pageNum) + TablesParts(page.tables, pageNum)
  }

  /** Each part of MatchParts comes from one of the match starts it was given. */
  lemma {:induction false} MatchPartOrigin(p: PartNumberPattern, text: string, pageNum: int, ms: seq<nat>, q: Part)
    requires InText(p, text, ms)
    requires q in MatchParts(p, text, pageNum, ms)
    ensures exists k :: 0 <= k < |ms| && q.partNumber == Strip(MatchText(p, text, ms[k]))
  {
    var front := ms[..|ms| - 1];
    if q in MatchParts(p, text, pageNum, front) {
      MatchPartOrigin(p, text, pageNum, front, q);
      var k :| 0 <= k < |front| && q.partNumber == Strip(MatchText(p, text, front[k]));
      assert ms[k] == front[k];
    } else {
      assert q.partNumber == Strip(MatchText(p, text, ms[|ms| - 1]));
    }
  }

  /** Each text part of a pattern is one of its matches, reported as matched. */
  lemma MatchPartIsMatch(p: PartNumberPattern, text: string, pageNum: int, q: Part)
    requires q in MatchParts(p, text, pageNum, Matches(p, text))
    ensures exists i :: MatchAt(p, text, i) && q.partNumber == MatchText(p, text, i)
  {
    var ms := Matches(p, text);
    MatchesAreMatches(p, text);
    MatchPartOrigin(p, text, pageNum, ms, q);
    var k :| 0 <= k < |ms| && q.partNumber == Strip(MatchText(p, text, ms[k]));
    assert MatchAt(p, text, ms[k]);
    MatchValidates(p, text, ms[k]);
  }

  /** Every text part of a page is a match of one of the patterns. */
  lemma {:induction false} PatternsPartsSound(ps: seq<PartNumberPattern>, text: string, pageNum: int, q: Part)
    requires q in PatternsParts(ps, text, pageNum)
    ensures exists p, i :: p in ps && MatchAt(p, text, i) && q.partNumber == MatchText(p, text, i)
  {
    var last := ps[|ps| - 1];
    if q in PatternsParts(ps[..|ps| - 1], text, pageNum) {
      PatternsPartsSound(ps[..|ps| - 1], text, pageNum, q);
      var p, i :| p in ps[..|ps| - 1] && MatchAt(p, text, i) && q.partNumber == MatchText(p, text, i);
      assert p in ps;
    } else {
      MatchPartIsMatch(last, text, pageNum, q);
    }
  }

  /** The scanner misses no match: each match yields a part whose identifier is the match. */
  lemma {:induction false} MatchPartsComplete(p: PartNumberPattern, text: string, pageNum: int, ms: seq<nat>, j: nat)
    requires InText(p, text, ms)
    requires j < |ms| && MatchAt(p, text, ms[j])
    ensures exists q :: q in MatchParts(p, text, pageNum, ms) && q.partNumber == MatchText(p, text, ms[j])
  {
    var m := ms[j];
    var front := ms[..|ms| - 1];
    MatchPartsLast(p, text, pageNum, ms);
    if j == |ms| - 1 {
      var q := MatchYieldsPart(p, text, pageNum, m);
      InRight(q, MatchParts(p, text, pageNum, front), MatchPart(p, text, pageNum, m));
    } else {
      assert front[j] == m;
      MatchPartsComplete(p, text, pageNum, front, j);
      var q :| q in MatchParts(p, text, pageNum, front) && q.partNumber == MatchText(p, text, m);
      InLeft(q, MatchParts(p, text, pageNum, front), MatchPart(p, text, pageNum, ms[|ms| - 1]));
    }
  }

  /** A match yields exactly one part, carrying the match as its identifier. */
  lemma MatchYieldsPart(p: PartNumberPattern, text: string, pageNum: int, m: nat) returns (q: Part)
    requires m + PatternLength(p) <= |text| && MatchAt(p, text, m)
    ensures MatchPart(p, text, pageNum, m) == [q] && q.partNumber == MatchText(p, text, m)
  {
    MatchValidates(p, text, m);
    q := TextPart(MatchText(p, text, m), text, m + PatternLength(p), pageNum);
  }

  lemma InLeft<T>(x: T, a: seq<T>, b: seq<T>)
    requires x in a
    ensures x in a + b
  {
  }

  lemma InRight<T>(x: T, a: seq<T>, b: seq<T>)
    requires b == [x]
    ensures x in a + b
  {
    assert (a + b)[|a|] == x;
  }

  /** The parts of a list of matches: those of all but the last, then those of the last. */
  lemma MatchPartsLast(p: PartNumberPattern, text: string, pageNum: int, ms: seq<nat>)
    requires InText(p, text, ms) && ms != []
    ensures InText(p, text, ms[..|ms| - 1])
    ensures MatchParts(p, text, pageNum, ms)
      == MatchParts(p, text, pageNum, ms[..|ms| - 1]) + MatchPart(p, text, pageNum, ms[|ms| - 1])
  {
  }

  lemma {:induction false} PatternsPartsComplete(ps: seq<PartNumberPattern>, text: string, pageNum: int,
                                                 p: PartNumberPattern, m: nat)
    requires p in ps && MatchAt(p, text, m)
    ensures exists q :: q in PatternsParts(ps, text, pageNum) && q.partNumber == MatchText(p, text, m)
  {
    var last := ps[|ps| - 1];
    if p == last {
      var ms := Matches(p, text);
      MatchesAreMatches(p, text);
      var j :| 0 <= j < |ms| && ms[j] == m;
      MatchPartsComplete(p, text, pageNum, ms, j);
      var q :| q in MatchParts(p, text, pageNum, ms) && q.partNumber == MatchText(p, text, m);
      assert q in PatternsParts(ps, text, pageNum);
    } else {
      assert p in ps[..|ps| - 1];
      PatternsPartsComplete(ps[..|ps| - 1], text, pageNum, p, m);
      var q :| q in PatternsParts(ps[..|ps| - 1], text, pageNum) && q.partNumber == MatchText(p, text, m);
      assert q in PatternsParts(ps, text, pageNum);
    }
  }

  /**
   * A page with text yields a part for every match of every pattern, and its
   * text parts are exactly matches of the patterns.
   */
  lemma PageScanIsExact(page: Page, pageNum: int)
    requires page.text != []
    ensures forall p, i :: p in PDF_PART_NUMBER_PATTERNS && MatchAt(p, page.text, i) ==>
      exists q :: q in PageParts(page, pageNum) && q.partNumber == MatchText(p, page.text, i)
    ensures forall q :: q in PatternsParts(PDF_PART_NUMBER_PATTERNS, page.text, pageNum) ==>
      exists p, i :: p in PDF_PART_NUMBER_PATTERNS && MatchAt(p, page.text, i) && q.partNumber == MatchText(p, page.text, i)
  {
    var text := page.text;
    forall q | q in PatternsParts(PDF_PART_NUMBER_PATTERNS, text, pageNum)
      ensures exists p, i :: p in PDF_PART_NUMBER_PATTERNS && MatchAt(p, text, i) && q.partNumber == MatchText(p, text, i)
    {
      PatternsPartsSound(PDF_PART_NUMBER_PATTERNS, text, pageNum, q);
    }
    forall p, i | p in PDF_PART_NUMBER_PATTERNS && MatchAt(p, text, i)
      ensures exists q :: q in PageParts(page, pageNum) && q.partNumber == MatchText(p, text, i)
    {
      PatternsPartsComplete(PDF_PART_NUMBER_PATTERNS, text, pageNum, p, i);
      var q :| q in PatternsParts(PDF_PART_NUMBER_PATTERNS, text, pageNum) && q.partNumber == MatchText(p, text, i);
      assert q in PageParts(page, pageNum);
    }
  }

  lemma PatternsPartsStep(ps: seq<PartNumberPattern>, k: nat, text: string, pageNum: int)
    requires k < |ps|
    ensures PatternsParts(ps[..k + 1], text, pageNum)
      == PatternsParts(ps[..k], text, pageNum) + MatchParts(ps[k], text, pageNum, Matches(ps[k], text))
  {
    assert ps[..k + 1][..k] == ps[..k];
  }

  lemma MatchPartsStep(p: PartNumberPattern, text: string, pageNum: int, ms: seq<nat>, j: nat)
    requires j < |ms| && InText(p, text, ms)
    ensures MatchParts(p, text, pageNum, ms[..j + 1]) == MatchParts(p, text, pageNum, ms[..j]) + MatchPart(p, text, pageNum, ms[j])
  {
    assert ms[..j + 1][..j] == ms[..j];
  }

  /** One pattern's pass of `_extract_parts_from_page`: the matches in order, appended as they validate. */
  method ScanPattern(p: PartNumberPattern, text: string, pageNum: int) returns (found: seq<Part>)
    ensures found == MatchParts(p, text, pageNum, Matches(p, text))
  {
    var ms := Matches(p, text);
    found := [];
    for j := 0 to |ms|
      invariant found == MatchParts(p, text, pageNum, ms[..j])
    {
      MatchPartsStep(p, text, pageNum, ms, j);
      var more := ScanMatch(p, text, pageNum, ms[j]);
      found := found + more;
    }
    assert ms[..|ms|] == ms;
  }

  /** One match of the pass: the stripped match text becomes a part when it validates. */
  method ScanMatch(p: PartNumberPattern, text: string, pageNum: int, m: nat) returns (found: seq<Part>)
    requires m + PatternLength(p) <= |text|
    ensures found == MatchPart(p, text, pageNum, m)
  {
    var number := Strip(MatchText(p, text, m));
    found := [];
    if ValidatePartNumber(number) {
      found := [TextPart(number, text, m + PatternLength(p), pageNum)];
    }
  }

  /** `_extract_parts_from_page`, appending as it scans. */
  method ExtractPartsFromPage(page: Page, pageNum: int) returns (parts: seq<Part>)
    ensures parts == PageParts(page, pageNum)
  {
    parts := [];
    if page.text == [] {
      return;
    }
    for k := 0 to |PDF_PART_NUMBER_PATTERNS|
      invariant parts == PatternsParts(PDF_PART_NUMBER_PATTERNS[..k], page.text, pageNum)
    {
      var found := ScanPattern(PDF_PART_NUMBER_PATTERNS[k], page.text, pageNum);
      PatternsPartsStep(PDF_PART_NUMBER_PATTERNS, k, page.text, pageNum);
      parts := parts + found;
    }
    assert PDF_PART_NUMBER_PATTERNS[..3] == PDF_PART_NUMBER_PATTERNS;
    var tableParts := ExtractPartsFromTables(page.tables, pageNum);
    parts := parts + tableParts;
  }

  /** The parts of every page, pages numbered from 1, in page order. */
  function DocParts(pages: seq<Page>): (r: seq<Part>)
    ensures forall q :: q in r ==> ValidatePartNumber(q.partNumber) && 1 <= q.pageReference <= |pages| && q.status == Extracted
  {
    if pages == [] then []
    else DocParts(pages[..|pages| - 1]) + PageParts(pages[|pages| - 1], |pages|)
  }

  lemma DocPartsStep(pages: seq<Page>, n: nat)
    requires n < |pages|
    ensures DocParts(pages[..n + 1]) == DocParts(pages[..n]) + PageParts(pages[n], n + 1)
  {
    assert pages[..n + 1][..n] == pages[..n];
  }

  /** One part of `_enrich_parts_metadata`: the catalog name, the extraction time and the source file. */
  function EnrichPart(q: Part, stem: string, path: string, t: Timestamp): Part
  {
    q.(sourceCatalog := stem,
       metadata := DictSet(DictSet(q.metadata, "extraction_date", JIso(t)), "source_file", JStr(path)))
  }

  /**
   * Stamping sets the catalog name, the extraction time and the source file, keeps
   * every other metadata entry, and changes no other field.
   */
  lemma EnrichPartStamps(q: Part, stem: string, path: string, t: Timestamp)
    ensures var r := EnrichPart(q, stem, path, t);
      && r == q.(sourceCatalog := stem, metadata := r.metadata)
      && Get(r.metadata, "extraction_date") == Some(JIso(t))
      && Get(r.metadata, "source_file") == Some(JStr(path))
      && forall k :: k != "extraction_date" && k != "source_file" ==> Get(r.metadata, k) == Get(q.metadata, k)
  {
    var d1 := DictSet(q.metadata, "extraction_date", JIso(t));
    GetDictSet(q.metadata, "extraction_date", JIso(t));
    GetDictSet(d1, "source_file", JStr(path));
  }

  /** The first i parts of r are parts' stamped, the rest parts' untouched. */
  ghost predicate EnrichedUpTo(parts: seq<Part>, r: seq<Part>, i: nat, stem: string, path: string,
                               clock: nat -> Timestamp, first: nat)
  {
    && |r| == |parts| && i <= |r|
    && (forall j :: 0 <= j < i ==> r[j] == EnrichPart(parts[j], stem, path, clock(first + j)))
    && (forall j :: i <= j < |r| ==> r[j] == parts[j])
  }

  lemma EnrichedStep(parts: seq<Part>, r: seq<Part>, i: nat, stem: string, path: string,
                     clock: nat -> Timestamp, first: nat)
    requires EnrichedUpTo(parts, r, i, stem, path, clock, first) && i < |r|
    ensures EnrichedUpTo(parts, r[i := EnrichPart(r[i], stem, path, clock(first + i))], i + 1, stem, path, clock, first)
  {
    var e := EnrichPart(parts[i], stem, path, clock(first + i));
    assert r[i] == parts[i];
    var r' := r[i := e];
    forall j | 0 <= j < i + 1
      ensures r'[j] == EnrichPart(parts[j], stem, path, clock(first + j))
    {
      if j < i {
        assert r'[j] == r[j];
      }
    }
    forall j | i + 1 <= j < |r'|
      ensures r'[j] == parts[j]
    {
      assert r'[j] == r[j];
    }
  }

  /**
   * `_enrich_parts_metadata`: stamps every part in turn; the i-th part reads the
   * clock at reading `first + i`.
   */
  method EnrichPartsMetadata(parts: seq<Part>, path: string, clock: nat -> Timestamp, first: nat)
    returns (r: seq<Part>)
    ensures |r| == |parts|
    ensures forall i :: 0 <= i < |r| ==> r[i] == EnrichPart(parts[i], Stem(PathName(path)), path, clock(first + i))
  {
    var catalogName := Stem(PathName(path));
    r := parts;
    for i := 0 to |r|
      invariant EnrichedUpTo(parts, r, i, catalogName, path, clock, first)
    {
      EnrichedStep(parts, r, i, catalogName, path, clock, first);
      r := r[i := EnrichPart(r[i], catalogName, path, clock(first + i))];
    }
  }

  /** The page loop of `extract_parts`: each page's parts appended in page order. */
  method ExtractPages(pages: seq<Page>) returns (parts: seq<Part>)
    ensures parts == DocParts(pages)
  {
    parts := [];
    for n := 0 to |pages|
      invariant parts == DocParts(pages[..n])
    {
      var pageParts := ExtractPartsFromPage(pages[n], n + 1);
      DocPartsStep(pages, n);
      parts := parts + pageParts;
    }
    assert pages[..|pages|] == pages;
  }

  /** Stamping keeps every part number, so stamped parts still validate. */
  lemma StampedPartsValid(found: seq<Part>, stamped: seq<Part>)
    requires forall q :: q in found ==> ValidatePartNumber(q.partNumber)
    requires |stamped| == |found| && forall i :: 0 <= i < |found| ==> stamped[i].partNumber == found[i].partNumber
    ensures forall q :: q in stamped ==> ValidatePartNumber(q.partNumber)
  {
    forall q | q in stamped
      ensures ValidatePartNumber(q.partNumber)
    {
      var i :| 0 <= i < |stamped| && stamped[i] == q;
      assert found[i] in found;
    }
  }

  /** `len([p for p in parts if p.part_number])` */
  function Numbered(ps: seq<Part>): (n: nat)
    ensures n <= |ps|
    ensures n == |ps| <==> forall q :: q in ps ==> q.partNumber != []
  {
    if ps == [] then 0
    else Numbered(ps[..|ps| - 1]) + (if ps[|ps| - 1].partNumber != [] then 1 else 0)
  }

  /** Every part the catalog yields before stamping: the pages' parts with duplicates merged. */
  function CatalogParts(doc: Document): (r: seq<Part>)
    ensures DistinctNumbers(r)
    ensures forall q :: q in r ==> ValidatePartNumber(q.partNumber) && 1 <= q.pageReference <= |doc.pages| && q.status == Extracted
  {
    DedupKeys(DocParts(doc.pages));
    Dedup.Dedup(DocParts(doc.pages))
  }

  /**
   * `extract_parts`. `clock` gives the readings of the wall clock in order (the
   * first stamps the metadata, one more per part); `saveOk` says whether the
   * extraction files could be written. A document that does not open, or a
   * failed save, yields no parts; metadata is returned in every case.
   */
  method ExtractParts(path: string, doc: Document, clock: nat -> Timestamp, saveOk: bool)
    returns (parts: seq<Part>, metadata: CatalogMetadata)
    ensures metadata.filename == PathName(path) && metadata.processingDate == clock(0)
    ensures metadata.catalogVersion == ExtractCatalogVersion(Stem(PathName(path)), doc)
    ensures metadata.catalogDate == ExtractCatalogDate(doc)
    ensures !doc.opens ==> (parts == [] && metadata.totalPages == 0 && metadata.totalParts == 0
                            && metadata.successfulExtractions == 0 && metadata.failedExtractions == 0)
    ensures doc.opens ==> (metadata.totalPages == |doc.pages| && metadata.totalParts == |CatalogParts(doc)|
                           && metadata.successfulExtractions == metadata.totalParts && metadata.failedExtractions == 0)
    ensures !saveOk ==> parts == []
    ensures doc.opens && saveOk ==> (|parts| == |CatalogParts(doc)|
      && forall i :: 0 <= i < |parts| ==>
           parts[i] == EnrichPart(CatalogParts(doc)[i], Stem(PathName(path)), path, clock(1 + i)))
    ensures DistinctNumbers(parts)
    ensures forall q :: q in parts ==> ValidatePartNumber(q.partNumber) && q.sourceCatalog == Stem(PathName(path))
  {
    var name := PathName(path);
    metadata := CatalogMetadata(name, 0, clock(0), 0, 0, 0,
                                ExtractCatalogVersion(Stem(name), doc), ExtractCatalogDate(doc));
    parts := [];
    if !doc.opens {
      return;
    }
    metadata := metadata.(totalPages := |doc.pages|);
    parts := ExtractPages(doc.pages);
    parts := DeduplicateParts(parts);
    assert parts == CatalogParts(doc);
    parts := EnrichPartsMetadata(parts, path, clock, 1);
    StampedPartsValid(CatalogParts(doc), parts);
    var successful := Numbered(parts);
    metadata := metadata.(totalParts := |parts|,
                          successfulExtractions := successful,
                          failedExtractions := |parts| - successful);
    if !saveOk {
      parts := [];
    }
  }
}
