/**
 * The data manager's pure core: statistics over a list of parts, the dashboard
 * export rows, the reload of a previous extraction and the stale-price filter.
 * Files, paths and the choice of the most recent file are left to the caller;
 * the loader is given the decoded JSON payload.
 */
module DataManager {
  import opened Optional
  import opened Strings
  import opened Time
  import opened Json
  import opened Settings
  import opened Utils
  import opened Schemas

  // ---------------------------------------------------------------- statistics

  /** `len([p for p in parts if p.status == s])` */
  function CountStatus(parts: seq<Part>, s: PartStatus): (n: nat)
    ensures n <= |parts|
  {
    if parts == [] then 0
    else CountStatus(parts[..|parts| - 1], s) + (if parts[|parts| - 1].status == s then 1 else 0)
  }

  /** The counts of the statuses in `statuses`, added up. */
  function TotalCount(parts: seq<Part>, statuses: seq<PartStatus>): nat
  {
    if statuses == [] then 0
    else TotalCount(parts, statuses[..|statuses| - 1]) + CountStatus(parts, statuses[|statuses| - 1])
  }

  /** Adding a part adds, to the total over `statuses`, the number of times its status is listed there. */
  lemma {:induction false} TotalCountStep(parts: seq<Part>, statuses: seq<PartStatus>)
    requires parts != []
    ensures TotalCount(parts, statuses)
      == TotalCount(parts[..|parts| - 1], statuses) + multiset(statuses)[parts[|parts| - 1].status]
  {
    if statuses != [] {
      var front := statuses[..|statuses| - 1];
      TotalCountStep(parts, front);
      assert statuses == front + [statuses[|statuses| - 1]];
    }
  }

  /** Every part has exactly one of the six statuses, so the six counts add up to the number of parts. */
  lemma {:induction false} StatusCountsCoverParts(parts: seq<Part>)
    ensures TotalCount(parts, ALL_STATUSES) == |parts|
  {
    if parts != [] {
      StatusCountsCoverParts(parts[..|parts| - 1]);
      TotalCountStep(parts, ALL_STATUSES);
      assert multiset(ALL_STATUSES)[parts[|parts| - 1].status] == 1;
    } else {
      EmptyTotal(ALL_STATUSES);
    }
  }

  lemma {:induction false} EmptyTotal(statuses: seq<PartStatus>)
    ensures TotalCount([], statuses) == 0
  {
    if statuses != [] {
      EmptyTotal(statuses[..|statuses| - 1]);
    }
  }

  /** `parts_by_status`: one entry per status, in declaration order, holding its count. */
  function StatusCounts(parts: seq<Part>, statuses: seq<PartStatus>): (d: Dict)
    ensures |d| == |statuses|
    ensures forall i :: 0 <= i < |statuses| ==> d[i] == (StatusValue(statuses[i]), JInt(CountStatus(parts, statuses[i])))
  {
    if statuses == [] then []
    else
      var s := statuses[|statuses| - 1];
      StatusCounts(parts, statuses[..|statuses| - 1]) + [(StatusValue(s), JInt(CountStatus(parts, s)))]
  }

  /** The prices of the parts that have one, in order. */
  function Prices(parts: seq<Part>): (r: seq<real>)
    ensures |r| <= |parts|
  {
    if parts == [] then []
    else
      var p := parts[|parts| - 1];
      Prices(parts[..|parts| - 1]) + (if p.price.Some? then [p.price.value] else [])
  }

  /** A price is listed exactly when some part carries it. */
  lemma {:induction false} PricesExact(parts: seq<Part>)
    ensures forall v :: v in Prices(parts) <==> exists p :: p in parts && p.price == Some(v)
  {
    if parts != [] {
      var front := parts[..|parts| - 1];
      PricesExact(front);
      assert parts == front + [parts[|parts| - 1]];
      forall v | v in Prices(parts)
        ensures exists p :: p in parts && p.price == Some(v)
      {
        if v in Prices(front) {
          var p :| p in front && p.price == Some(v);
          assert p in parts;
        } else {
          assert parts[|parts| - 1] in parts;
        }
      }
    }
  }

  function Sum(xs: seq<real>): real
  {
    if xs == [] then 0.0 else Sum(xs[..|xs| - 1]) + xs[|xs| - 1]
  }

  /** `min(xs)` */
  function MinOf(xs: seq<real>): real
    requires xs != []
  {
    if |xs| == 1 then xs[0]
    else
      var m := MinOf(xs[1..]);
      if xs[0] < m then xs[0] else m
  }

  /** `max(xs)` */
  function MaxOf(xs: seq<real>): real
    requires xs != []
  {
    if |xs| == 1 then xs[0]
    else
      var m := MaxOf(xs[1..]);
      if xs[0] > m then xs[0] else m
  }

  /** The minimum and the maximum are elements of the list, and every element lies between them. */
  lemma {:induction false} MinMaxBound(xs: seq<real>)
    requires xs != []
    ensures exists i :: 0 <= i < |xs| && xs[i] == MinOf(xs)
    ensures exists i :: 0 <= i < |xs| && xs[i] == MaxOf(xs)
    ensures forall i :: 0 <= i < |xs| ==> MinOf(xs) <= xs[i] <= MaxOf(xs)
  {
    if |xs| > 1 {
      var rest := xs[1..];
      MinMaxBound(rest);
      assert forall i :: 1 <= i < |xs| ==> xs[i] == rest[i - 1];
      var a :| 0 <= a < |rest| && rest[a] == MinOf(rest);
      var b :| 0 <= b < |rest| && rest[b] == MaxOf(rest);
      if xs[0] < MinOf(rest) {
        assert xs[0] == MinOf(xs);
      } else {
        assert xs[a + 1] == MinOf(xs);
      }
      if xs[0] > MaxOf(rest) {
        assert xs[0] == MaxOf(xs);
      } else {
        assert xs[b + 1] == MaxOf(xs);
      }
    } else {
      assert xs[0] == MinOf(xs) && xs[0] == MaxOf(xs);
    }
  }

  /** The sum lies between the count times the least element and the count times the greatest. */
  lemma {:induction false} SumBetween(xs: seq<real>, lo: real, hi: real)
    requires forall i :: 0 <= i < |xs| ==> lo <= xs[i] <= hi
    ensures |xs| as real * lo <= Sum(xs) <= |xs| as real * hi
  {
    if xs != [] {
      var front := xs[..|xs| - 1];
      assert forall i :: 0 <= i < |front| ==> front[i] == xs[i];
      SumBetween(front, lo, hi);
      assert Sum(xs) == Sum(front) + xs[|xs| - 1];
      assert |xs| as real == |front| as real + 1.0;
      BoundsStep(|front| as real, Sum(front), xs[|xs| - 1], lo, hi);
    }
  }

  lemma BoundsStep(n: real, s: real, x: real, lo: real, hi: real)
    requires n * lo <= s <= n * hi && lo <= x <= hi
    ensures (n + 1.0) * lo <= s + x <= (n + 1.0) * hi
  {
    assert (n + 1.0) * lo == n * lo + lo && (n + 1.0) * hi == n * hi + hi;
  }

  datatype PriceStatistics = PriceStatistics(minPrice: real, maxPrice: real, avgPrice: real, totalValue: real)

  /** `price_stats`: nothing without prices; otherwise min, max, mean and total. */
  function PriceStats(prices: seq<real>): (r: Option<PriceStatistics>)
    ensures r.None? <==> prices == []
  {
    if prices == [] then None
    else
      var total := Sum(prices);
      Some(PriceStatistics(MinOf(prices), MaxOf(prices), total / |prices| as real, total))
  }

  /**
   * The minimum and maximum are prices of the list and bound every price, and
   * the mean lies between them.
   */
  lemma PriceStatsBounds(prices: seq<real>)
    requires prices != []
    ensures var s := PriceStats(prices).value;
      && s.minPrice <= s.avgPrice <= s.maxPrice
      && (forall i :: 0 <= i < |prices| ==> s.minPrice <= prices[i] <= s.maxPrice)
      && (exists i :: 0 <= i < |prices| && prices[i] == s.minPrice)
      && (exists i :: 0 <= i < |prices| && prices[i] == s.maxPrice)
  {
    var lo := MinOf(prices);
    var hi := MaxOf(prices);
    assert PriceStats(prices).value == PriceStatistics(lo, hi, Sum(prices) / |prices| as real, Sum(prices));
    MinMaxBound(prices);
    SumBetween(prices, lo, hi);
    AverageBetween(Sum(prices), |prices| as real, lo, hi);
  }

  /** The total is the sum of the prices, and the mean times the count gives it back. */
  lemma PriceStatsTotal(prices: seq<real>)
    requires prices != []
    ensures var s := PriceStats(prices).value;
      s.totalValue == Sum(prices) && s.avgPrice * |prices| as real == s.totalValue
  {
    MeanTimesCount(Sum(prices), |prices| as real);
  }

  lemma MeanTimesCount(total: real, n: real)
    requires n > 0.0
    ensures (total / n) * n == total
  {
  }

  lemma AverageBetween(total: real, n: real, lo: real, hi: real)
    requires n > 0.0 && n * lo <= total <= n * hi
    ensures lo <= total / n <= hi
  {
  }

  /** `with / total * 100`, or 0 for an empty list. */
  function Coverage(withPrices: nat, total: nat): (r: real)
    requires withPrices <= total
    ensures 0.0 <= r <= 100.0
    ensures r == 100.0 <==> total > 0 && withPrices == total
    ensures r == 0.0 <==> withPrices == 0
  {
    if total > 0 then withPrices as real / total as real * 100.0 else 0.0
  }

  datatype Statistics = Statistics(
    totalParts: nat,
    partsWithPrices: nat,
    priceCoverage: real,
    partsByStatus: Dict,
    priceStatistics: Option<PriceStatistics>)

  /** `_calculate_statistics` */
  method CalculateStatistics(parts: seq<Part>) returns (stats: Statistics)
    ensures stats.totalParts == |parts|
    ensures stats.partsWithPrices == |Prices(parts)| <= |parts|
    ensures stats.priceCoverage == Coverage(|Prices(parts)|, |parts|)
    ensures Keys(stats.partsByStatus) == Keys(StatusCounts(parts, ALL_STATUSES))
    ensures stats.partsByStatus == StatusCounts(parts, ALL_STATUSES)
    ensures stats.priceStatistics == PriceStats(Prices(parts))
  {
    var total := |parts|;
    var prices := Prices(parts);
    var withPrices := |prices|;
    var byStatus: Dict := [];
    for k := 0 to |ALL_STATUSES|
      invariant byStatus == StatusCounts(parts, ALL_STATUSES[..k])
    {
      var status := ALL_STATUSES[k];
      byStatus := byStatus + [(StatusValue(status), JInt(CountStatus(parts, status)))];
      assert ALL_STATUSES[..k + 1][..k] == ALL_STATUSES[..k];
    }
    assert ALL_STATUSES[..|ALL_STATUSES|] == ALL_STATUSES;
    var coverage := if total > 0 then withPrices as real / total as real * 100.0 else 0.0;
    stats := Statistics(total, withPrices, coverage, byStatus, PriceStats(prices));
  }

  /** The status table names each of the six statuses once, in declaration order. */
  lemma StatusTableKeys(parts: seq<Part>)
    ensures Keys(StatusCounts(parts, ALL_STATUSES))
      == ["extracted", "price_pending", "priced", "price_failed", "active", "discontinued"]
  {
    var d := StatusCounts(parts, ALL_STATUSES);
    var ks := Keys(d);
    assert d[0].0 == "extracted" && d[1].0 == "price_pending" && d[2].0 == "priced";
    assert d[3].0 == "price_failed" && d[4].0 == "active" && d[5].0 == "discontinued";
  }

  // ------------------------------------------------------------ dashboard export

  /** Parts ready for the dashboard: priced or active. */
  predicate IsReady(p: Part)
  {
    p.status == Priced || p.status == Active
  }

  /** `ready_parts`: the ready parts, in input order. */
  function ReadyParts(parts: seq<Part>): seq<Part>
  {
    Filter(parts, IsReady)
  }

  /** Parts that all still have the initial status give no export row. */
  lemma NoneReady(parts: seq<Part>)
    requires forall q :: q in parts ==> q.status == Extracted
    ensures ReadyParts(parts) == []
  {
    ReadyPartsExact(parts, []);
    HeadIsMember(ReadyParts(parts));
  }

  /** A sequence that is not empty has its first element as a member. */
  lemma HeadIsMember<T>(s: seq<T>)
    ensures s != [] ==> s[0] in s
  {
  }

  /** Exactly the priced and active parts are exported, and their order is kept. */
  lemma ReadyPartsExact(parts: seq<Part>, more: seq<Part>)
    ensures forall p :: p in ReadyParts(parts) <==> p in parts && (p.status == Priced || p.status == Active)
    ensures ReadyParts(parts + more) == ReadyParts(parts) + ReadyParts(more)
  {
    FilterExact(parts, IsReady);
    FilterConcat(parts, more, IsReady);
  }

  const DESCRIPTION_LIMIT: nat := 200

  /** `s[:n]` */
  function Take(s: string, n: nat): (r: string)
    ensures |r| == if |s| <= n then |s| else n
    ensures r <= s
  {
    if |s| <= n then s else s[..n]
  }

  /** `''` in place of a missing price or timestamp. */
  function PriceCell(price: Option<real>): Json
  {
    match price
    case Some(v) => JReal(v)
    case None => JStr("")
  }

  function TimestampCell(t: Option<Timestamp>): Json
  {
    match t
    case Some(v) => JIso(v)
    case None => JStr("")
  }

  /** `_prepare_lou_csv_row` */
  function LouCsvRow(p: Part): (d: Dict)
    ensures Keys(d) == LOU_CSV_COLUMNS
  {
    [("sku", JStr(EffectiveSku(p))),
     ("part_number", JStr(p.partNumber)),
     ("description", JStr(Take(p.description, DESCRIPTION_LIMIT))),
     ("category", JStr(p.category)),
     ("unit_price", PriceCell(p.price)),
     ("last_updated", TimestampCell(p.lastPriceUpdate)),
     ("source_catalog", JStr(p.sourceCatalog)),
     ("vendor", JStr(p.vendor)),
     ("status", JStr(StatusValue(p.status)))]
  }

  lemma LouCsvRowDistinct(p: Part)
    ensures var row := LouCsvRow(p); forall a, b :: 0 <= a < b < |row| ==> row[a].0 != row[b].0
  {
  }

  /** Each column of the row carries the field it is named after. */
  lemma LouCsvRowLookup(p: Part)
    ensures var row := LouCsvRow(p);
      && Get(row, "sku") == Some(JStr(EffectiveSku(p)))
      && Get(row, "part_number") == Some(JStr(p.partNumber))
      && Get(row, "description") == Some(JStr(Take(p.description, DESCRIPTION_LIMIT)))
      && Get(row, "category") == Some(JStr(p.category))
      && Get(row, "unit_price") == Some(PriceCell(p.price))
      && Get(row, "last_updated") == Some(TimestampCell(p.lastPriceUpdate))
      && Get(row, "source_catalog") == Some(JStr(p.sourceCatalog))
      && Get(row, "vendor") == Some(JStr(p.vendor))
      && Get(row, "status") == Some(JStr(StatusValue(p.status)))
  {
    var row := LouCsvRow(p);
    LouCsvRowDistinct(p);
    GetDistinct(row, 0);
    GetDistinct(row, 1);
    GetDistinct(row, 2);
    GetDistinct(row, 3);
    GetDistinct(row, 4);
    GetDistinct(row, 5);
    GetDistinct(row, 6);
    GetDistinct(row, 7);
    GetDistinct(row, 8);
  }

  /**
   * The row agrees with `to_dict` on every column but three: the description
   * is cut to its first 200 characters, and a missing price or timestamp is
   * written as the empty string rather than null.
   */
  lemma LouRowAgreesWithPartDict(p: Part)
    ensures var row := LouCsvRow(p);
      var d := PartToDict(p);
      && Get(row, "sku") == Get(d, "sku") && Get(row, "part_number") == Get(d, "part_number")
      && Get(row, "category") == Get(d, "category") && Get(row, "source_catalog") == Get(d, "source_catalog")
      && Get(row, "vendor") == Get(d, "vendor") && Get(row, "status") == Get(d, "status")
      && Get(row, "description") == Some(JStr(Take(p.description, DESCRIPTION_LIMIT)))
      && (Get(row, "unit_price") == Get(d, "unit_price") <==> p.price.Some?)
      && (Get(row, "last_updated") == Get(d, "last_updated") <==> p.lastPriceUpdate.Some?)
  {
    LouCsvRowLookup(p);
    PartDictLookup(p);
  }

  /**
   * `generate_lou_csv`: the rows are written, then `_validate_lou_csv` reads the
   * frame built from them. A frame built from no rows has no columns, so its
   * `sku` lookup raises KeyError: the call fails exactly when no part is ready.
   * With rows every column exists, and the checks only log.
   */
  method GenerateLouCsv(parts: seq<Part>) returns (rows: seq<Dict>, validated: bool)
    ensures |rows| == |ReadyParts(parts)|
    ensures forall i :: 0 <= i < |rows| ==> rows[i] == LouCsvRow(ReadyParts(parts)[i])
    ensures validated <==> ReadyParts(parts) != []
  {
    rows := LouCsvRows(parts);
    validated := rows != [];
  }

  /** The rows of `generate_lou_csv`: one per ready part, in order. */
  method LouCsvRows(parts: seq<Part>) returns (rows: seq<Dict>)
    ensures |rows| == |ReadyParts(parts)|
    ensures forall i :: 0 <= i < |rows| ==> rows[i] == LouCsvRow(ReadyParts(parts)[i])
  {
    var ready := ReadyParts(parts);
    rows := [];
    for i := 0 to |ready|
      invariant |rows| == i
      invariant forall j :: 0 <= j < i ==> rows[j] == LouCsvRow(ready[j])
    {
      rows := rows + [LouCsvRow(ready[i])];
    }
  }

  // ------------------------------------------------------------------- stale

  /** `get_stale_parts(parts, days)` with the clock reading `now` passed in. */
  function StaleParts(parts: seq<Part>, days: int, now: Timestamp): seq<Part>
  {
    Filter(parts, StaleTest(days, now))
  }

  /** `p.is_price_stale(days)` as a test on parts. */
  function StaleTest(days: int, now: Timestamp): Part -> bool
  {
    (p: Part) => IsPriceStale(p, days, now)
  }

  /** Exactly the parts whose price is stale, in input order. */
  lemma StalePartsExact(parts: seq<Part>, more: seq<Part>, days: int, now: Timestamp)
    ensures forall p :: p in StaleParts(parts, days, now) <==> p in parts && IsPriceStale(p, days, now)
    ensures StaleParts(parts + more, days, now) == StaleParts(parts, days, now) + StaleParts(more, days, now)
  {
    FilterExact(parts, StaleTest(days, now));
    FilterConcat(parts, more, StaleTest(days, now));
  }

  // ---------------------------------------------------------------- reload

  /** `d.get(key, default)` read as a string; None where the value is not one. */
  function StrField(d: Dict, key: string, default: string): Option<string>
  {
    match GetOr(d, key, JStr(default))
    case JStr(s) => Some(s)
    case _ => None
  }

  function IntField(d: Dict, key: string, default: int): Option<int>
  {
    match GetOr(d, key, JInt(default))
    case JInt(i) => Some(i)
    case _ => None
  }

  /** `part_data.get('unit_price')`: absent and null are no price. */
  function PriceField(d: Dict): Option<Option<real>>
  {
    match GetOr(d, "unit_price", JNull)
    case JNull => Some(None)
    case JReal(r) => Some(Some(r))
    case JInt(i) => Some(Some(i as real))
    case _ => None
  }

  /**
   * The timestamp: read only when the stored value is truthy, and dropped
   * silently when it does not parse.
   */
  function TimestampField(d: Dict): Option<Timestamp>
  {
    var v := GetOr(d, "last_updated", JNull);
    if Truthy(v) && v.JIso? then Some(v.t) else None
  }

  /**
   * One element of the stored list back to a `Part`; None where the source
   * raises (a missing part number, an unknown status, an element that is not
   * an object), which aborts the whole load.
   */
  function DecodePart(item: Json): (r: Option<Part>)
    ensures r.Some? ==> item.JObj? && "part_number" in Keys(item.fields)
    ensures r.Some? ==> r.value.errors == [] && r.value.metadata == []
  {
    if !item.JObj? then None
    else
      var d := item.fields;
      match Get(d, "part_number")
      case Some(JStr(number)) =>
        PartFromFields(number, StrField(d, "description", ""), StrField(d, "category", ""),
                       IntField(d, "page_reference", 0), PriceField(d), TimestampField(d),
                       StrField(d, "source_catalog", ""), StrField(d, "vendor", DEFAULT_VENDOR),
                       StrField(d, "sku", ""), StrField(d, "status", "extracted"))
      case _ => None
  }

  /** The `Part(...)` call of the loader: any field read that failed, or an unknown status, fails it. */
  function PartFromFields(number: string, description: Option<string>, category: Option<string>,
                          page: Option<int>, price: Option<Option<real>>, updated: Option<Timestamp>,
                          source: Option<string>, vendor: Option<string>, sku: Option<string>,
                          status: Option<string>): (r: Option<Part>)
    ensures r.Some? ==> r.value.partNumber == number && r.value.errors == [] && r.value.metadata == []
  {
    var st := if status.Some? then StatusFromValue(status.value) else None;
    if description.None? || category.None? || page.None? || price.None? || source.None?
       || vendor.None? || sku.None? || st.None? then None
    else
      Some(Part(number, description.value, category.value, page.value, st.value, price.value,
                updated, source.value, vendor.value, sku.value, [], []))
  }

  /** The loop over the stored list: every element decodes, or the load fails. */
  function DecodeAll(items: seq<Json>): (r: Option<seq<Part>>)
    ensures r.Some? ==> |r.value| == |items|
  {
    if items == [] then Some([])
    else
      match DecodeAll(items[..|items| - 1])
      case None => None
      case Some(front) =>
        match DecodePart(items[|items| - 1])
        case None => None
        case Some(p) => Some(front + [p])
  }

  /** The element list of the payload as `load_previous_parts` reads it: `data.get('parts', [])`. */
  function PayloadItemsAsWritten(payload: Json): Option<seq<Json>>
  {
    match payload
    case JObj(d) => (match GetOr(d, "parts", JArr([])) case JArr(items) => Some(items) case _ => None)
    case _ => None
  }

  /** The loader as written; every failure is caught and reads as no parts. */
  function LoadedPartsAsWritten(payload: Json): seq<Part>
  {
    match PayloadItemsAsWritten(payload)
    case None => []
    case Some(items) => (match DecodeAll(items) case Some(parts) => parts case None => [])
  }

  /**
   * The element list of either file the extraction side writes: the bare list
   * of the extraction save, or the object with a `parts` list of the parts save.
   */
  function PayloadItems(payload: Json): Option<seq<Json>>
  {
    match payload
    case JArr(items) => Some(items)
    case _ => PayloadItemsAsWritten(payload)
  }

  /** `load_previous_parts`, reading both file shapes. */
  function LoadedParts(payload: Json): seq<Part>
  {
    match PayloadItems(payload)
    case None => []
    case Some(items) => (match DecodeAll(items) case Some(parts) => parts case None => [])
  }

  /** The loader's loop: decode each element and append it, giving up on the first that fails. */
  method DecodeItems(items: seq<Json>) returns (r: Option<seq<Part>>)
    ensures r == DecodeAll(items)
  {
    var parts := [];
    for i := 0 to |items|
      invariant DecodeAll(items[..i]) == Some(parts)
    {
      DecodeAllStep(items, i);
      var part := DecodePart(items[i]);
      if part.None? {
        DecodeAllFailureSticks(items, i + 1);
        return None;
      }
      parts := parts + [part.value];
    }
    assert items[..|items|] == items;
    return Some(parts);
  }

  lemma DecodeAllStep(items: seq<Json>, i: nat)
    requires i < |items|
    ensures DecodeAll(items[..i + 1]) ==
      match DecodeAll(items[..i])
      case None => None
      case Some(front) => (match DecodePart(items[i]) case None => None case Some(p) => Some(front + [p]))
  {
    assert items[..i + 1][..i] == items[..i];
  }

  /**
   * `load_previous_parts` on the decoded payload, as written: only an object's
   * `parts` list is read, and any failure reads as no parts.
   */
  method LoadPreviousParts(payload: Json) returns (parts: seq<Part>)
    ensures parts == LoadedPartsAsWritten(payload)
  {
    match PayloadItemsAsWritten(payload)
    case None =>
      parts := [];
    case Some(items) =>
      var decoded := DecodeItems(items);
      parts := if decoded.Some? then decoded.value else [];
  }

  /** Once an element fails to decode, so does every longer prefix. */
  lemma {:induction false} DecodeAllFailureSticks(items: seq<Json>, n: nat)
    requires 0 < n <= |items| && DecodeAll(items[..n]).None?
    ensures DecodeAll(items).None?
    decreases |items| - n
  {
    if n < |items| {
      assert items[..n + 1][..n] == items[..n];
      DecodeAllFailureSticks(items, n + 1);
    } else {
      assert items[..n] == items;
    }
  }

  /** What the reload gives back for a saved part: sku filled in, no errors, no metadata. */
  function Restored(p: Part): Part
  {
    p.(sku := EffectiveSku(p), errors := [], metadata := [])
  }

  /** A minimal element gets the dataclass defaults. */
  lemma DecodeDefaults(number: string)
    ensures DecodePart(JObj([("part_number", JStr(number))])) == Some(NewPart(number))
  {
  }

  /** Any element with an unknown status string fails the whole load. */
  lemma UnknownStatusFailsLoad(items: seq<Json>, i: nat, status: string)
    requires i < |items| && items[i].JObj?
    requires Get(items[i].fields, "status") == Some(JStr(status)) && StatusFromValue(status).None?
    ensures DecodeAll(items).None?
    ensures LoadedParts(JArr(items)) == [] && LoadedPartsAsWritten(JObj([("parts", JArr(items))])) == []
  {
    UnknownStatusFailsDecode(items[i], status);
    DecodeAllFailureAt(items, i);
    FailedDecodeLoadsNothing(items);
  }

  lemma UnknownStatusFailsDecode(j: Json, status: string)
    requires j.JObj? && Get(j.fields, "status") == Some(JStr(status)) && StatusFromValue(status).None?
    ensures DecodePart(j).None?
  {
  }

  lemma FailedDecodeLoadsNothing(items: seq<Json>)
    requires DecodeAll(items).None?
    ensures LoadedParts(JArr(items)) == [] && LoadedPartsAsWritten(JObj([("parts", JArr(items))])) == []
  {
  }

  lemma {:induction false} DecodeAllFailureAt(items: seq<Json>, i: nat)
    requires i < |items| && DecodePart(items[i]).None?
    ensures DecodeAll(items).None?
  {
    assert items[..i + 1][..i] == items[..i];
    assert DecodeAll(items[..i + 1]).None?;
    DecodeAllFailureSticks(items, i + 1);
  }

  /** A payload object without a `parts` entry loads as no parts. */
  lemma NoPartsEntryLoadsNothing(d: Dict)
    requires "parts" !in Keys(d)
    ensures LoadedParts(JObj(d)) == [] && LoadedPartsAsWritten(JObj(d)) == []
  {
  }

  /** `to_dict` then reconstruction gives the part back, with its sku filled in. */
  lemma DecodePartRoundTrip(p: Part)
    ensures DecodePart(JObj(PartToDict(p))) == Some(Restored(p))
  {
    PartDictLookup(p);
    DecodeStoredFields(PartToDict(p), p);
  }

  /** An object holding a part's fields as `to_dict` stores them decodes to that part, sku filled in. */
  lemma DecodeStoredFields(d: Dict, p: Part)
    requires Get(d, "sku") == Some(JStr(EffectiveSku(p)))
    requires Get(d, "part_number") == Some(JStr(p.partNumber))
    requires Get(d, "description") == Some(JStr(p.description))
    requires Get(d, "category") == Some(JStr(p.category))
    requires Get(d, "unit_price") == Some(PriceJson(p.price))
    requires Get(d, "last_updated") == Some(TimestampJson(p.lastPriceUpdate))
    requires Get(d, "source_catalog") == Some(JStr(p.sourceCatalog))
    requires Get(d, "vendor") == Some(JStr(p.vendor))
    requires Get(d, "status") == Some(JStr(StatusValue(p.status)))
    requires Get(d, "page_reference") == Some(JInt(p.pageReference))
    ensures DecodePart(JObj(d)) == Some(Restored(p))
  {
    StoredString(d, "description", "", p.description);
    StoredString(d, "category", "", p.category);
    StoredInt(d, "page_reference", 0, p.pageReference);
    StoredPrice(d, p.price);
    StoredTimestamp(d, p.lastPriceUpdate);
    StoredString(d, "source_catalog", "", p.sourceCatalog);
    StoredString(d, "vendor", DEFAULT_VENDOR, p.vendor);
    StoredString(d, "sku", "", EffectiveSku(p));
    StoredString(d, "status", "extracted", StatusValue(p.status));
    StatusValueRoundTrip(p.status);
  }

  lemma StoredString(d: Dict, key: string, default: string, s: string)
    requires Get(d, key) == Some(JStr(s))
    ensures StrField(d, key, default) == Some(s)
  {
  }

  lemma StoredInt(d: Dict, key: string, default: int, i: int)
    requires Get(d, key) == Some(JInt(i))
    ensures IntField(d, key, default) == Some(i)
  {
  }

  lemma StoredPrice(d: Dict, price: Option<real>)
    requires Get(d, "unit_price") == Some(PriceJson(price))
    ensures PriceField(d) == Some(price)
  {
    if price.Some? {
      assert PriceJson(price) == JReal(price.value);
    }
  }

  lemma StoredTimestamp(d: Dict, t: Option<Timestamp>)
    requires Get(d, "last_updated") == Some(TimestampJson(t))
    ensures TimestampField(d) == t
  {
    if t.Some? {
      assert TimestampJson(t) == JIso(t.value);
    }
  }

  /** The saved form of a list of parts: one `to_dict` object per part. */
  function SavedParts(ps: seq<Part>): (r: seq<Json>)
    ensures |r| == |ps|
    ensures forall i :: 0 <= i < |ps| ==> r[i] == JObj(PartToDict(ps[i]))
  {
    if ps == [] then [] else SavedParts(ps[..|ps| - 1]) + [JObj(PartToDict(ps[|ps| - 1]))]
  }

  function RestoredAll(ps: seq<Part>): (r: seq<Part>)
    ensures |r| == |ps|
    ensures forall i :: 0 <= i < |ps| ==> r[i] == Restored(ps[i])
  {
    if ps == [] then [] else RestoredAll(ps[..|ps| - 1]) + [Restored(ps[|ps| - 1])]
  }

  lemma {:induction false} DecodeAllRoundTrip(ps: seq<Part>)
    ensures DecodeAll(SavedParts(ps)) == Some(RestoredAll(ps))
  {
    if ps != [] {
      var front := ps[..|ps| - 1];
      DecodeAllRoundTrip(front);
      DecodePartRoundTrip(ps[|ps| - 1]);
      assert SavedParts(ps)[..|ps| - 1] == SavedParts(front);
    }
  }

  /**
   * Both saved shapes reload to the parts that were saved: the extraction
   * save's bare list and the parts save's object with a `parts` entry. The
   * loader as written also reloads the object shape.
   */
  lemma LoadRoundTrip(ps: seq<Part>, metadata: Json)
    ensures LoadedParts(JArr(SavedParts(ps))) == RestoredAll(ps)
    ensures LoadedParts(JObj([("metadata", metadata), ("parts", JArr(SavedParts(ps)))])) == RestoredAll(ps)
    ensures LoadedPartsAsWritten(JObj([("metadata", metadata), ("parts", JArr(SavedParts(ps)))])) == RestoredAll(ps)
  {
    var items := SavedParts(ps);
    var saved := JObj([("metadata", metadata), ("parts", JArr(items))]);
    DecodeAllRoundTrip(ps);
    LoadedItems(JArr(items), items);
    PartsEntry(metadata, JArr(items));
    LoadedItems(saved, items);
    LoadedItemsAsWritten(saved, items);
  }

  lemma LoadedItems(payload: Json, items: seq<Json>)
    requires PayloadItems(payload) == Some(items) && DecodeAll(items).Some?
    ensures LoadedParts(payload) == DecodeAll(items).value
  {
  }

  lemma LoadedItemsAsWritten(payload: Json, items: seq<Json>)
    requires payload.JObj? && PayloadItems(payload) == Some(items) && DecodeAll(items).Some?
    ensures LoadedPartsAsWritten(payload) == DecodeAll(items).value
  {
  }

  lemma PartsEntry(metadata: Json, parts: Json)
    requires parts.JArr?
    ensures PayloadItems(JObj([("metadata", metadata), ("parts", parts)])) == Some(parts.items)
  {
    var d: Dict := [("metadata", metadata), ("parts", parts)];
    assert Get(d, "parts") == Some(parts);
  }

  /**
   * The loader as written reads the bare list of the extraction save as no
   * parts at all: `list.get` raises, and the handler returns the empty list.
   */
  lemma SavedListLoadsAsNothing(ps: seq<Part>)
    ensures LoadedPartsAsWritten(JArr(SavedParts(ps))) == []
    ensures ps != [] ==> LoadedPartsAsWritten(JArr(SavedParts(ps))) != RestoredAll(ps)
  {
  }
}
