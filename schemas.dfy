/** The records of the pipeline: part, error, catalog metadata and processing session. */
module Schemas {
  import opened Optional
  import opened Time
  import opened Json
  import opened Settings

  /** Life-cycle of a part. */
  datatype PartStatus = Extracted | PricePending | Priced | PriceFailed | Active | Discontinued

  /** Declaration order, which is the order `for status in PartStatus` visits. */
  const ALL_STATUSES: seq<PartStatus> := [Extracted, PricePending, Priced, PriceFailed, Active, Discontinued]

  /** `status.value` */
  function StatusValue(s: PartStatus): string
  {
    match s
    case Extracted => "extracted"
    case PricePending => "price_pending"
    case Priced => "priced"
    case PriceFailed => "price_failed"
    case Active => "active"
    case Discontinued => "discontinued"
  }

  /** `PartStatus(v)`; None where Python raises ValueError. */
  function StatusFromValue(v: string): (r: Option<PartStatus>)
    ensures r.Some? ==> StatusValue(r.value) == v
    ensures r.None? ==> forall s: PartStatus :: StatusValue(s) != v
  {
    if v == "extracted" then Some(Extracted)
    else if v == "price_pending" then Some(PricePending)
    else if v == "priced" then Some(Priced)
    else if v == "price_failed" then Some(PriceFailed)
    else if v == "active" then Some(Active)
    else if v == "discontinued" then Some(Discontinued)
    else None
  }

  /** The six values are pairwise distinct, so `PartStatus(s.value)` gives `s` back. */
  lemma StatusValueRoundTrip(s: PartStatus)
    ensures StatusFromValue(StatusValue(s)) == Some(s)
  {
  }

  /** Kinds of processing error. */
  datatype ErrorType = PdfParsing | PartNotFound | NetworkError | ValidationError | RateLimit | LoginFailed | Unexpected

  /** `error_type.value` */
  function ErrorTypeValue(e: ErrorType): string
  {
    match e
    case PdfParsing => "pdf_parsing"
    case PartNotFound => "part_not_found"
    case NetworkError => "network_error"
    case ValidationError => "validation_error"
    case RateLimit => "rate_limit"
    case LoginFailed => "login_failed"
    case Unexpected => "unexpected"
  }

  lemma ErrorTypeValueInjective(a: ErrorType, b: ErrorType)
    ensures ErrorTypeValue(a) == ErrorTypeValue(b) ==> a == b
  {
  }

  /** A catalog part. `metadata` holds the extraction stamp; `errors` is never written by the core. */
  datatype Part = Part(
    partNumber: string,
    description: string,
    category: string,
    pageReference: int,
    status: PartStatus,
    price: Option<real>,
    lastPriceUpdate: Option<Timestamp>,
    sourceCatalog: string,
    vendor: string,
    sku: string,
    errors: seq<string>,
    metadata: Dict)

  const DEFAULT_VENDOR: string := "Jacuzzi"

  /** `Part(part_number)` with every other field at its dataclass default. */
  function NewPart(partNumber: string): Part
  {
    Part(partNumber, "", "", 0, Extracted, None, None, "", DEFAULT_VENDOR, "", [], [])
  }

  /** `sku or part_number` */
  function EffectiveSku(p: Part): string
  {
    if p.sku != "" then p.sku else p.partNumber
  }

  function PriceJson(price: Option<real>): Json
  {
    match price
    case Some(v) => JReal(v)
    case None => JNull
  }

  /** `t.isoformat() if t else None` */
  function TimestampJson(t: Option<Timestamp>): Json
  {
    match t
    case Some(v) => JIso(v)
    case None => JNull
  }

  const PART_DICT_KEYS: seq<string> :=
    ["sku", "part_number", "description", "category", "unit_price",
     "last_updated", "source_catalog", "vendor", "status", "page_reference"]

  /** `Part.to_dict` */
  function PartToDict(p: Part): (d: Dict)
    ensures Keys(d) == PART_DICT_KEYS
  {
    [("sku", JStr(EffectiveSku(p))),
     ("part_number", JStr(p.partNumber)),
     ("description", JStr(p.description)),
     ("category", JStr(p.category)),
     ("unit_price", PriceJson(p.price)),
     ("last_updated", TimestampJson(p.lastPriceUpdate)),
     ("source_catalog", JStr(p.sourceCatalog)),
     ("vendor", JStr(p.vendor)),
     ("status", JStr(StatusValue(p.status))),
     ("page_reference", JInt(p.pageReference))]
  }

  /** `Part.is_price_stale(days)` with the clock reading `now` passed in. */
  predicate IsPriceStale(p: Part, days: int, now: Timestamp)
  {
    p.lastPriceUpdate.None? || TimedeltaDays(now - p.lastPriceUpdate.value) > days
  }

  /** Whole days are floored, so a price is stale exactly when it is at least `days + 1` full days old. */
  lemma StaleThreshold(p: Part, days: int, now: Timestamp)
    ensures IsPriceStale(p, days, now) <==>
      p.lastPriceUpdate.None? || now - p.lastPriceUpdate.value >= (days + 1) * MICROS_PER_DAY
  {
    if p.lastPriceUpdate.Some? {
      var delta := now - p.lastPriceUpdate.value;
      var d := TimedeltaDays(delta);
      if d > days {
        assert d * MICROS_PER_DAY >= (days + 1) * MICROS_PER_DAY;
      } else {
        assert (d + 1) * MICROS_PER_DAY <= (days + 1) * MICROS_PER_DAY;
      }
    }
  }

  /** A timestamp in the future is never stale for a non-negative window. */
  lemma FuturePriceNotStale(p: Part, days: int, now: Timestamp)
    requires p.lastPriceUpdate.Some? && p.lastPriceUpdate.value > now && days >= -1
    ensures !IsPriceStale(p, days, now)
  {
    StaleThreshold(p, days, now);
  }

  /** A part straight from extraction has no price and no timestamp, so it is stale for any window. */
  lemma NewPartDefaults(partNumber: string, days: int, now: Timestamp)
    ensures IsPriceStale(NewPart(partNumber), days, now)
    ensures var d := PartToDict(NewPart(partNumber));
      Get(d, "sku") == Some(JStr(partNumber)) && Get(d, "unit_price") == Some(JNull)
      && Get(d, "last_updated") == Some(JNull) && Get(d, "status") == Some(JStr("extracted"))
      && Get(d, "vendor") == Some(JStr("Jacuzzi")) && Get(d, "page_reference") == Some(JInt(0))
  {
    var d := PartToDict(NewPart(partNumber));
    PartDictLookup(NewPart(partNumber));
  }

  /** `to_dict` writes no key twice. */
  lemma PartDictDistinct(p: Part)
    ensures var d := PartToDict(p); forall a, b :: 0 <= a < b < |d| ==> d[a].0 != d[b].0
  {
  }

  /** Each key of `to_dict` carries the field it is named after. */
  lemma PartDictLookup(p: Part)
    ensures var d := PartToDict(p);
      && Get(d, "sku") == Some(JStr(EffectiveSku(p)))
      && Get(d, "part_number") == Some(JStr(p.partNumber))
      && Get(d, "description") == Some(JStr(p.description))
      && Get(d, "category") == Some(JStr(p.category))
      && Get(d, "unit_price") == Some(PriceJson(p.price))
      && Get(d, "last_updated") == Some(TimestampJson(p.lastPriceUpdate))
      && Get(d, "source_catalog") == Some(JStr(p.sourceCatalog))
      && Get(d, "vendor") == Some(JStr(p.vendor))
      && Get(d, "status") == Some(JStr(StatusValue(p.status)))
      && Get(d, "page_reference") == Some(JInt(p.pageReference))
  {
    var d := PartToDict(p);
    PartDictDistinct(p);
    GetDistinct(d, 0);
    GetDistinct(d, 1);
    GetDistinct(d, 2);
    GetDistinct(d, 3);
    GetDistinct(d, 4);
    GetDistinct(d, 5);
    GetDistinct(d, 6);
    GetDistinct(d, 7);
    GetDistinct(d, 8);
    GetDistinct(d, 9);
  }

  /** A processing error; `part_number` is "ALL" when the error concerns the whole run. */
  datatype ProcessingError = ProcessingError(
    partNumber: string,
    errorType: ErrorType,
    errorMessage: string,
    timestamp: Timestamp,
    retryCount: int,
    pageReference: int,
    metadata: Dict)

  const WHOLE_RUN: string := "ALL"

  /** `ProcessingError(...)` with `retry_count` and `metadata` at their defaults. */
  function NewError(partNumber: string, errorType: ErrorType, message: string, now: Timestamp, pageReference: int): ProcessingError
  {
    ProcessingError(partNumber, errorType, message, now, 0, pageReference, [])
  }

  /** `ProcessingError.to_dict`: one value per error-export column, in column order. */
  function ErrorToDict(e: ProcessingError): (d: Dict)
    ensures Keys(d) == ERROR_CSV_COLUMNS
  {
    [("part_number", JStr(e.partNumber)),
     ("error_type", JStr(ErrorTypeValue(e.errorType))),
     ("error_message", JStr(e.errorMessage)),
     ("timestamp", JIso(e.timestamp)),
     ("retry_count", JInt(e.retryCount)),
     ("page_reference", JInt(e.pageReference))]
  }

  /** What the extractor learns about a catalog. */
  datatype CatalogMetadata = CatalogMetadata(
    filename: string,
    totalPages: int,
    processingDate: Timestamp,
    totalParts: int,
    successfulExtractions: int,
    failedExtractions: int,
    catalogVersion: string,
    catalogDate: Option<Timestamp>)

  const METADATA_DICT_KEYS: seq<string> :=
    ["filename", "total_pages", "processing_date", "total_parts",
     "successful_extractions", "failed_extractions", "catalog_version", "catalog_date"]

  /** `CatalogMetadata.to_dict` */
  function MetadataToDict(m: CatalogMetadata): (d: Dict)
    ensures Keys(d) == METADATA_DICT_KEYS
  {
    [("filename", JStr(m.filename)),
     ("total_pages", JInt(m.totalPages)),
     ("processing_date", JIso(m.processingDate)),
     ("total_parts", JInt(m.totalParts)),
     ("successful_extractions", JInt(m.successfulExtractions)),
     ("failed_extractions", JInt(m.failedExtractions)),
     ("catalog_version", JStr(m.catalogVersion)),
     ("catalog_date", TimestampJson(m.catalogDate))]
  }

  /** An absent catalog date is exported as null and the counts are copied unchanged. */
  lemma MetadataDictLookup(m: CatalogMetadata)
    ensures var d := MetadataToDict(m);
      && (Get(d, "catalog_date") == Some(JNull) <==> m.catalogDate.None?)
      && Get(d, "total_parts") == Some(JInt(m.totalParts))
      && Get(d, "successful_extractions") == Some(JInt(m.successfulExtractions))
      && Get(d, "failed_extractions") == Some(JInt(m.failedExtractions))
      && Get(d, "total_pages") == Some(JInt(m.totalPages))
  {
    var d := MetadataToDict(m);
    assert forall a, b :: 0 <= a < b < |d| ==> d[a].0 != d[b].0;
    GetDistinct(d, 1);
    GetDistinct(d, 3);
    GetDistinct(d, 4);
    GetDistinct(d, 5);
    GetDistinct(d, 7);
  }

  /** One run of the tool; `main` and `process_catalog` assign its fields as the run progresses. */
  class ProcessingSession {
    const sessionId: string
    const startTime: Timestamp
    var endTime: Option<Timestamp>
    var catalogMetadata: Option<CatalogMetadata>
    var partsProcessed: int
    var pricesUpdated: int
    var errorsCount: int
    var outputFile: string

    constructor (sessionId: string, startTime: Timestamp)
      ensures this.sessionId == sessionId && this.startTime == startTime
      ensures endTime == None && catalogMetadata == None
      ensures partsProcessed == 0 && pricesUpdated == 0 && errorsCount == 0 && outputFile == ""
    {
      this.sessionId := sessionId;
      this.startTime := startTime;
      endTime := None;
      catalogMetadata := None;
      partsProcessed := 0;
      pricesUpdated := 0;
      errorsCount := 0;
      outputFile := "";
    }

    /** `duration()`: no value while the run is open, the elapsed seconds once it is closed. */
    function Duration(): (r: Option<real>)
      reads this
      ensures r.None? <==> endTime.None?
      ensures r.Some? ==> r.value * MICROS_PER_SECOND as real == (endTime.value - startTime) as real
      ensures r.Some? && endTime.value >= startTime ==> r.value >= 0.0
    {
      match endTime
      case Some(e) => Some(TotalSeconds(e - startTime))
      case None => None
    }
  }
}
