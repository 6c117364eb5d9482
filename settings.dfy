/** The constants of the configuration module that the core reads. */
module Settings {

  /** The identifier patterns of PDF_PART_NUMBER_PATTERNS, by the shape they match. */
  datatype PartNumberPattern =
    | FourDashThree        // \b\d{4}-\d{3}\b, as in 6000-487
    | FourDashTwo          // \b\d{4}-\d{2}\b, as in 2015-05
    | LetterFourDashThree  // \b[A-Z]\d{4}-\d{3}\b, as in A6000-487

  /** The page scanner runs them in this order. */
  const PDF_PART_NUMBER_PATTERNS: seq<PartNumberPattern> := [FourDashThree, FourDashTwo, LetterFourDashThree]

  /** Seconds between two portal lookups. */
  const REQUEST_DELAY: real := 2.0

  /** Days after which a price is refreshed. */
  const PRICE_STALE_DAYS: int := 7

  /** Columns of the dashboard export, in order. */
  const LOU_CSV_COLUMNS: seq<string> :=
    ["sku", "part_number", "description", "category", "unit_price",
     "last_updated", "source_catalog", "vendor", "status"]

  /** Columns of the error export, in order. */
  const ERROR_CSV_COLUMNS: seq<string> :=
    ["part_number", "error_type", "error_message", "timestamp", "retry_count", "page_reference"]

  /** Display name of the dealer portal's entry in the credential store. */
  const JACUZZI_SITE_NAME: string := "Jacuzzi Dealer"
}
