# tubos_xtractor in Dafny

A Dafny model of the parts-catalog pipeline of tubos_xtractor. The pipeline has four stages:

1. It reads a dealer's PDF catalog and recognises part numbers of three shapes (`6000-487`, `2015-05`, `A6000-487`) in each page's text and tables. It attaches a description and a category to each part, merges duplicates, and stamps every part with its catalog.
2. It logs into the dealer portal and looks up the parts whose price is stale, ten at a time, pausing between lookups.
3. It merges the fetched parts back into the catalog list by part number and writes the dashboard export, the statistics and the error list.
   The export keeps only the priced and active parts. Its validation looks up a `sku` column, which a frame built from no rows lacks, so a run that readies no part fails. Without pricing no part is ever ready.
4. It reloads a previous extraction from its JSON form.

The model follows the program's structure:

- `Settings`, `Strings`, `Time`, `Json`, `Optional`: the configuration constants, the ASCII `str` built-ins, naive `datetime` as microseconds, and insertion-ordered dictionaries.
- `Schemas`: `Part`, `ProcessingError`, `CatalogMetadata` (values) and `ProcessingSession` (a class whose fields the run assigns).
- `Utils`, `PartPatterns`, `Tables`, `TextHeuristics`, `Dedup`, `CatalogInfo`, `PdfDocument`, `PdfExtractor`: the extraction side.
- `PriceParse`, `PriceFetcher`: the results-table parser, and the fetch session as a class with the browser as an oracle. The pauses are recorded in a ghost trace.
- `DataManager`: statistics, the export rows, the stale-price filter and the reload.
- `Orchestrator`: `process_catalog` and `main`.

Each looping operation is a method proved equal to a specification function. The properties are stated about those functions.

Conventions:

- Prices and averages are exact reals.
- Timestamps are integers.
- `datetime.now()` readings are a `clock` parameter.
- The wall-clock "now" that staleness compares against is one parameter for the whole run.

## Model

| member | source | states |
|---|---|---|
| Schemas.StatusFromValue | config/schemas.py:11-18 | `PartStatus(v)` yields a status whose value is `v`, and fails only when no status has that value |
| Schemas.StatusValueRoundTrip | config/schemas.py:11-18 | reading a status back from its value gives the same status |
| Schemas.ErrorTypeValueInjective | config/schemas.py:20-28 | two error types with the same value are the same error type |
| Schemas.PartToDict | config/schemas.py:46-59 | `to_dict` has exactly its ten keys, in order |
| Schemas.PartDictLookup | config/schemas.py:46-59 | each key holds its field; `sku` falls back to the part number, a missing price or timestamp is null, and the status is its string value |
| Schemas.NewPartDefaults | config/schemas.py:33-44 | a part made from a number alone has status extracted, vendor Jacuzzi, page 0, no price, a null timestamp and a sku equal to its number in the dict, and is stale |
| Schemas.StaleThreshold | config/schemas.py:61-65 | stale exactly when there is no timestamp or at least `days + 1` whole days have elapsed, which is when the floored day count exceeds `days` |
| Schemas.FuturePriceNotStale | config/schemas.py:61-65 | a timestamp later than now is never stale |
| Schemas.ErrorToDict | config/schemas.py:79-87 | the keys are the error-export columns, in order |
| Schemas.MetadataToDict | config/schemas.py:101-112 | the metadata dict has its eight keys, in order |
| Schemas.MetadataDictLookup | config/schemas.py:101-112 | `catalog_date` is null exactly when the date is absent; the counts are copied unchanged |
| Schemas.ProcessingSession.constructor | config/schemas.py:114-124 | a new session has no end time, no metadata, zero counters and an empty output file |
| Schemas.ProcessingSession.Duration | config/schemas.py:126-130 | None exactly while there is no end time; afterwards the seconds from start to end, never negative when the end is not before the start |
| Time.TimedeltaDays | config/schemas.py:64-65 | `.days` of a timedelta is the floor of the elapsed days |
| Json.GetDictSet | src/pdf_extractor.py:279-280 | assigning a key makes it map to the value, leaves every other key alone, and appends the key only if it was new |
| Strings.Strip | src/pdf_extractor.py:211 | `strip()` returns the input's middle slice: it starts after the leading whitespace, everything after it is whitespace, and it has no whitespace at either end |
| Strings.StripIdempotent | src/utils.py:79 | stripping twice equals stripping once |
| Strings.ContainsIffOccurs | src/pdf_extractor.py:182 | `k in s` holds exactly when `k` occurs at some position of `s` |
| Strings.Split | src/pdf_extractor.py:209 | `split('\n')` gives at least one piece, no piece contains the separator, and joining the pieces with it gives back the text |
| Utils.ValidatePartNumber | src/utils.py:51-64 | an accepted string has length 7 to 10 and, without a trailing newline, matches exactly one of `NNNN-NNN`, `NNNN-NN`, `[A-Z]NNNN-NNN` |
| Utils.ShapeIsValid | src/utils.py:58-64 | every string of one of the three shapes is accepted |
| Utils.ValidationExamples | src/utils.py:53-64 | the three sample shapes are accepted; a lower-case prefix, a six-digit head, the empty string and a six-character string are rejected |
| Utils.ChunkListPartition | src/utils.py:81-83 | the chunks concatenate back to the list; each is non-empty and at most the size, and all but the last have exactly the size |
| Utils.ChunkListCount | src/utils.py:81-83 | there are ceil(n / size) chunks, so none for an empty list |
| Utils.ChunkListSlice | src/utils.py:81-83 | chunk c is the slice from `c*size` to `(c+1)*size`, cut at the end of the list |
| Utils.ReplaceForbidden | src/utils.py:78 | each of `<>:"/\|?*` becomes `_`, and every other character keeps its place |
| Utils.SanitizeFilename | src/utils.py:74-79 | the result contains no forbidden character and is the substituted text with its leading and trailing whitespace removed: it starts after the leading whitespace, only whitespace follows it, and it neither starts nor ends with whitespace |
| Utils.SanitizeFilenameIdempotent | src/utils.py:74-79 | sanitising twice equals sanitising once |
| Utils.FilterExact | main.py:75 | a comprehension keeps exactly the elements that pass the test |
| Utils.FilterConcat | src/data_manager.py:82 | a comprehension keeps input order: filtering a concatenation concatenates the filtered parts |
| PartPatterns.NoMatchInsideMatch | config/settings.py:37-41 | two matches of one pattern never overlap |
| PartPatterns.MatchStarts | config/settings.py:37-41 | lists exactly the match positions from a point on, in increasing order |
| PartPatterns.FindIterFindsEveryMatch | src/pdf_extractor.py:96 | `finditer` resumes after each match and still yields every match position, in order |
| PartPatterns.MatchValidates | src/pdf_extractor.py:98-102 | the text of every match is already stripped and passes `validate_part_number` |
| PartPatterns.BoundaryExamples | config/settings.py:37-41 | `\b\d{4}-\d{3}\b` does not fire inside `A6000-123`, which the lettered pattern matches; `\b\d{4}-\d{2}\b` does not fire inside `6000-487`, which the three-digit pattern matches |
| PdfExtractor.MatchesAreMatches | src/pdf_extractor.py:96 | the positions scanned are exactly the pattern's matches, in increasing order |
| PdfExtractor.MatchPartsFromText | src/pdf_extractor.py:97-118 | every text part has a valid number, the page's number, status extracted and the page's single category |
| PdfExtractor.MatchPartOrigin | src/pdf_extractor.py:97-98 | every text part's number is the stripped text of one of the scanned matches |
| PdfExtractor.PatternsPartsSound | src/pdf_extractor.py:95-118 | every text part's number is the text of a match of one of the patterns |
| PdfExtractor.PatternsPartsComplete | src/pdf_extractor.py:95-118 | every match of every pattern yields a text part with that number |
| PdfExtractor.PageScanIsExact | src/pdf_extractor.py:95-118 | on a page with text, the text parts correspond exactly to the matches of the three patterns |
| PdfExtractor.PageParts | src/pdf_extractor.py:84-129 | a page without text yields nothing even if it has tables; every part has a valid number and the page's number, and comes from the text or from a table row |
| PdfExtractor.ScanPattern | src/pdf_extractor.py:96-118 | the append loop over the matches builds the pattern's parts in match order |
| PdfExtractor.ExtractPartsFromPage | src/pdf_extractor.py:84-129 | the page loop yields the text parts pattern by pattern, then the table parts |
| PdfExtractor.DocParts | src/pdf_extractor.py:57-59 | every found part has a valid number and a page reference between 1 and the page count |
| PdfExtractor.ExtractPages | src/pdf_extractor.py:57-59 | the page loop concatenates the pages' parts in page order, numbering pages from 1 |
| PdfExtractor.EnrichPartStamps | src/pdf_extractor.py:277-280 | stamping sets the catalog name, `extraction_date` and `source_file`; every other field and metadata key is unchanged |
| PdfExtractor.EnrichPartsMetadata | src/pdf_extractor.py:273-282 | the loop stamps every part in place with the path's stem, the path and its own clock reading |
| PdfExtractor.Numbered | src/pdf_extractor.py:70-71 | the successful count is at most the total, and equals it exactly when no part number is empty |
| PdfExtractor.CatalogParts | src/pdf_extractor.py:57-66 | after deduplication the part numbers are distinct and valid, with page references inside the document |
| PdfExtractor.ExtractParts | src/pdf_extractor.py:29-82 | the metadata names the file, version and date; an unreadable PDF gives no parts and zero counts; otherwise the counts are those of the deduplicated parts, all counted successful; a failed save gives no parts; the parts returned are the stamped deduplicated parts |
| Tables.FindColumnFrom | src/pdf_extractor.py:178-185 | returns the least index from a start whose filled, lower-cased header contains a keyword, and None when no header does |
| Tables.FindPartNumberColumn | src/pdf_extractor.py:171-185 | None for an empty header, otherwise the least index naming a part-number keyword, or None when no header names one |
| Tables.FindDescriptionColumn | src/pdf_extractor.py:187-201 | the same rule with the description keywords |
| Tables.PartColumnExample | src/pdf_extractor.py:176 | `["Item #","Desc","Qty"]` gives 0 for the identifier column |
| Tables.DescriptionColumnExample | src/pdf_extractor.py:192 | `["Item #","Desc","Qty"]` gives 1 for the description column |
| Tables.SharedColumnExample | src/pdf_extractor.py:176-198 | `"Part Name"` gives index 0 for both columns |
| Tables.RowPart | src/pdf_extractor.py:148-165 | a row gives a part iff it is non-empty, reaches the identifier column and that cell's stripped text validates; the part's number is that text, its description the stripped description cell when the row reaches it (else empty), with the page, status extracted and no category |
| Tables.RowsPartsConcat | src/pdf_extractor.py:148-165 | the row loop goes row by row: the parts of two runs of rows are the parts of the first followed by those of the second |
| Tables.RowsPartsExact | src/pdf_extractor.py:148-165 | a part is listed exactly when some data row yields it, so every valid row gives its part |
| Tables.TableParts | src/pdf_extractor.py:135-167 | a table gives at most one part per data row, each from a row, and none when the header has no identifier column |
| Tables.TablePartsExact | src/pdf_extractor.py:135-167 | a table yields exactly the parts its data rows give under the header's identifier and description columns, and nothing when it has no data row or no identifier column |
| Tables.TablesParts | src/pdf_extractor.py:131-169 | all tables together give at most as many parts as they have data rows, each a table part of the page |
| Tables.TablesPartsConcat | src/pdf_extractor.py:135-167 | the tables are processed in order: the parts of two runs of tables are the parts of the first followed by those of the second |
| Tables.TablesPartsExact | src/pdf_extractor.py:131-169 | a part comes out of the page's tables exactly when one of the tables yields it |
| Tables.ExtractPartsFromTables | src/pdf_extractor.py:131-169 | the loop over the tables appends each table's parts in table order |
| Tables.ExtractTableParts | src/pdf_extractor.py:136-167 | a table with fewer than two rows or no identifier column contributes nothing; otherwise its data rows are scanned |
| Tables.ExtractRows | src/pdf_extractor.py:148-167 | the row loop appends the part of every kept row in row order |
| TextHeuristics.Window | src/pdf_extractor.py:206 | the description window is at most 200 characters |
| TextHeuristics.FirstLongLine | src/pdf_extractor.py:210-212 | finds the first line whose stripped length exceeds 5; every earlier line is shorter |
| TextHeuristics.LeadingNonWord | src/pdf_extractor.py:214 | the removed prefix is the longest run of non-word characters |
| TextHeuristics.CollapseSpaces | src/pdf_extractor.py:215 | whitespace runs become single spaces; the non-space characters are kept in order |
| TextHeuristics.CleanLine | src/pdf_extractor.py:211-215 | a cleaned line starts with a word character and has no run of two whitespace characters |
| TextHeuristics.ExtractDescription | src/pdf_extractor.py:203-218 | the description is at most 100 characters, holds no newline and no run of two whitespace characters, and is empty or starts with a word character |
| TextHeuristics.DescriptionSource | src/pdf_extractor.py:203-218 | the description is empty when no line of the window is long enough, and empty when that line is all non-word characters; otherwise its non-space characters come from that line alone |
| TextHeuristics.SearchFrom | src/pdf_extractor.py:232 | `re.search` finds the leftmost position where an alternative matches, taking the first alternative there |
| TextHeuristics.TitleIgnoresCase | src/pdf_extractor.py:234 | the title-cased match depends only on the keyword, not on the case in the text |
| TextHeuristics.PatternCategory | src/pdf_extractor.py:231-234 | a pattern gives a category iff its search finds a match in the line, and the category is the title-cased keyword of the leftmost match |
| TextHeuristics.LineCategory | src/pdf_extractor.py:223-234 | the product pattern wins whenever it matches; a line has no category iff neither pattern matches; a category is a title-cased keyword |
| TextHeuristics.FirstCategoryLine | src/pdf_extractor.py:229-234 | finds the earliest line that names a category; no earlier line names one |
| TextHeuristics.PageRangeCategory | src/pdf_extractor.py:236-246 | the fallback is one of the five page-range defaults |
| TextHeuristics.ExtractCategory | src/pdf_extractor.py:220-246 | the category is never empty, and is a title-cased keyword or a page-range default |
| TextHeuristics.CategoryFromEarliestLine | src/pdf_extractor.py:229-234 | the earliest of the first ten lines that names a category decides it, whatever the pattern order |
| TextHeuristics.CategoryFallback | src/pdf_extractor.py:236-246 | when none of the first ten lines names a category, the page-range default is used |
| Dedup.FirstKeys | src/pdf_extractor.py:254-258 | the group keys are distinct, in first-occurrence order, and are exactly the part numbers present |
| Dedup.Group | src/pdf_extractor.py:254-258 | a group holds only parts with its number, and is non-empty exactly when the number occurs |
| Dedup.BestIndex | src/pdf_extractor.py:267 | `max` picks the first part with the largest description-plus-category length |
| Dedup.Dedup | src/pdf_extractor.py:248-271 | one part per key, taken from the input, never more parts than the input |
| Dedup.DedupKeys | src/pdf_extractor.py:248-271 | the kept numbers are distinct and are exactly the input's numbers |
| Dedup.FirstOccurrenceOrder | src/pdf_extractor.py:254-262 | the keys of a prefix are a prefix of the keys, so the output follows first occurrence |
| Dedup.KeptPosition | src/pdf_extractor.py:261-268 | locates the first part of a number whose score is maximal |
| Dedup.DedupKeepsFirstBest | src/pdf_extractor.py:261-268 | each kept part is the first of its number with the largest score |
| Dedup.DedupOfDistinct | src/pdf_extractor.py:248-271 | a list with distinct numbers is returned unchanged |
| Dedup.DedupIdempotent | src/pdf_extractor.py:248-271 | deduplicating twice equals deduplicating once |
| Dedup.GroupByNumber | src/pdf_extractor.py:254-258 | the grouping loop builds each number's group and the dict's key order |
| Dedup.GroupedAll | src/pdf_extractor.py:254-262 | after the loop the dict's keys are the first-occurrence keys, each with its whole group |
| Dedup.DeduplicateParts | src/pdf_extractor.py:248-271 | the method's output is the deduplicated list |
| CatalogInfo.PathName | src/pdf_extractor.py:44 | `Path.name` contains no `/` |
| CatalogInfo.Suffix | main.py:144 | `Path.suffix` is empty, or a dot followed by at least one non-dot character |
| CatalogInfo.StemSuffix | src/pdf_extractor.py:275 | stem and suffix concatenate back to the name |
| CatalogInfo.FirstFourDigits | src/pdf_extractor.py:288 | finds the leftmost run of four digits |
| CatalogInfo.CatalogAtLower | src/pdf_extractor.py:298 | the case-insensitive `catalog` test is the lower-cased text containing `catalog` there |
| CatalogInfo.CatalogEndIsLast | src/pdf_extractor.py:298 | the greedy `.*` ends at the last `catalog` within reach |
| CatalogInfo.LineEnd | src/pdf_extractor.py:298 | `.` stops at the first newline |
| CatalogInfo.PhraseOnOneLine | src/pdf_extractor.py:298 | a version phrase lies within one line |
| CatalogInfo.PhraseShape | src/pdf_extractor.py:298 | a version phrase starts with four digits and ends with `catalog` in any case |
| CatalogInfo.VersionInText | src/pdf_extractor.py:298 | nothing is found iff no position starts a phrase; a phrase found has that shape |
| CatalogInfo.VersionInTextLeftmost | src/pdf_extractor.py:298 | the search returns the phrase at the leftmost position where one starts |
| CatalogInfo.ExtractCatalogVersion | src/pdf_extractor.py:284-304 | the stem's leftmost four digits if any; otherwise page 1's phrase whenever the PDF opens, has pages and page 1 holds one; `"Unknown"` exactly when neither exists |
| CatalogInfo.MatchMonthDay | src/pdf_extractor.py:318 | a month field is 1 to 12 and a day field 1 to 31 |
| CatalogInfo.StrptimeYmd | src/pdf_extractor.py:318 | a parse gives a valid date whose year is the first four digits, from 6 to 8 characters |
| CatalogInfo.StrptimeRoundTrip | src/pdf_extractor.py:317-318 | every valid date written as YYYYMMDD parses back to itself |
| CatalogInfo.TrailingDataRefused | src/pdf_extractor.py:318 | `20241301` does not parse: month 13 leaves unconverted data |
| CatalogInfo.ExtractCatalogDate | src/pdf_extractor.py:306-322 | a date exactly when the metadata is readable, the creation date starts with `D:` and its next eight characters parse; it is midnight of that date |
| PriceParse.DecimalValue | src/price_fetcher.py:331 | the value is non-negative, and lies between the whole part and the whole part plus one |
| PriceParse.FirstDigit | src/price_fetcher.py:329 | finds the leftmost digit |
| PriceParse.DigitRun | src/price_fetcher.py:329 | finds the maximal run of digits |
| PriceParse.NumberMatch | src/price_fetcher.py:329 | `re.search` of the number pattern fails exactly when the text has no digit |
| PriceParse.RemoveCommas | src/price_fetcher.py:329 | the result has no comma and never grows; text without commas is unchanged |
| PriceParse.RemoveCommasFilters | src/price_fetcher.py:329 | removing the commas is the comprehension that keeps every other character, in order |
| PriceParse.CellPrice | src/price_fetcher.py:326-333 | a price read from a cell is non-negative |
| PriceParse.Headers | src/price_fetcher.py:305 | the headers are the stripped, lower-cased `th` texts |
| PriceParse.NetPriceColumn | src/price_fetcher.py:308-312 | finds the first header containing both `net` and `price` |
| PriceParse.ParsePriceFromTable | src/price_fetcher.py:286-337 | None for fewer than two rows or no net-price header; with one, the price is the first data row's cell under the first net-price header, or None when the row is too short; a price is non-negative |
| PriceParse.ShortDataRowGivesNoPrice | src/price_fetcher.py:322-323 | a first data row too short for the column gives None |
| PriceParse.ReadsLeftmostNumber | src/price_fetcher.py:329-331 | the leftmost number is read: digits, a point and the digits after it |
| PriceParse.ReadsLeftmostWholeNumber | src/price_fetcher.py:329-331 | a leftmost number with no point after its digits is read as those digits, with an empty fraction |
| PriceParse.DollarPriceExample | src/price_fetcher.py:326-331 | `"$123.45"` gives 123.45 |
| PriceFetcher.FetchPartPrice | src/price_fetcher.py:245-284 | a price comes only from a results table that the parser reads; timeouts and missing elements give None |
| PriceFetcher.MissingCredentialsFailLogin | src/price_fetcher.py:160-163 | without the `Jacuzzi Dealer` entry the login neither submits nor succeeds |
| PriceFetcher.AfterLookupChanges | src/price_fetcher.py:82-97 | a lookup changes only price, timestamp and status; found gives priced with that price and timestamp, not found gives failed with price and timestamp kept |
| PriceFetcher.PricedOnly | src/price_fetcher.py:83-87 | the updated list holds exactly the priced parts, in order |
| PriceFetcher.LookupAllParts | src/price_fetcher.py:77-108 | each part is looked up once, in order, with its own clock reading |
| PriceFetcher.LookupAllAccounts | src/price_fetcher.py:77-108 | the updated parts are the priced ones in input order, and updated plus errors equals the number of parts |
| PriceFetcher.LookupErrorsAreNotFound | src/price_fetcher.py:89-97 | every lookup error is a not-found error for a part whose lookup returned nothing, with that part's page reference |
| PriceFetcher.FetchRunKeepsParts | src/price_fetcher.py:35-130 | the run keeps the number and position of every part, changes only price, timestamp and status, and every updated part is among the results |
| PriceFetcher.EarlyFailureLeavesParts | src/price_fetcher.py:55-72 | a failed login or navigation gives no updates, leaves every part as it was, and reports one `ALL` error of the matching type |
| PriceFetcher.LookupPauses | src/price_fetcher.py:75-115 | one `REQUEST_DELAY` pause per part, one double pause between consecutive chunks, and none after the last chunk |
| PriceFetcher.LookupSleepsCount | src/price_fetcher.py:110-115 | after c chunks the trace has one short pause per part looked up, and a long pause after every chunk but the last |
| PriceFetcher.PriceFetcher.constructor | src/price_fetcher.py:29-33 | a fetcher starts with no driver, not logged in, and an empty pause trace |
| PriceFetcher.PriceFetcher.Login | src/price_fetcher.py:157-204 | succeeds exactly when the credentials are complete and the lower-cased page contains `logout` or `welcome`; a submitted form records the 3-second wait |
| PriceFetcher.PriceFetcher.CleanupDriver | src/price_fetcher.py:146-155 | the driver is gone afterwards |
| PriceFetcher.PriceFetcher.LookupPart | src/price_fetcher.py:80-111 | one lookup extends the lookup loop's invariant by one part |
| PriceFetcher.PriceFetcher.LookupChunk | src/price_fetcher.py:80-111 | a chunk's loop extends the invariant by the chunk's parts |
| PriceFetcher.PriceFetcher.LookupNextChunk | src/price_fetcher.py:77-111 | looking up chunk c advances from its first part to the next chunk's start |
| PriceFetcher.PriceFetcher.ChunkPauses | src/price_fetcher.py:110-115 | records a chunk's pauses, with the long pause only before another chunk |
| PriceFetcher.PriceFetcher.LookupChunks | src/price_fetcher.py:75-115 | the chunked loops give the lookup result of the whole list and record the pause schedule |
| PriceFetcher.PriceFetcher.LoggedInRun | src/price_fetcher.py:54-115 | after setup, the run result and pause trace are those of the login, navigation and lookup sequence |
| PriceFetcher.PriceFetcher.FetchPrices | src/price_fetcher.py:35-130 | the result is the run's result; a failing setup gives one `ALL` unexpected error; the driver is closed on every path |
| DataManager.CountStatus | src/data_manager.py:214 | a status count never exceeds the number of parts |
| DataManager.StatusCounts | src/data_manager.py:211-215 | one entry per status, holding the status value and its count |
| DataManager.StatusTableKeys | src/data_manager.py:213-215 | the keys are the six status values in declaration order |
| DataManager.StatusCountsCoverParts | src/data_manager.py:209-215 | the six counts sum to the number of parts |
| DataManager.PricesExact | src/data_manager.py:218 | the price list holds exactly the prices of the parts that have one |
| DataManager.MinMaxBound | src/data_manager.py:222-223 | min and max are attained, and bound every price |
| DataManager.SumBetween | src/data_manager.py:224-225 | the sum lies between n times any lower bound and n times any upper bound |
| DataManager.PriceStats | src/data_manager.py:219-226 | price statistics are empty exactly when no part has a price |
| DataManager.PriceStatsBounds | src/data_manager.py:220-226 | min ≤ avg ≤ max; min and max are prices of the list and bound all of them |
| DataManager.PriceStatsTotal | src/data_manager.py:224-225 | the total is the sum of the prices, and the average times the count is the total |
| DataManager.AverageBetween | src/data_manager.py:224 | a mean of values between two bounds lies between them |
| DataManager.Coverage | src/data_manager.py:231 | coverage lies in 0 to 100; it is 100 exactly when every part of a non-empty list is priced, and 0 exactly when none is |
| DataManager.CalculateStatistics | src/data_manager.py:207-234 | the statistics hold the part count, the priced count, the coverage, the per-status table and the price statistics |
| DataManager.ReadyPartsExact | src/data_manager.py:82 | the export keeps exactly the priced and active parts, in input order |
| DataManager.NoneReady | src/data_manager.py:82 | parts that all still have the extracted status give no export row |
| DataManager.Take | src/data_manager.py:111 | truncation keeps a prefix of at most 200 characters |
| DataManager.LouCsvRow | src/data_manager.py:106-118 | the row's keys are the dashboard columns, in order |
| DataManager.LouCsvRowLookup | src/data_manager.py:106-118 | sku falls back to the part number, the description is cut at 200, a missing price or timestamp is `""`, and the status is its value |
| DataManager.LouRowAgreesWithPartDict | src/data_manager.py:106-118 | the row agrees with `to_dict` on every shared key, except the cut description, and the price and timestamp cells of a part without them |
| DataManager.LouCsvRows | src/data_manager.py:82-90 | one row per ready part, in order |
| DataManager.GenerateLouCsv | src/data_manager.py:66-127 | one row per ready part, in order; the validation of the rows' frame succeeds exactly when there is at least one row, since a frame with no rows has no `sku` column |
| DataManager.StalePartsExact | src/data_manager.py:308-319 | exactly the stale parts, in input order |
| DataManager.DecodePart | src/data_manager.py:279-297 | only an object with a part number gives a part, with no errors and no metadata |
| DataManager.PartFromFields | src/data_manager.py:280-290 | the part keeps the stored number; an unreadable field or unknown status gives none |
| DataManager.DecodeDefaults | src/data_manager.py:280-290 | an element holding only a part number gives the default part |
| DataManager.DecodeAll | src/data_manager.py:279-299 | a successful load gives one part per element |
| DataManager.DecodeItems | src/data_manager.py:278-299 | the append loop computes the list decode |
| DataManager.LoadPreviousParts | src/data_manager.py:254-306 | as written: the method's result is the as-written load, which reads only an object's `parts` list and gives no parts on any failure, the bare list included |
| DataManager.DecodeAllFailureAt | src/data_manager.py:304-306 | one undecodable element fails the whole load |
| DataManager.UnknownStatusFailsLoad | src/data_manager.py:289 | one unknown status string makes the whole load return no parts |
| DataManager.NoPartsEntryLoadsNothing | src/data_manager.py:279 | an object without a `parts` entry gives no parts |
| DataManager.DecodePartRoundTrip | src/data_manager.py:280-297 | reading back `to_dict` restores every field; an empty sku becomes the part number |
| DataManager.DecodeAllRoundTrip | src/data_manager.py:279-299 | reading back a saved list restores every part in order |
| DataManager.LoadRoundTrip | src/data_manager.py:279-299 | the corrected loader restores the parts from the bare list and from the `{"metadata", "parts"}` object; the loader as written restores them from the object |
| DataManager.SavedListLoadsAsNothing | src/data_manager.py:279 | the loader as written returns no parts for the bare list the extractor saves |
| Orchestrator.PartsToPriceExact | main.py:71-75 | every part under force refresh, otherwise exactly the parts stale under 7 days, in order |
| Orchestrator.WriteBackPositions | main.py:79 | the fetch updates the shared part objects: unselected positions are unchanged, and the k-th selected position holds the k-th fetched part |
| Orchestrator.WriteBackUnchanged | main.py:79 | writing back the unchanged selection changes nothing |
| Orchestrator.WriteBackHoldsFetched | main.py:79 | every fetched part ends up in the list |
| Orchestrator.WriteBackSameParts | main.py:79 | if each fetched part differs from its original only in price, timestamp and status, so does each written-back part |
| Orchestrator.TableIndexOf | main.py:84-86 | finds the first entry with the key, or reports that there is none |
| Orchestrator.PutProperties | main.py:86 | dict assignment maps the key to the value, leaves other keys alone, keeps the key order and appends only a new key |
| Orchestrator.PutAllFind | main.py:85-86 | after the loop a key maps to the last updated part with that number, else to its earlier entry |
| Orchestrator.TableOfKeys | main.py:84 | the comprehension's keys are the part numbers in first-occurrence order |
| Orchestrator.KeptFromParts | main.py:84 | the comprehension keeps the last part with each number |
| Orchestrator.MergedTable | main.py:84-86 | updates for known numbers keep the key order; the keys stay distinct and each maps to a part with that number |
| Orchestrator.MergeProperties | main.py:84-87 | one part per distinct number in first-occurrence order; an updated part replaces its entry and the others pass through |
| Orchestrator.MergeOfDistinct | main.py:84-87 | with distinct numbers, merging parts already in the list leaves it unchanged |
| Orchestrator.MergeParts | main.py:84-87 | the loop computes the merge |
| Orchestrator.ExtractedDistinct | main.py:53 | the extracted parts have distinct numbers |
| Orchestrator.FinalPartsAreWrittenBack | main.py:65-87 | the output has one part per extracted part, each differing only in price, timestamp and status; without pricing it is the extraction itself |
| Orchestrator.CountersAccount | main.py:79-81 | after a successful login and navigation, updated plus errors equals the parts selected; otherwise there are no updates and one error |
| Orchestrator.Extract | main.py:52-53 | returns the extractor's parts and metadata |
| Orchestrator.UpdatePrices | main.py:65-91 | sets the price and error counters, returns the merged parts and the errors, and leaves the other session fields alone |
| Orchestrator.ProcessExtracted | main.py:59-118 | records the metadata and part count, prices only when asked, writes the error file only for a non-empty error list, and exports the ready parts; success means the outputs were written and at least one part is ready, and on failure no export and no output file are recorded |
| Orchestrator.ProcessCatalog | main.py:31-118 | an empty extraction returns False with the session untouched; otherwise the counters, the output parts, the error export and the dashboard rows are as stated, and success means the outputs were written and at least one final part is priced or active |
| Orchestrator.UpperCasePdfAccepted | main.py:144 | the suffix test ignores case: `.PDF` is accepted |
| Orchestrator.BackupOfPdfRejected | main.py:144 | only the last suffix counts: `x.pdf.bak` is rejected |
| Orchestrator.BarePdfNameRejected | main.py:144 | a name that is only `.pdf` has no suffix and is rejected |
| Orchestrator.Run | main.py:120-172 | the exit status is 1 for a missing or non-PDF file; otherwise it is 0 exactly when parts were extracted, the outputs were written and at least one final part is ready for the export |
| Orchestrator.NoPricesExportsNothing | main.py:52-118 | without pricing every final part keeps the extracted status (src/pdf_extractor.py:115 and 164), so no part is ready for the export and the run with `--no-prices` cannot succeed |
| Orchestrator.ExtractedAreExtracted | src/pdf_extractor.py:84-169 | every part the extraction returns has the extracted status, set where text and table parts are created |

## Left out

- The browser and the dealer portal are a `Portal` oracle: whether setup works, the login page, whether navigation works, the results table of each lookup, and the clock. Selenium waits and clicks are not modelled.
- A critical exception is modelled only as a setup failure, before any part is looked up. An exception later in the run, which would keep the results already gathered, is not modelled.
- The per-part `except` branch of `fetch_prices` (src/price_fetcher.py:99-108) is not modelled. `_fetch_part_price` already turns every exception into None, so only logging or the clock could raise there.
- `_navigate_to_price_lookup` is the oracle's `navigationOk` flag.
- `time.sleep` is recorded in a ghost trace. The pause after each lookup is recorded once per chunk, after that chunk's lookups, so the trace's order is the source's.
- PDF reading (pdfplumber, PyPDF2) is replaced by a `Document` value: pages of text and tables, an "opens" flag, and an optional creation-date string.
- The per-page `except` branch (src/pdf_extractor.py:126-129) is not modelled.
- File and OS I/O are not modelled, and neither is the JSON or CSV text written to disk. This covers `save_json`, the CSV writers, `save_errors`, `create_backup`, `save_parts_data`, `save_session_metadata`, `_save_extraction_data` and `ensure_directory`. The model keeps one flag for whether the extraction's files were saved and one for whether the outputs were written.
- `ProcessingSession.to_dict` is not modelled: it is only written to disk.
- The glob and modification-time choice in `load_previous_parts` is not modelled. The loader is given the decoded payload of the chosen file.
- DataManager.DecodePart: a stored field of the wrong JSON type fails the load. The source would build a `Part` holding that value.
- DataManager.TimestampField: a stored `last_updated` that is not a timestamp the program wrote is dropped. `fromisoformat` is not modelled on arbitrary text.
- Floating point is not modelled. Prices, averages, coverage and durations are exact reals.
- Python's `re`, `str.lower`, `strip`, `split` and `title` are modelled over ASCII. Unicode classes are not modelled.
- `datetime.now()` is a `clock` parameter. Session ids and start and end times are parameters.
- `Path` normalisation (trailing slashes, `.` and `..`) is not modelled. `Path.name` is taken after the last `/`.
- `_validate_lou_csv`: only whether it raises is modelled. The issues it logs are logging only: rows missing `sku` or `part_number`, non-empty prices that are not numbers or not positive, and duplicate part numbers.
- `argparse`, logging and `load_credentials` file reading are not modelled. The credentials are a parameter.
- `analyze_pdf.py` and `src/tests/test_extraction.py` are not part of this model.

## Findings

| source | as written | input that shows it | evidently intended | confidence | as-written member | corrected member |
|---|---|---|---|---|---|---|
| src/pdf_extractor.py:329-331; src/data_manager.py:265-279 | `_save_extraction_data` writes the extracted parts as a bare JSON list to `parts_<catalog>_<time>.json`. That is the file `load_previous_parts` globs for, but the loader reads `data.get('parts', [])`, which a list does not have. | Any non-empty extraction saved and then reloaded: the list has no `get`, the exception is caught, and the load returns `[]`. | Reloading the saved extraction returns its parts. | not executed | DataManager.SavedListLoadsAsNothing | DataManager.LoadRoundTrip |

`DataManager.LoadPreviousParts` models the loader as written, so it gives no parts for the bare list. The corrected loader is `DataManager.LoadedParts`, which reads both file shapes. `main.py` and the orchestrator never call `load_previous_parts`, so no other member depends on which version is used.
