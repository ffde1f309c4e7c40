# claimly core, modelled in Dafny

claimly is a web application for California unclaimed-property records. It
has four core parts, and this project models each of them:

- **CSV import.** A `;`-separated file with a header line is parsed into rows.
  Each row is validated for three required fields. Rows that pass are
  converted into store records and inserted in batches of 100. Rows that
  fail become error lines.
- **Batch geocoding.** A single-run controller takes a page of records
  that need coordinates. For each record it resolves the owner address,
  then the holder address. It writes the outcome back, counts successes
  and failures, and reports progress. It can be stopped between records.
- **Address resolution.** The address resolver builds a query from the
  trimmed, non-empty address parts. It keeps outbound requests at least
  one second apart and reduces every failure to "no result".
- **Small rules.**
  - the admin session (login, logout, and the restore on mount over the
    browser's key-value storage);
  - the tab list and the redirect away from admin-only tabs;
  - the map page's search filter and property-type colour lookup.

One Dafny module stands for each source file:

| module | file | source |
|---|---|---|
| `Geocoding` | geocoding.dfy | `src/services/geocoding.ts` |
| `GeocodingBatch` | geocoding_batch.dfy | `src/services/geocodingBatch.ts` |
| `CsvParser` | csv_parser.dfy | `src/utils/csvParser.ts` |
| `App` | app.dfy | the upload handler, tab list and redirect of `src/App.tsx` |
| `AuthContext` | auth_context.dfy | `src/contexts/AuthContext.tsx` |
| `MapView` | map_view.dfy | the search effect and type-code lookups of `src/components/MapView.tsx` |

Three support modules hold shared pieces:

- `Wrappers` holds `Option` and `Result`.
- `JsStrings` holds the JavaScript string primitives the code relies on:
  `trim`, `split` on one character, `join`, `toLowerCase`, `includes`, and
  integer-to-text.
- `Sequences` holds `Array.prototype.filter` and flattening.

Where the source changes state in place, the model does too:

- The static fields of the two services become the fields of the classes
  `Geocoding.GeocodingService` and `GeocodingBatch.BatchGeocodingService`.
- The React state and `localStorage` of the auth provider become the
  fields of the class `AuthContext.AuthProvider`.
- The loops become methods with loop invariants, each proved against a
  specification function:
  - the parse loop, against `CsvParser.ParsedRecords`;
  - the validation loop, against `App.PartitionOf`;
  - the insert loop, against `App.Batches` and `App.FirstFailure`;
  - the geocoding loop, against `GeocodingBatch.Steps`,
    `GeocodingBatch.Successes`, `GeocodingBatch.Failures`,
    `GeocodingBatch.Writes`, `GeocodingBatch.Snapshots` and
    `GeocodingBatch.Entered`;
  - the statistics loop, against `GeocodingBatch.Classify`.

The outside world is an input:

- **Clock readings.** Each lookup gets an `Exchange`: the clock when the
  call starts, the clock after the rate-limit wait, and the reply.
- **HTTP replies.** An `HttpReply` is a network error or a response with
  its `ok` flag, status and decoded body.
- **Store replies.**
  - The page query returns a `PageReply`.
  - Each record update returns an `UpdateReply`: stored, an error
    returned, or raised. If it raised, the model also records whether the
    "mark as failed" update that follows raised too.
  - Each insert batch has a reply, given as a function from the batch
    index.
- **Stop requests.** Whether `stopBatchGeocoding` was called during the
  page query, or while a given record was in flight, is an input flag.

## Model

| member | source | states |
|---|---|---|
| Geocoding.Compact | src/services/geocoding.ts:52 | `filter(Boolean)` on strings keeps exactly the non-empty entries, none of them empty, and never lengthens the list |
| Geocoding.CompactAppend | src/services/geocoding.ts:46-52 | the filter works entry by entry, so the surviving parts keep the street, city, state, zip, country order |
| Geocoding.AddressParts | src/services/geocoding.ts:46-52 | the definition: street, city, state, zip and country, each trimmed, the empty ones dropped; its properties are `Geocoding.Compact`, `Geocoding.CompactAppend` and `Geocoding.AddressPartsCount` |
| Geocoding.AddressPartsCount | src/services/geocoding.ts:46-52 | the number of address parts is the number of fields that are not blank after trimming |
| Geocoding.SearchParams | src/services/geocoding.ts:58-66 | the five query parameters in order: `q` the address parts joined with ", ", `format` json, `limit` 1, `countrycodes` the untrimmed country lowercased, `addressdetails` 1 |
| Geocoding.Resolution | src/services/geocoding.ts:70-90 | a result exists exactly when the reply is a response with `ok` whose decoded body has a `length` other than 0 and a first element that is not null; it is built from that first element only, a missing `lat`, `lon` or `display_name` giving a NaN coordinate or an undefined name rather than null; a network error, a non-ok status, an unreadable body, an empty list or a null first element give null |
| Geocoding.Geocode | src/services/geocoding.ts:54-56 | fewer than two parts give null whatever the reply; otherwise the reply's resolution |
| Geocoding.RequestsFor | src/services/geocoding.ts:54-68 | a request is sent exactly when at least two parts survive; it is stamped with the post-wait clock and carries the search parameters |
| Geocoding.OwnerAddress | src/services/geocoding.ts:100-110 | the owner street is `owner_street_1` alone, a missing city reads as `''`, and the country falls back to "US" when missing or empty |
| Geocoding.HolderAddress | src/services/geocoding.ts:119-129 | the holder street is `holder_street_1` alone and the country is always "US" |
| Geocoding.HolderNeedsOneField | src/services/geocoding.ts:113-130 | since the country is "US", a holder address reaches two parts exactly when one of its four fields is not blank |
| Geocoding.OwnerNeedsOneFieldByDefault | src/services/geocoding.ts:93-111 | the same holds for the owner when the country column is missing or empty |
| Geocoding.RequiredWait | src/services/geocoding.ts:19-26 | the wait is positive exactly when less than 1000 ms passed; it then moves the request to exactly 1000 ms after the last one, and never to earlier |
| Geocoding.PacedKeepsSpacing | src/services/geocoding.ts:18-35 | any number of requests, each sent no earlier than the wait asked after the one before, keep the requests 1000 ms apart and leave `lastRequestTime` on the last of them |
| Geocoding.GeocodingService.constructor | src/services/geocoding.ts:16 | `lastRequestTime` starts at 0 with nothing sent, and the spacing invariant holds |
| Geocoding.GeocodingService.RateLimitedFetch | src/services/geocoding.ts:18-35 | waits `RequiredWait`, stamps `lastRequestTime` with the clock after the wait and sends one request; under a clock that does not run slow, requests stay at least 1000 ms apart |
| Geocoding.GeocodingService.GeocodeAddress | src/services/geocoding.ts:37-91 | the result is `Geocode`; the requests sent are `RequestsFor` (none, and `lastRequestTime` unchanged, below two parts); the spacing invariant is kept |
| Geocoding.GeocodingService.GeocodeOwnerAddress | src/services/geocoding.ts:93-111 | `GeocodeAddress` on the owner address, with the same effects |
| Geocoding.GeocodingService.GeocodeHolderAddress | src/services/geocoding.ts:113-130 | `GeocodeAddress` on the holder address, with the same effects |
| GeocodingBatch.SelectPage | src/services/geocodingBatch.ts:32-36 | the page has min(limit, eligible) rows, each from the table with status null, "pending" or "failed" |
| GeocodingBatch.CompletedTableYieldsEmptyPage | src/services/geocodingBatch.ts:35 | a table whose rows are all "completed" yields an empty page |
| GeocodingBatch.WrittenStatusFeedsBack | src/services/geocodingBatch.ts:35 | a record the run marks "failed" is selected again by the next run and one marked "completed" is not; the statistics count each in its bucket |
| GeocodingBatch.MainPayload | src/services/geocodingBatch.ts:56-82 | the status is "completed" exactly when the owner or the holder resolved; coordinates are written only for the side that resolved, and are that side's |
| GeocodingBatch.StepOf | src/services/geocodingBatch.ts:55-108 | the definition of one record's step: the owner lookup, then the holder lookup, with the requests each sends; its effects are stated by `GeocodingBatch.StepsExtend`, `GeocodingBatch.MainPayload` and `GeocodingBatch.BatchGeocodingService.VisitRecord` |
| GeocodingBatch.StepsPrefix | src/services/geocodingBatch.ts:50 | records are visited in page order: a shorter run's steps are a prefix of a longer run's |
| GeocodingBatch.StepsSnoc | src/services/geocodingBatch.ts:50 | the next record adds its own step at the end |
| GeocodingBatch.StepsExtend | src/services/geocodingBatch.ts:76-93 | one more record adds its share to `successful`, to `failed`, to the updates and to the requests |
| GeocodingBatch.SnapshotsExtend | src/services/geocodingBatch.ts:110-111 | a later record leaves earlier snapshots alone; the newest snapshot carries the totals of all records so far |
| GeocodingBatch.SnapshotsSnoc | src/services/geocodingBatch.ts:110-111 | each record adds one snapshot at the end, with the flag read at emit time |
| GeocodingBatch.LastAtAppend | src/services/geocoding.ts:28 | after two runs of requests, `lastRequestTime` is the last request of the second run, or of the first if the second sent none |
| GeocodingBatch.EnteredFrom | src/services/geocodingBatch.ts:50-53 | the records the loop enters from a given index stay within the page |
| GeocodingBatch.AbortedAt | src/services/geocodingBatch.ts:95-108 | a record whose update and "mark failed" update both raise ends the run there, uncounted in `processed` |
| GeocodingBatch.FinishedAt | src/services/geocodingBatch.ts:50-53 | a loop that leaves normally has entered exactly the records it counted |
| GeocodingBatch.TallyBounds | src/services/geocodingBatch.ts:76-110 | each record raises `successful + failed` by one or two, so `processed <= successful + failed <= 2 * processed` |
| GeocodingBatch.WritesFollowSteps | src/services/geocodingBatch.ts:84-105 | every update sent names a visited record, and each visited record gets at least one update |
| GeocodingBatch.EnteredIsFirstStop | src/services/geocodingBatch.ts:50-53 | the loop enters exactly the records up to the first stop request or abort, or the whole page |
| GeocodingBatch.FinishedRunBounds | src/services/geocodingBatch.ts:76-111 | a run that does not throw processed at most the page, and its tallies lie between `processed` and `2 * processed`; equality with `processed` is not promised |
| GeocodingBatch.EnteredCases | src/services/geocodingBatch.ts:50-53 | without stops or aborts the whole page is visited; the first stop during record `j` ends the run after `j + 1` records |
| GeocodingBatch.Classify | src/services/geocodingBatch.ts:177-190 | the definition of the `switch` over the statuses; what each bucket counts is stated by `GeocodingBatch.ClassifyCounts` and `GeocodingBatch.ClassifyBound` |
| GeocodingBatch.ClassifyCounts | src/services/geocodingBatch.ts:177-190 | "completed" counts as geocoded, "pending" and "processing" as pending, "failed" as failed, each bucket counting exactly its strings |
| GeocodingBatch.ClassifyBound | src/services/geocodingBatch.ts:177-190 | other strings are ignored, so the three buckets together never exceed the statuses classified |
| GeocodingBatch.NonNull | src/services/geocodingBatch.ts:153-156 | the statistics read exactly the statuses that are not null: each status as many times as rows carry it, none for a null row |
| GeocodingBatch.StatsCountRows | src/services/geocodingBatch.ts:150-190 | geocoded is the number of rows with status "completed", pending the rows with "pending" or "processing", failed the rows with "failed" |
| GeocodingBatch.NullStatusesInNoBucket | src/services/geocodingBatch.ts:140-194 | rows whose status is null fall in no bucket, so the buckets stay within the rows that have a status |
| GeocodingBatch.KeepsSpacing | src/services/geocoding.ts:18-35 | a resolver that has sent paced requests since it was consistent is consistent again |
| GeocodingBatch.BatchGeocodingService.constructor | src/services/geocodingBatch.ts:13-14 | not running, no observer, nothing emitted or written |
| GeocodingBatch.BatchGeocodingService.SetProgressCallback | src/services/geocodingBatch.ts:16-18 | registers the observer and changes nothing else |
| GeocodingBatch.BatchGeocodingService.StopBatchGeocoding | src/services/geocodingBatch.ts:120-122 | clears the flag and changes nothing else |
| GeocodingBatch.BatchGeocodingService.IsGeocodingRunning | src/services/geocodingBatch.ts:124-126 | returns the flag |
| GeocodingBatch.BatchGeocodingService.UpdateProgress | src/services/geocodingBatch.ts:128-138 | with an observer, delivers one snapshot with the flag as it is now; without one, delivers nothing |
| GeocodingBatch.BatchGeocodingService.LookUp | src/services/geocodingBatch.ts:61-73 | owner lookup, then holder lookup: the record's step, with the requests both lookups send, in that order |
| GeocodingBatch.BatchGeocodingService.VisitRecord | src/services/geocodingBatch.ts:55-108 | one record's lookups, decision, update and failure handling add exactly the record's step to the counters, the updates and the requests |
| GeocodingBatch.BatchGeocodingService.ProcessRecord | src/services/geocodingBatch.ts:50-111 | one pass of the loop body: unless the failure handling raises, one more step is tracked and one snapshot is emitted, and the flag is cleared exactly when a stop arrived during the record |
| GeocodingBatch.BatchGeocodingService.ProcessPage | src/services/geocodingBatch.ts:50-112 | the loop visits the entered records in page order; it returns their counters, updates, requests and snapshots, and reports whether it left by an exception |
| GeocodingBatch.BatchGeocodingService.RunPage | src/services/geocodingBatch.ts:42-117 | the first snapshot (total 0 for an empty page), the loop, then the `finally` block: the flag is cleared and a snapshot with total 0 and the flag false comes last; when the clock honoured every wait of the run, the resolver's requests stay 1000 ms apart |
| GeocodingBatch.BatchGeocodingService.StartBatchGeocoding | src/services/geocodingBatch.ts:20-118 | a start while running throws "already running" and changes nothing; a failed page query throws after the closing snapshot; otherwise the run's outcome, counters, updates, requests and snapshots are those of the entered records; every started run ends with the flag false and a last snapshot (0, processed, successful, failed, false); when the clock honoured every wait of the run, the resolver's requests stay 1000 ms apart |
| GeocodingBatch.BatchGeocodingService.GetGeocodingStats | src/services/geocodingBatch.ts:140-194 | throws exactly when the status or null-coordinates query fails; otherwise the total (0 when absent) and the classification of the non-null statuses: the rows with "completed", with "pending" or "processing", and with "failed" |
| CsvParser.Lines | src/utils/csvParser.ts:30 | the trimmed text always has a first line |
| CsvParser.RowOf | src/utils/csvParser.ts:35-43 | a data line gives one row exactly when its cell count matches the header's, and no row otherwise |
| CsvParser.Rows | src/utils/csvParser.ts:34-44 | the definition of the data lines' rows, in line order; stated by `CsvParser.RowsAppend`, `CsvParser.RowsOfOneLine`, `CsvParser.RowsCount` and `CsvParser.ParseCSV` |
| CsvParser.RecordOf | src/utils/csvParser.ts:38-41 | the definition of one row from the header names and the cells; stated by `CsvParser.RecordOfKeys` and `CsvParser.RecordOfCell` |
| CsvParser.RecordOfKeys | src/utils/csvParser.ts:38-41 | a row's keys are exactly the trimmed header names |
| CsvParser.RecordOfCell | src/utils/csvParser.ts:39-41 | a header name maps to the trimmed cell of its own column, unless a later column has the same trimmed name |
| CsvParser.RowsAppend | src/utils/csvParser.ts:34-44 | the rows of two runs of lines are the rows of the first followed by those of the second |
| CsvParser.RowsOfOneLine | src/utils/csvParser.ts:35-43 | one line gives at most one row, exactly when its cell count matches, and that row is built from its cells |
| CsvParser.RowsCount | src/utils/csvParser.ts:34-44 | at most one row per line, and one per line exactly when every line has the header's cell count |
| CsvParser.LineOfCells | src/utils/csvParser.ts:35-41 | cells without `;`, as many as the headers, joined with `;` are read back as the row of those cells |
| CsvParser.BlankTextHasNoRows | src/utils/csvParser.ts:30-31 | a blank file has no rows |
| CsvParser.ParseCSV | src/utils/csvParser.ts:29-47 | the rows of the data lines in line order, matching lines only; at most the number of lines minus one |
| CsvParser.BuildRecord | src/utils/csvParser.ts:38-41 | the `forEach` fills in the row `RecordOf` describes |
| CsvParser.RequiredFieldErrors | src/utils/csvParser.ts:91-106 | the definition of the messages for the three required fields; stated by `CsvParser.RequiredFieldErrorsFacts` |
| CsvParser.RequiredFieldErrorsFacts | src/utils/csvParser.ts:91-106 | each message appears exactly when its field is missing or blank; the messages come in the order property ID, owner name, property type; the list is empty exactly when all three are present |
| CsvParser.ValidateCSVRecord | src/utils/csvParser.ts:91-106 | pushes the messages `RequiredFieldErrors` lists, at most three, all of them known messages |
| CsvParser.ParseCount | src/utils/csvParser.ts:56-60 | the definition of the count reader: keep digits and `-`, then read a number, `NaN` read as 0; stated by `CsvParser.ParseCountOfDecimal`, `CsvParser.ParseCountIgnoresOtherChars`, `CsvParser.InnerMinusReadsZero` and `CsvParser.NoDigitsReadsZero` |
| CsvParser.ParseCountOfDecimal | src/utils/csvParser.ts:56-60 | the decimal text of a count, negated or not, reads back as that count |
| CsvParser.ParseCountIgnoresOtherChars | src/utils/csvParser.ts:57 | characters other than digits and `-` make no difference to the count |
| CsvParser.InnerMinusReadsZero | src/utils/csvParser.ts:58-59 | a `-` after the first kept character makes the text not a number, read as 0 |
| CsvParser.NoDigitsReadsZero | src/utils/csvParser.ts:56-60 | a cleaned text without digits, the empty text or a lone `-`, reads as 0 |
| CsvParser.ParseAmount | src/utils/csvParser.ts:50-51 | the text handed to `parseFloat` holds only digits, `.` and `-` |
| CsvParser.ConvertCSVRecordToDBRecord | src/utils/csvParser.ts:49-89 | the conversion succeeds exactly when the row has all five numeric columns (reading a missing one throws) |
| CsvParser.ConvertKeepsRequiredFields | src/utils/csvParser.ts:62-88 | a validated row's property ID, owner name and type are copied unchanged and are not blank |
| App.CombineExtend | src/App.tsx:109-116 | taking one more row commutes with concatenating partitions |
| App.PartitionOf | src/App.tsx:105-116 | the definition of the validation loop's result, row by row; stated by `App.PartitionContents`, `App.PartitionAppend` and `App.PartitionDefined` |
| App.RowError | src/App.tsx:114 | the definition of a failing row's error line: the property ID (`undefined` when missing) and the messages joined with ", " |
| App.PartitionAppend | src/App.tsx:109-116 | the partition of consecutive runs of rows is the concatenation of their partitions |
| App.PartitionFailurePersists | src/App.tsx:109-112 | once a conversion throws on a prefix, the whole validation throws |
| App.PartitionDefined | src/App.tsx:109-116 | the validation loop finishes exactly when every row that passes validation has the numeric columns |
| App.PartitionContents | src/App.tsx:106-116 | every row lands on exactly one side; the valid list is the conversion of the passing rows in order; the error list has one line per failing row, in order; the two counts add up to the rows |
| App.PartitionRecords | src/App.tsx:105-116 | the loop computes `PartitionOf`, or stops on the first conversion that throws |
| App.Batches | src/App.tsx:127-128 | there are ceil(n / 100) batches |
| App.BatchSizes | src/App.tsx:124-128 | each batch holds between 1 and 100 records, all but the last exactly 100 |
| App.BatchesPrefix | src/App.tsx:127-128 | the first `k` batches are the first `100 * k` records, in order |
| App.BatchesFlatten | src/App.tsx:127-128 | the batches concatenate back to the valid records |
| App.FirstFailure | src/App.tsx:130-136 | the first batch whose insert reports an error, with every earlier batch accepted |
| App.FirstFailureIsFirst | src/App.tsx:130-136 | a failing batch with every earlier batch accepted is the first failure |
| App.FirstFailureNone | src/App.tsx:130-136 | if every batch is accepted there is no first failure |
| App.InsertBatches | src/App.tsx:122-139 | batches are sent in order up to and including the first refused one, and none after it; the records sent are then the first `100 * (f + 1)` valid ones and the count is `100 * f`; if none is refused all are sent, they are the valid records in order, and the count is their number |
| App.SuccessMessage | src/App.tsx:141-143 | the definition of the success message: the inserted count, then the error count only when there are errors |
| App.HandleFileUpload | src/App.tsx:92-153 | no parsed rows: "No valid records found in CSV file" and no insert; a conversion that throws: its message and no insert; no valid rows: the second message and no insert; otherwise the insert outcome, and the success message counts the inserted records and the error lines |
| App.VisibleTabs | src/App.tsx:159-167 | the definition of the tab filter; stated by `App.VisibleTabsFacts` and `App.PublicTabs` |
| App.VisibleTabsFacts | src/App.tsx:159-167 | a tab is shown exactly when it is public or the user is admin, in tab order; an admin sees all five, anyone else search, map and admin |
| App.PublicTabs | src/App.tsx:159-167 | a non-admin sees the search, map and admin tabs |
| App.RedirectTab | src/App.tsx:38-42 | the tab changes exactly when auth has loaded, the user is not admin and the tab is import or geocoding; it then becomes admin |
| App.RedirectLandsOnShownTab | src/App.tsx:38-42 | after the redirect the active tab is a shown tab, and running the effect again changes nothing |
| AuthContext.ValidCredentialsExactly | src/contexts/AuthContext.tsx:51-58 | exactly the two listed username/password pairs log in |
| AuthContext.TokenText | src/contexts/AuthContext.tsx:62 | the token text is never empty, so a stored token is truthy |
| AuthContext.ParseInt | src/contexts/AuthContext.tsx:35 | the definition of `parseInt` without a radix; stated by `AuthContext.DigitRunFacts`, `AuthContext.ParseIntOfDecimal`, `AuthContext.ParseIntOfUnsigned` and `AuthContext.ParseIntWithoutDigits` |
| AuthContext.DigitRunFacts | src/contexts/AuthContext.tsx:35 | `parseInt` reads the longest prefix of digits of the radix and stops at the first other character |
| AuthContext.ParseIntOfDecimal | src/contexts/AuthContext.tsx:35 | `parseInt` of the decimal text of a time gives that time, whatever non-digit text follows (other than an `x`) |
| AuthContext.ParseIntOfUnsigned | src/contexts/AuthContext.tsx:35 | text starting with a digit and no `0x` prefix reads as the decimal value of its leading digits |
| AuthContext.DigitRunPrefix | src/contexts/AuthContext.tsx:35 | the digits read stop where the digits stop |
| AuthContext.ParseIntWithoutDigits | src/contexts/AuthContext.tsx:35 | text without any digit is `NaN` |
| AuthContext.SessionValid | src/contexts/AuthContext.tsx:30-38 | the definition of the restore's verdict: both keys truthy and the clock before the parsed expiry |
| AuthContext.RestoredStorage | src/contexts/AuthContext.tsx:30-44 | the definition of the storage after the restore: both keys removed exactly when both are truthy and the session is not valid |
| AuthContext.LoginThenRestore | src/contexts/AuthContext.tsx:28-73 | a session stored by a login at `now` is restored exactly before `now + 86400000`; after that the restore removes both keys |
| AuthContext.LogoutThenRestore | src/contexts/AuthContext.tsx:28-79 | after a logout no session is restored and the restore removes nothing |
| AuthContext.RestoreIdempotent | src/contexts/AuthContext.tsx:28-47 | a second restore gives the same verdict and removes nothing more |
| AuthContext.AuthProvider.constructor | src/contexts/AuthContext.tsx:25-26 | a provider mounts not admin and loading, over the existing storage |
| AuthContext.AuthProvider.RestoreSession | src/contexts/AuthContext.tsx:28-47 | admin exactly when both keys are truthy and the clock is before the parsed expiry; both present but expired (or unparsable): both removed; either missing: nothing removed; loading ends either way |
| AuthContext.AuthProvider.Login | src/contexts/AuthContext.tsx:49-73 | returns true exactly for a listed pair; it then stores the token and an expiry of now + 86400000 and becomes admin; otherwise storage and flag are unchanged |
| AuthContext.AuthProvider.Logout | src/contexts/AuthContext.tsx:75-79 | removes both keys and clears the admin flag |
| AuthContext.LoginThenReload | src/contexts/AuthContext.tsx:28-73 | a login followed by a fresh mount is admin exactly while the day has not passed; a failed login leaves the earlier session's verdict |
| AuthContext.LogoutThenReload | src/contexts/AuthContext.tsx:28-79 | a logout followed by a fresh mount is never admin |
| MapView.BlankTermKeepsAll | src/components/MapView.tsx:72-73 | an empty or whitespace-only term shows every property |
| MapView.FilterProperties | src/components/MapView.tsx:71-83 | the definition of the search effect; stated by `MapView.BlankTermKeepsAll`, `MapView.FilterKeepsMatches`, `MapView.FilterIsSubsequenceOfInput` and `MapView.FilterIgnoresTermCase` |
| MapView.FilterKeepsMatches | src/components/MapView.tsx:74-82 | any other term shows exactly the matching properties, as a sub-list in order, and the whole list exactly when all match |
| MapView.FilterIsSubsequenceOfInput | src/components/MapView.tsx:71-83 | whatever the term, the result is a sub-list of the properties in their order |
| MapView.FilterIgnoresTermCase | src/components/MapView.tsx:75-80 | the search does not depend on the case of the term |
| MapView.TypeCode | src/components/MapView.tsx:112 | the code is the prefix before the first `:`, or all of it |
| MapView.TypeCodeOfLabel | src/components/MapView.tsx:160 | a code written before a `:` is read back whatever follows, and a code alone is read as itself |
| MapView.PropertyTypeColor | src/components/MapView.tsx:159-182 | the badge class is one of the table's classes or the grey default |
| MapView.MarkerColor | src/components/MapView.tsx:111-134 | the marker colour is one of the table's colours or the grey default |
| MapView.DefaultsExactlyForUnknownCodes | src/components/MapView.tsx:159-182 | both tables know the same codes; the grey class and grey colour are given exactly for unknown codes |
| MapView.AnchorAtTip | src/components/MapView.tsx:135-136 | the anchor is the middle of the bottom edge in both sizes, and the selected marker is larger |
| JsStrings.TrimStartFacts | src/services/geocoding.ts:47-51 | the leading whitespace removed is all whitespace, and what is left starts with another character |
| JsStrings.TrimEndFacts | src/services/geocoding.ts:47-51 | the trailing whitespace removed is all whitespace, and what is left ends with another character |
| JsStrings.TrimFacts | src/services/geocoding.ts:47-51 | `trim` leaves no whitespace at either end and is empty exactly for all-whitespace text |
| JsStrings.Split | src/utils/csvParser.ts:30-35 | `split` on one character gives at least one piece, none holding the separator; the first piece is the text up to the first separator |
| JsStrings.JoinSplit | src/utils/csvParser.ts:30-35 | joining the pieces with the separator gives the text back |
| JsStrings.SplitJoin | src/utils/csvParser.ts:30-35 | splitting separator-free pieces joined by the separator gives the pieces back |
| JsStrings.SplitNoSeparator | src/components/MapView.tsx:112 | a text without the separator splits into itself alone |
| JsStrings.SplitAfterPiece | src/components/MapView.tsx:112 | a separator-free piece before the separator splits off first |
| JsStrings.Retain | src/utils/csvParser.ts:57 | `replace(/[^...]/g, '')` keeps only accepted characters and never lengthens the text |
| JsStrings.RetainAppend | src/utils/csvParser.ts:57 | the removal works character by character |
| JsStrings.RetainKeepsAll | src/utils/csvParser.ts:57 | the text is unchanged exactly when every character is accepted |
| JsStrings.Lower | src/components/MapView.tsx:76 | `toLowerCase` keeps the length and lowers each character |
| JsStrings.NatToString | src/contexts/AuthContext.tsx:66 | the text of a number is a non-empty run of digits with no leading zero |
| JsStrings.DigitsValueOfNatToString | src/contexts/AuthContext.tsx:66 | reading the text of a number back gives the number |
| Sequences.Filter | src/App.tsx:167 | `filter` never lengthens the list |
| Sequences.FilterMembership | src/App.tsx:167 | an element survives the filter exactly when it is in the input and accepted |
| Sequences.FilterIsSubsequence | src/components/MapView.tsx:75 | the filter keeps the order of what it keeps |
| Sequences.FilterAppend | src/App.tsx:109-116 | filtering a concatenation filters each part |
| Sequences.FilterKeepsAll | src/App.tsx:167 | the filter leaves the list unchanged exactly when it accepts every element |

## Left out

- HTTP, `fetch`, request headers and the encoding of `URLSearchParams` are
  not modelled. A request is its parameter list, and a reply is an
  `HttpReply` input.
- The Supabase client and its query builder are not modelled. What the
  store answers is an input: the page rows, the update replies, the insert
  replies and the statistics queries.
- `loadProperties` (src/App.tsx:44-90) and the reload after an import are
  not modelled; nothing in them is checked.
- The map's `loadGeocodedProperties` is not modelled either.
- The clock is an input; timers are not modelled.
  - `Date.now()` before and after the rate-limit wait is an input, and
    so is `new Date().toISOString()` for `geocoded_at`.
  - The rate-limit spacing is proved only under a clock that moves at
    least as far as the wait asked (`Geocoding.Paced` for a batch run).
- GeocodingBatch.BatchGeocodingService.StartBatchGeocoding: the default
  page size of 100 is not modelled; every caller passes the limit.
- Concurrency is not modelled. A stop can take effect only between
  records: it arrives while a record is in flight, or during the page
  query. Starting again while an earlier run still awaits is out of scope.
- Geocoding.Resolution: `parseFloat` of the latitude and longitude is
  not modelled. A coordinate is the field it was parsed from, `None` for
  a missing field (NaN). Field values that are not strings are not
  distinguished from strings.
- CsvParser.ParseAmount: `parseFloat` of the cleaned text is not
  modelled, only which characters are kept.
- CsvParser.ParseCount: values are exact integers. JavaScript numbers
  lose precision above 2^53, and the model does not capture that.
- CsvParser.ConvertCSVRecordToDBRecord: a missing numeric column makes
  the conversion throw a `TypeError`. The model gives `None` and does
  not model the message. `App.HandleFileUpload` takes that message as an
  input.
- AuthContext.TokenText: the token is the text before `btoa`. The
  base-64 encoding is not modelled.
- AuthContext.AuthProvider.Login: `Date.now()` is a non-negative integer
  input, and the expiry is stored as its exact decimal text.
- AuthContext.AuthProvider.RestoreSession: the clock is an integer input.
- JsStrings.Lower: only ASCII letters are lowercased. Unicode case
  mapping is not modelled.
- MapView.MatchesTerm: a property field that is null would throw in the
  source. Every field is a string in the model.
- MapView.PropertyTypeColor: the lookup reads only the listed codes. In
  the source, a code such as `constructor` hits an inherited property of
  the object literal, and the model does not capture that.
- MapView.MarkerColor: the same inherited-property case is not captured.
- The Leaflet icon, its SVG and base-64 URL, `Intl.NumberFormat`, and all
  rendering are not modelled. Only the marker colour, size and anchor
  are.
- The `nullCoordinates` count of `getGeocodingStats` is not modelled. It
  is a store count passed through unchanged.
- GeocodingBatch.BatchGeocodingService.ProcessPage: the loop is proved
  over a step function `take` that equals `GeocodingBatch.StepOf`
  everywhere, and its callers pass `StepOf` itself. This keeps the loop's
  proof from looking inside the lookups; nothing is weakened.
- Every error inside the resolver becomes "no result" in the model, as in
  the source. The logging to the console is not modelled.
