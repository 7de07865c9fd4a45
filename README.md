# Daily sales upload, CORS policy and rule-based chatbot — a Dafny model

This project models the core of a Node/Express backend for a sales and
inventory portal. The model has three parts.

**The spreadsheet upload** (`routes/upload.js`).
- An uploaded XLSX/XLS/CSV sheet passes the MIME filter.
- It is turned into row objects: headers are trimmed, a repeated header keeps
  its last column, empty rows are dropped, and at most 10000 data rows are kept.
- Each row is normalised:
  - `parseDate` tries a spreadsheet serial first, then `D-M-YYYY`, then the
    engine's own parser;
  - the branch defaults to `CHENNAI`;
  - the item code goes through its alias columns;
  - the sales quantity comes from the listed quantity columns, then from any
    positive column.
- The rows are accumulated per `date-branch-item` key in slices of 500. The
  first row of a key seeds its record; later rows add to its billing. Missing
  branch and product names and the date range are collected along the way.
- The missing branches and products are created with multi-row
  `INSERT ... ON CONFLICT DO NOTHING` statements. Then the id maps are
  refreshed.
- Each record is classified new, updated or unchanged against the prior
  inventory row of its key.
- The new and updated records are written with one 13-column
  `INSERT ... ON CONFLICT (product_id, branch_id) DO UPDATE` per slice.
- The report is built: the first 100 changes, the ten largest updates and the
  significant changes. One `upload_history` row is written.
- The whole handler runs inside one transaction: it commits on success and
  rolls back on any error.
- Also modelled: the history listing's `hasMore` flag and the freshness
  overview counts.

**The application shell** (`app.js`).
- The `NODE_ENV` development switch.
- The CORS origin callback over the allowed-origins list. This includes the
  anchored regular expression it builds for `*` entries.
- The global error handler's choice between 403 and 500.

**The chatbot** (`routes/chatbot.js`).
- `processQuery`'s chain of keyword tests, as a table of rules.
- The plan-achievement rate.
- The two POST handlers. Each tries the external assistant, then the
  rule-based reply, then a canned reply. Each reports which source was used,
  and the authenticated one logs the exchange.

**How the model is written.**
- Pure JavaScript helpers (`includes`, `trim`, `toUpperCase`, `parseFloat`,
  `parseInt`, `Math.round`, `toISOString`) are functions on `seq<char>`, in
  module `Js` and module `Dates`.
- The database is a value, `Store.Tables`. Its three statement kinds are
  functions over bound parameter arrays.
- The loops of the source are methods. Each method is proved equal to a
  specification function, and the properties are lemmas about those functions.
- The transaction is a class, `Upload.Database`. Its `Upload` method changes
  the tables and the history only on success.

Values the route gets from outside are parameters of the model:
- the clock (`today`, `now`, `ms`, `elapsed`);
- the JavaScript engine's `new Date(text)`;
- the two `Math.random()` draws per record;
- the external assistant's answer;
- the data-backed replies of the chatbot;
- the fresh session id.

## Model

| member | source | states |
|---|---|---|
| Upload.FileFilterMeaning | routes/upload.js:22-35 | exactly the three spreadsheet MIME types pass; any other is refused with the "Invalid file type" error, which does not mention CORS and so becomes a 500 |
| Dates.ParseDateFalsy | routes/upload.js:44 | an empty, zero, false or undefined cell dates the row "now" |
| Dates.SerialBranch | routes/upload.js:49-53 | text whose trimmed form parseFloat reads as n with 1 < n < 100000 is the day 1900-01-01 plus n - 2 days |
| Dates.SerialRoundTrip | routes/upload.js:49-53 | a numeric serial n with 1 < n < 100000 is the day n days after 1899-12-30 |
| Dates.DmyBranch | routes/upload.js:46-60 | non-empty text whose trimmed form parseFloat does not read as a serial (no number, or one outside 1..100000) and that the day-month-year pattern matches gives `new Date(year, month - 1, day)` |
| Dates.EngineBranch | routes/upload.js:46-64 | text that is neither a serial nor matched by the pattern gives the engine's date for it when that date is valid |
| Dates.UnparseableIsNow | routes/upload.js:46-64 | text that is neither a serial nor matched by the pattern, and that the engine finds invalid, dates the row "now" |
| Dates.DmyReadBack | routes/upload.js:56 | the unanchored regular expression reads back the day, month and year of `DD-MM-YYYY` text |
| Dates.DdMmYyyyText | routes/upload.js:49-60 | `DD-MM-YYYY` text with a day of 02 or more takes the serial branch on the day number; only day 00 or 01 reaches the day-month-year reading |
| Dates.FifthOfMarchIsSerialFive | routes/upload.js:49-53 | "05-03-2024" is 1900-01-04, not 5 March 2024 |
| Dates.FirstOfMarchIsDayMonthYear | routes/upload.js:55-60 | "01-03-2024" is 1 March 2024 |
| Dates.MakeDateInYear | routes/upload.js:59 | `new Date(y, m, d)` with a year past 99 and a month in range is the civil date y-(m+1)-d |
| Dates.DefaultDateIsSerialYear | routes/upload.js:256 | a row without a date column, dated by `new Date().toISOString()`, is read as the serial whose number is the current year |
| Dates.IsoYearPrefix | routes/upload.js:256-257 | the trimmed ISO timestamp starts with the four-digit year and a dash |
| Dates.SerialOf2026 | routes/upload.js:49-53 | in 2026 that serial is 18 July 1905 |
| Dates.PadDigits | routes/upload.js:257 | `padStart` gives exactly w digits whose value is n |
| Sheet.PrepareOutcome | routes/upload.js:132-153 | fewer than two sheet rows is the only error ("No data found"); otherwise at most MAX_RECORDS row objects come out, each with content, and every data row within the limit that has content is one of them |
| Sheet.BuildRowKeys | routes/upload.js:144-149 | every row object has distinct keys, exactly the headers |
| Sheet.BuildRowLast | routes/upload.js:146-148 | each header holds the normalised cell of its last column |
| Sheet.NormalValues | routes/upload.js:147 | every stored value is a truthy cell or `''` |
| Sheet.DistinctHeadersContent | routes/upload.js:150-153 | with distinct headers a row is kept exactly when one of its cells is truthy |
| Sheet.DuplicateHeaderHidesCell | routes/upload.js:146-153 | a later zero cell under a repeated header hides an earlier non-zero one and the row is dropped |
| Sheet.KeepMembers | routes/upload.js:150-153 | the filter keeps exactly the rows with content |
| Normalise.SalesQuantity | routes/upload.js:262-279 | the two quantity loops compute SalesQty: the first alias column that parses, else the first positive number in `Object.keys` order |
| Normalise.AliasLoop | routes/upload.js:264-269 | the alias loop stops at the first truthy column that parses as a number |
| Normalise.FallbackLoop | routes/upload.js:272-279 | the key loop keeps the first positive number in `Object.keys` order |
| Sheet.OwnKeysPermutes | routes/upload.js:273 | `Object.keys` lists each key of the row object exactly once |
| Sheet.OwnKeysOrder | routes/upload.js:273 | `Object.keys` lists the array-index keys first, in ascending numeric order, then the other keys in insertion order |
| Sheet.NamedFirst | routes/upload.js:273 | of a named header followed by an index header, `Object.keys` lists the index header first |
| Normalise.FallbackFirst | routes/upload.js:272-279 | without an alias quantity, a positive number under the first key `Object.keys` lists is the quantity |
| Normalise.IndexHeaderFirst | routes/upload.js:272-279 | a row with `Units` 5 and a header `1` holding 3 has quantity 3: the index key is visited first |
| Normalise.SalesQtyFromColumn | routes/upload.js:262-279 | a non-zero quantity is the number some column of the row starts with |
| Normalise.SalesQtyZero | routes/upload.js:262-279 | the quantity is 0 exactly when no alias column gives a non-zero number and no column holds a positive one |
| Normalise.AliasOrder | routes/upload.js:263-269 | alias order, not column order, decides: a row with Billing 9 and Total 7 has quantity 7 |
| Normalise.ReadRow | routes/upload.js:256-279 | the opening statements of the row body compute NormaliseRow |
| Normalise.BranchDefault | routes/upload.js:258 | the branch is CHENNAI when no branch column is truthy |
| Normalise.BranchNumberThrows | routes/upload.js:258 | a truthy non-string branch cell makes `trim` throw |
| Normalise.KeysCollide | routes/upload.js:306 | different (date, branch, item) triples share a key when a name holds a dash |
| Normalise.NewRecordSeed | routes/upload.js:309-331 | a new record's billing and opening stock are `SKU Opening stock`, or the row's quantity when that is empty, zero or not a number |
| Normalise.NewRecordThrows | routes/upload.js:314-316 | seeding throws exactly when the category value used is not a string, or the star-rating or tonnage column holds a truthy non-string |
| Accumulation.AccumulateRows | routes/upload.js:242-344 | the batched loop computes Fold of the rows' views |
| Accumulation.ProcessBatch | routes/upload.js:250-344 | one slice advances the fold over that slice |
| Accumulation.ProcessRow | routes/upload.js:253-342 | the try and catch block for one row is one Apply step |
| Accumulation.ExtractSeed | routes/upload.js:307-332 | the extra columns of a new key's row are the seed record |
| Accumulation.StepCounts | routes/upload.js:297-341 | a row is rejected exactly when a `trim` throws or its branch or item is empty; otherwise it is counted valid |
| Accumulation.FoldCounts | routes/upload.js:246-247 | valid plus invalid is the number of rows |
| Accumulation.AccumulateInv | routes/upload.js:242-344 | after the loop the keys in `order` have no repeats and are exactly the keys with a record, each record is filed under the key of its own date, branch and item, both non-empty; the missing sets are duplicate-free and hold only names absent from the maps |
| Accumulation.FirstSeedMeaning | routes/upload.js:307 | FirstSeed is the first row, by index, that seeds the key |
| Accumulation.FoldHasKey | routes/upload.js:307-336 | a key has a record exactly when some row seeds it |
| Accumulation.FoldBilling | routes/upload.js:318-336 | a record comes from the first row that seeds its key, and its billing is that seed's plus every later quantity for the key |
| Accumulation.FoldRange | routes/upload.js:284-290 | the range is absent exactly when every row threw; otherwise it spans exactly the days of the rows that did not |
| Accumulation.FoldMissing | routes/upload.js:303-304 | the missing sets hold exactly the admitted names that the maps lack |
| Accumulation.AccumulateCover | routes/upload.js:258-304 | every name in the missing sets and records is upper-cased; every record's names are in the maps or the missing sets |
| Store.LoadIdsLast | routes/upload.js:238-239 | the loaded map holds a name exactly when a row has it, with the id of the last such row |
| Store.RefreshLast | routes/upload.js:369-375 | refreshing sets each wanted name to its last row's id and keeps every other entry |
| Store.BindRows | routes/upload.js:352-358 | the placeholders `($1..$w), ($(w+1)..)` over the flattened values bind back exactly the pushed rows |
| Store.InsertNewBranches | routes/upload.js:362-366 | inserting new, distinct branch names appends them all in order |
| Store.InsertNewProducts | routes/upload.js:405-409 | inserting new, distinct materials appends them all in order |
| Store.UpsertMeaning | routes/upload.js:531-551 | a successful upsert keeps one row per pair, gives every written pair the written row and keeps other pairs' rows |
| Store.UpsertRowsFails | routes/upload.js:538 | the upsert fails exactly when one statement writes a pair twice, with "cannot affect row a second time" |
| Store.LookupLast | routes/upload.js:435-440 | a key is in `existingMap` exactly when a prior row has it, with the billing of the last one |
| Resolve.BranchParams | routes/upload.js:356-359 | the forEach builds the flattened branch tuples |
| Resolve.ResolveBranches | routes/upload.js:351-378 | the branch step computes BranchStep |
| Resolve.BranchesResolved | routes/upload.js:351-378 | missing branches are appended in order with 'Unknown', 15, 70; the refreshed map gives each its new id and keeps the rest |
| Resolve.ProductParams | routes/upload.js:390-403 | the forEach builds one batch's flattened product tuples |
| Resolve.ResolveProducts | routes/upload.js:380-421 | the product batches compute ProductStep |
| Resolve.ProductsResolved | routes/upload.js:380-421 | missing products are appended in order, each built by NewProduct from the first record with the code (tonnage, star and technology where truthy, price 35000, factory stock 0); the refreshed map gives each its new id and keeps the rest |
| Resolve.BatchesAppend | routes/upload.js:384-410 | the slices of 500 together append one product per code, in order |
| Detect.DetectChanges | routes/upload.js:452-553 | the batch loop computes Detection: the tables after the per-slice upserts and the tally |
| Detect.RunBatches | routes/upload.js:452-553 | the loop over slices of 500 ends with the tables `Batches` gives for the decisions and their tally, or with the first statement's error |
| Detect.BuildBatch | routes/upload.js:460-528 | one slice's tally, tuples and 13-per-tuple parameters are those of its decisions |
| Detect.DecideCases | routes/upload.js:466-528 | a record is skipped without both ids; otherwise new without a prior row, unchanged when the prior billing equals its rounded billing, else updated with change new - old |
| Detect.DeriveBounds | routes/upload.js:470-474 | written stock values lie within their jitter of the rounded base amounts, and the opening stock is never negative |
| Detect.TallyCounts | routes/upload.js:443-528 | new + updated + skipped is the number of records, and the changes are exactly the written rows |
| Detect.AffectedMeaning | routes/upload.js:483 | `branchesAffected` holds exactly the branches of records with both ids, unchanged ones included |
| Detect.WritesSplit | routes/upload.js:452-553 | the rows written for all decisions are those of a prefix of them followed by those of the rest, so the slices together write every row, in order |
| Detect.BatchesMeaning | routes/upload.js:452-553 | for any number of slices: success exactly when no slice writes a pair twice, otherwise the "cannot affect row a second time" error; on success products and branches are unchanged, one row per pair, every pair holds the row of its last write and pairs never written keep their rows |
| Detect.FirstSlice | routes/upload.js:531-551 | one slice's statement, or none when it writes nothing, fails exactly when it writes a pair twice; otherwise it writes each row and keeps the rows of other pairs |
| Detect.StatementBinds | routes/upload.js:518-524 | a batch statement binds back its rows, so it is the row-by-row upsert |
| Detect.FirstBatchRepeats | routes/upload.js:531-551 | a first slice that writes a pair twice fails the stage with "cannot affect row a second time" |
| Detect.OneBatch | routes/upload.js:531-551 | one slice with distinct pairs succeeds, writes each row, keeps other rows and leaves products and branches alone |
| Detect.ResolvedAfterCreation | routes/upload.js:348-421 | after creation every record's product and branch have ids |
| Report.SortMeaning | routes/upload.js:564 | the sort orders by non-increasing magnitude and is a permutation |
| Report.SummaryMeaning | routes/upload.js:558 | the summary holds the first min(100, n) changes, in order |
| Report.TopMeaning | routes/upload.js:562-565 | the top changes are at most ten updates, as many as exist up to ten, sorted, drawn from the updates, none smaller than a later one |
| Report.SignificantMeaning | routes/upload.js:588 | the significant changes are exactly the updates of magnitude above 10, with their multiplicity |
| Report.FilterMembers | routes/upload.js:563 | the filter keeps exactly the elements satisfying its predicate |
| Upload.HasMorePaging | routes/upload.js:212 | on a page as `LIMIT/OFFSET` returns it, more rows remain exactly when offset + limit < total; a non-numeric offset never says more |
| Upload.OverviewPartition | routes/upload.js:619-624 | every branch is up to date, aging or in need of update, and the total counts them all |
| Upload.NoDataCountsUpToDate | routes/upload.js:621 | a branch without inventory (NULL days_old) counts as up to date |
| Upload.ProcessDailyUpdate | routes/upload.js:228-592 | the stage computes Process step by step |
| Upload.LoadedMap | routes/upload.js:233-239 | the loaded maps cover every row's name with a positive id |
| Upload.ResolutionSucceeds | routes/upload.js:232-421 | creating the missing entities never fails and appends exactly the missing rows |
| Upload.ProcessShape | routes/upload.js:423-591 | a successful stage returns what Finish builds from the accumulated rows and the tally of their decisions |
| Upload.ProcessCounts | routes/upload.js:580-586 | on success new + updated + skipped is the number of distinct keys, processed is the valid count, and the affected branches are distinct |
| Upload.FinishAgrees | routes/upload.js:556-591 | the history row records what the returned object reports; created counts, range, at most 100 and 10 summary changes; significant changes come from the tally |
| Upload.NothingUnresolved | routes/upload.js:466-469 | no record is skipped for want of an id |
| Upload.Database.constructor | routes/upload.js:101 | a fresh database holds the given tables and no history |
| Upload.Database.Upload | routes/upload.js:95-184 | no file gives 400; a refused type gives 500; otherwise a failure rolls back with 500 and success commits the stage's tables plus one history row with 200 |
| App.OriginCheckMeaning | app.js:37-91 | an origin is refused only in production, present, not `null` and matched by no entry; the refusal names the origin and becomes a 403 |
| App.HandleErrorMeaning | app.js:198-214 | 403 exactly for messages containing CORS, else 500, echoing the message |
| App.ListedMeaning | app.js:23-76 | an origin is listed exactly when, with its trailing slash removed, it equals a plain entry, starts with the localhost or loopback prefix, or matches one of the two wildcard patterns |
| App.WildcardMeaning | app.js:64-67 | `^p.*q$` matches exactly a string that fits p at the start and q at the end with no line terminator between |
| App.LocalhostPrefixAllowed | app.js:72-73 | anything starting with `http://localhost` is let through |
| App.LoopbackPrefixAllowed | app.js:72-73 | anything starting with `http://127.0.0.1` is let through |
| App.TrailingSlashAllowed | app.js:60-61 | a plain entry with a trailing slash is let through |
| App.NgrokFreeAllowed | app.js:31 | any `https://` host ending in `.ngrok-free.app`, dots as wildcards, is let through |
| App.UnescapedDots | app.js:65 | the unescaped dots also admit `-ngrok-free-app` |
| App.OtherSchemesRefused | app.js:78-90 | in production an origin not starting with `http` is refused with a 403 |
| Chatbot.FirstMatchIndex | routes/chatbot.js:176-357 | the first rule that fires decides the branch; with none firing the default is taken |
| Chatbot.DispatchMeaning | routes/chatbot.js:176-353 | a query takes rule j's branch exactly when a keyword of j occurs and no earlier rule fires |
| Chatbot.DispatchDefault | routes/chatbot.js:356 | the default reply is chosen exactly when no keyword occurs |
| Chatbot.RulesDistinct | routes/chatbot.js:176-353 | every non-default branch has exactly one rule |
| Chatbot.Shadowed | routes/chatbot.js:176-353 | an earlier firing rule shadows every later one |
| Chatbot.GreetingFirst | routes/chatbot.js:178-180 | a query containing "hello" or "hi" is a greeting |
| Chatbot.AchievementQueryGreets | routes/chatbot.js:178-285 | "plan achievement" contains "hi" and is answered with the greeting, never the achievement rate |
| Chatbot.BranchQueryGreets | routes/chatbot.js:178-227 | "which branch" contains "hi" and is answered with the greeting, never the branch list |
| Chatbot.ProductsBeforeTopSelling | routes/chatbot.js:208-303 | a query naming products or models never reaches the top-selling branch |
| Chatbot.BranchBeforeCities | routes/chatbot.js:223-285 | a query naming a branch never reaches the Chennai, Bangalore or achievement branches |
| Chatbot.CaseInsensitive | routes/chatbot.js:47 | a keyword is found in the lower-cased message exactly when it occurs with its ASCII letters in any case |
| Chatbot.AchievementMeaning | routes/chatbot.js:282 | the rate is 0 without a positive plan, else the whole number nearest 100 * billing / plan, halves up |
| Chatbot.AchievementPercent | routes/chatbot.js:282 | billing within the plan gives 0..100, and billing equal to plan gives 100 |
| Chatbot.DefaultReply | routes/chatbot.js:356 | a query without keywords gets the default reply without touching the database |
| Chatbot.Fallback | routes/chatbot.js:45-54 | the rule-based reply when `processQuery` resolves on the lower-cased message, else the canned reply |
| Chatbot.AddExtras | routes/chatbot.js:64-75 | processing time, query type and notification are copied only when the answer holds them truthy |
| Chatbot.HandleQuery | routes/chatbot.js:13-173 | no body gives 500; a falsy message gives 400; otherwise 200 with the session, the assistant's reply when it answered, else the fallback, the label of the source used, and a log entry only on the authenticated route |

## Left out

- Floating point: the numbers `parseFloat` reads and the arithmetic on them
  are exact rationals, so `Math.round` and `parseFloat` are exact. Binary rounding and `toLocaleString` digit grouping are not
  modelled; a plain decimal rendering is used instead.
- Dates: time of day and time zones are not modelled. A `Date` is a day
  number, and a timestamp is a day and a second. `new Date(text)` for text
  that is neither a serial nor day-month-year is a parameter.
- The regular expressions of the CORS wildcard entries treat every character
  but `.` and `*` literally. That covers the two entries of the list.
- Report.SortByMagnitude: the comparator sort is modelled as a stable
  insertion sort. Its order among changes of equal magnitude is that model's,
  and only sortedness and permutation are proved.
- The jitter of the stock figures (`Math.random()`), the clock, the fresh
  session id and the time taken are parameters.
- SQL is modelled only as far as `processOptimizedDailyUpdate` uses it: the three write
  statements, the two id lookups and the change-detection join. Row ids are
  positions plus one.
- The creation of `upload_history` (`ensureUploadHistoryTable`) is not
  modelled. It is DDL with no effect on the outcome.
- Upload.Database: the upload handler's authentication and role checks, and
  multer's size and file-count limits, are not modelled.
- xlsx decoding is not modelled. The model starts from the header-and-rows
  array it returns. `toLocaleString` is not modelled in the chatbot replies.
- The chatbot's data-backed reply texts (sales, stock, products, branches,
  the cities, alerts, top sellers, technology, low stock) are the `Db.answer`
  parameter. Only the dispatch to them and the achievement arithmetic are
  modelled.
- The external assistant's HTTP call and the `ChatLog` save are parameters or
  outputs. A failed log save does not change the reply, and the model does
  not model a save failure.
- The chatbot's history and analytics routes, the other application routes
  and server start-up are not part of this model.
- `console.log` output and concurrency are not modelled.
- The text of the day-month-year fallback follows the code rather than the
  intended reading: `parseFloat` reads the leading day of `DD-MM-YYYY` first,
  so the serial branch is taken for days 02 to 99 (Dates.DdMmYyyyText), and
  a row without a date is dated by its year number read as a serial
  (Dates.DefaultDateIsSerialYear).
- Js.Upper, Js.Lower: only the ASCII letters change case. JavaScript's full
  Unicode mapping is not modelled ("ß" upper-cases to "SS", the Kelvin sign
  lower-cases to "k", "İ" lower-cases to two characters). This affects the
  product and branch map keys (routes/upload.js:238-239, 258-259) and the
  chatbot's lower-casing (routes/chatbot.js:47, 122), whose keyword match is
  case-insensitive for ASCII letters only.
- Js.ParseFloatText: an exponent (`"1e3"` reads as 1, not 1000) and
  `Infinity` are not read. Such text counts as the digits before the `e`, or
  as no number.
- Js.ParseIntText: base ten only. A `"0x"` prefix, which `parseInt` reads as
  hexadecimal, is read as 0. This matters for the history paging numbers
  (routes/upload.js:205-212), the star rating of a created product and the
  chatbot's count figures. The date groups parsed at routes/upload.js:59 are
  decimal digits, so there it is exact.
- Js.Cell: a numeric cell holds an integer. A fractional numeric cell coming
  from the spreadsheet decoder is not modelled. Text such as `"2.5"` is read
  with its fraction.
- Store.LoadIdsLast, Store.LookupLast: "the last row wins" is stated for the
  rows in table order. The SELECTs at routes/upload.js:234-235 and 424-432
  have no `ORDER BY`, so a database may return them in another order. With a
  repeated name or key, the id or billing kept is then that of a row the
  model does not pin down.
