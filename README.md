# sklad — warehouse revision reconciliation, modelled in Dafny

sklad is a Django application for stock-taking ("revisions") in pharmacy
warehouses. An administrator uploads the expected stock of a warehouse from
the 1C accounting system (the ledger: product, series, expiry date,
quantity), creates a revision and assigns auditors ("revizors") to it. The
auditors count what is physically on the shelves, the revision is completed,
and the system reconciles the counts against the ledger. The result is one
result row per ledger line (expected, actual, difference, status) and one
"unaccounted" row for stock that the ledger does not know about.

This project models that core as values and state:

- `models.dfy` (module `Models`): the records, the status rule of
  `RevisionResult.calculate`, revision numbering from `Revision.save`, the
  validators on a count's expiry date, the roles, and the `unique_together`
  constraints as predicates. Decimal(12, 2) quantities are integer cents.
- `product_engine.dfy` (module `ProductEngine`): `calculate_revision_results`
  of `views.py`, the product-level engine. Its four loops are methods proved
  against specification functions. The lemmas say what the engine writes:
  - one result row per ledger line;
  - the whole product difference goes on the first line of the product;
  - counts of products without ledger lines become unaccounted rows;
  - every count feeds exactly one side;
  - the written differences and unaccounted quantities balance to counted
    minus expected.
- `batch_engine.dfy` (module `BatchEngine`):
  `RevisionAdmin.calculate_revision_results` of `admin.py`, the batch-level
  engine. It matches on the exact (product, series, expiry) key and writes
  through `get_or_create`.
- `store.dfy` (module `Store`): the tables as a `Database` class whose
  methods are the operations that change them:
  - creating a revision;
  - starting and completing it, from the admin pages, from the admin list
    actions, or from the last auditor finishing;
  - adding, updating and deleting counts;
  - recomputing results with either engine.

  Each method is stated against functions on the old tables. Lemmas beside
  them show the invariants the schema demands and how each operation moves
  the totals the engines compare.
- `transliteration.dfy` (module `Transliteration`): the product search
  helpers `transliterate_to_cyrillic` and `is_latin`.
- `line_splitter.dfy` (module `LineSplitter`): the quote-aware field splitter
  of the ledger import, with round-trip lemmas.
- `difference_display.dfy` (module `DifferenceDisplay`): the difference
  column of the admin result list, with a round-trip lemma.
- `seqs.dfy` (module `Seqs`): generic sequence helpers: grouping by a key,
  summing, the order of first occurrence, and deletion by key.

Quantities in requests are parsed outside the model. A request's quantity
arrives as `Option<Cents>`, where `None` means it did not parse. An expiry
date arrives as `Blank`, `Unparseable` or `Parsed(date)`. The acting user
is a parameter.

Where the code behaves differently from what its comments and messages
suggest, the model follows the code:
- `revizor_complete` completes the revision whatever its status once the
  last assignment is finished, so a pending revision can be completed
  without ever being started (`Store.Database.RevizorComplete`).
- The admin list actions `start_revision` and `complete_revision` only
  change the status. They neither set the assignments to working nor compute
  results (`Store.Database.StartRevisionsAction`,
  `Store.Database.CompleteRevisionsAction`).
- `admin_revision_start` sets every assignment of the revision to working,
  even one already finished (`Store.SetWorking`).
- A count added with a blank expiry date passes every check of
  `revizor_add_item`. It then fails at the database, because a count's
  expiry is NOT NULL (`Store.Database.AddItem`).
- The two engines disagree on unaccounted stock
  (`BatchEngine.EnginesDifferOnUnaccounted`):
  - the product-level engine copies every count of an unledgered product;
  - the batch-level engine keeps only the first count of each unledgered
    batch.
- Ledger lines without an expiry date can repeat under the ledger's
  uniqueness constraint, because NULLs compare distinct (`Models.Clash`).
  The batch-level engine then gives two such lines of the same product and
  series a single result row (`BatchEngine.NoExpiryLinesShareARow`). The
  product-level engine gives them a row each, which the result rows'
  constraint, also over a nullable expiry date, allows.
- `Transliteration.LongestKeyWins`, `BatchEngine.NoExpiryLinesShareARow` and
  `BatchEngine.EnginesDifferOnUnaccounted` are single worked examples that
  show a behaviour; they are not general properties.
- The splitter treats every double quote as a toggle and drops it. A doubled
  quote inside a quoted field is therefore not an escaped quote, as section 2
  of RFC 4180 would have it; the model keeps this behaviour
  (`LineSplitter.SplitLine`).

## Model

| member | source | states |
|---|---|---|
| Models.RolesExclusive | sklad/models.py:35-41 | no user is both admin and revizor; with a declared role a user is exactly one of them |
| Models.StatusOf | sklad/models.py:318-323 | the status is correct, shortage or excess exactly when the difference is zero, negative or positive |
| Models.Calculate | sklad/models.py:315-324 | the difference becomes actual minus expected; the status is correct/shortage/excess iff actual equals/is below/exceeds expected; no other field changes |
| Models.CalculateConsistent | sklad/models.py:315-324 | a calculated row is consistent, and calculating a consistent row changes nothing (calculate is idempotent) |
| Models.YearCheckMatchesValidators | sklad/models.py:227-231 | for a parsed date, the 2025..2050 year check of the add view holds iff the date lies within the 2025-01-01..2050-12-31 validators |
| Models.NextRevisionNumber | sklad/models.py:158-162 | the new number is at least 1, above every number of the warehouse, and is 1 or one more than an existing number of the warehouse |
| Models.NextNumberKeepsUnique | sklad/models.py:153 | appending a revision numbered by save keeps revision numbers unique per warehouse |
| ProductEngine.ProductRows | sklad/views.py:1223-1244 | one row per ledger line of the product, all of that product |
| ProductEngine.UnaccountedRows | sklad/views.py:1262-1270 | one unaccounted row per count record |
| ProductEngine.ComputeProductResults | sklad/views.py:1155-1270 | the run writes exactly the specified result rows and unaccounted rows |
| ProductEngine.GroupLedgerByProduct | sklad/views.py:1173-1189 | pass 1 lists products in ledger order and holds each product's expected total and its lines in ledger order |
| ProductEngine.TotalCountsByProduct | sklad/views.py:1192-1203 | pass 2 lists counted products in count order and holds each product's counted total and set of auditors |
| ProductEngine.EmitResultRows | sklad/views.py:1205-1248 | pass 3 emits the rows of every ledger product in first-appearance order |
| ProductEngine.EmitProduct | sklad/views.py:1206-1219 | the difference is counted total minus expected total (0 counted for an uncounted product), the status follows its sign |
| ProductEngine.EmitProductRows | sklad/views.py:1223-1248 | the inner loop emits the product's rows, the first taking the whole difference |
| ProductEngine.EmitUnaccountedRows | sklad/views.py:1250-1270 | pass 4 emits copies of the counts of every counted product without ledger lines, in count order |
| ProductEngine.CopyCounts | sklad/views.py:1257-1270 | the innermost loop copies each count record in order |
| ProductEngine.GroupMapGroups | sklad/views.py:1173-1189 | the dict pass 1 builds maps each product to its ledger total and lines |
| ProductEngine.CountMapsTotal | sklad/views.py:1192-1203 | the dicts pass 2 builds map each product to its counted total and its auditors |
| ProductEngine.ResultsOfProduct | sklad/views.py:1205-1248 | the result rows of a product are exactly its own rows; a product has result rows iff it has ledger lines |
| ProductEngine.ProductRowsShape | sklad/views.py:1206-1248 | each row keeps its line's series, expiry and expected quantity and names all auditors of the product; row 0 carries the whole difference and its status, the others are correct; the rows' differences, expected and actual quantities sum to the product difference, ledger total and counted total |
| ProductEngine.ResultsConsistent | sklad/views.py:1211-1244 | every result row belongs to the revision and is consistent, so calculate would leave it unchanged |
| ProductEngine.OneRowPerLine | sklad/views.py:1205-1248 | exactly one result row per ledger line, and every ledger line has a row with its key and expected quantity |
| ProductEngine.ProductResultKeysUnique | sklad/models.py:310 | over the ledger lines of one warehouse that meet the ledger's unique constraint, the rows the product engine writes meet the result rows' unique constraint (NULL expiry dates never clash) |
| Store.RecomputedKeysUnique | sklad/views.py:1170-1248 | a product-level recomputation over a warehouse's lines writes rows that meet the result rows' unique constraint whenever the ledger meets its own |
| ProductEngine.CountFeedsOneSide | sklad/views.py:1205-1270 | a count of a ledgered product appears in its product's result rows (which name its auditor) and in no unaccounted row; a count of an unledgered product is copied to an unaccounted row and its product has no result rows |
| ProductEngine.UnaccountedOfProduct | sklad/views.py:1250-1270 | the unaccounted rows of a product are none when it has ledger lines, else a copy of each of its counts in order |
| ProductEngine.UnaccountedOnlyUnledgered | sklad/views.py:1250-1270 | every unaccounted row belongs to the revision, copies a count record and names a product without ledger lines |
| ProductEngine.ReconciliationGap | sklad/views.py:1155-1270 | the written differences plus the unaccounted quantities equal everything counted minus everything expected |
| BatchEngine.FindResult | sklad/admin.py:184-193 | get_or_create's lookup finds the first row with the key, or reports that none has it |
| BatchEngine.ComputeBatchResults | sklad/admin.py:161-226 | the run writes exactly the specified result and unaccounted rows |
| BatchEngine.ResultPass | sklad/admin.py:176-205 | the loop over ledger lines upserts, calculates and sets the auditors of each line's row |
| BatchEngine.UnaccountedPass | sklad/admin.py:207-226 | the loop over counts writes a copy of an unledgered count unless its key is already written |
| BatchEngine.UpsertResultProps | sklad/admin.py:184-198 | get_or_create keeps keys distinct, writes the new row and keeps every row with another key |
| BatchEngine.BatchResultsProps | sklad/admin.py:176-205 | result keys are distinct, each row is the row of some ledger line, and every ledger line's key has a row |
| BatchEngine.BatchRowsExact | sklad/admin.py:176-205 | result keys are unique; every row belongs to the revision, has a ledger key, an actual quantity equal to the total of the counts with exactly its key, exactly their auditors, and is consistent |
| BatchEngine.DistinctLinesOneRowEach | sklad/admin.py:176-205 | with distinct ledger keys the run writes one row per ledger line, in ledger order |
| BatchEngine.NoExpiryMatchesNothing | sklad/admin.py:177-182 | a ledger line without expiry matches no count: actual 0 and no auditors |
| BatchEngine.BatchUnaccountedProps | sklad/admin.py:207-226 | unaccounted keys are distinct, each row is absent from the ledger and copies the first count with its key, and every unledgered counted key has a row |
| BatchEngine.NoExpiryLinesShareARow | sklad/admin.py:184-198 | two ledger lines of one product and series with no expiry give one result row, carrying the second line's expected quantity |
| BatchEngine.EnginesDifferOnUnaccounted | sklad/admin.py:207-226 | for two counts of one unledgered batch, the batch engine keeps only the first copy while the product engine copies both |
| Store.FindCount | sklad/views.py:964-971 | the lookup of an existing count finds the first record with the full key, or reports that none has it |
| Store.MergeKeepsKeysUnique | sklad/models.py:246 | an add keeps one record per (revision, revizor, product, series, expiry) and grows the table only for a new key |
| Store.MergeRaisesTotals | sklad/views.py:964-986 | an add of q raises the key total, the product total and the batch total of its own keys by q and no other |
| Store.RerunShape | sklad/views.py:1166-1168 | deleting a revision's rows and appending a run's rows keeps every other revision's rows, makes the run's rows the revision's rows, and is idempotent |
| Store.ProductRunIdempotent | sklad/views.py:1166-1168 | recomputing twice with the product engine over the same tables leaves what one recomputation left |
| Store.BatchRunEffect | sklad/admin.py:164-166 | a batch run makes the revision's rows the engine's rows and keeps every other revision's rows |
| Store.BulkStatus | sklad/admin.py:141-144 | the bulk update changes exactly the selected revisions in the source status, to the target status |
| Store.BulkStatusFacts | sklad/admin.py:139-153 | the list actions only move statuses forward, keep numbers unique, change exactly the reported revisions, and a second application changes nothing |
| Store.SetWorking | sklad/views.py:695-696 | every assignment of the revision, and no other, becomes working |
| Store.SetWorkingKeepsKeys | sklad/models.py:198 | setting assignments to working keeps one assignment per revision and auditor |
| Store.AssignAll | sklad/views.py:647-652 | one assigned assignment of the new revision per selected auditor, in order |
| Store.AppendAssignments | sklad/models.py:198 | writing the assignments of distinct auditors for a new revision keeps one assignment per revision and auditor |
| Store.StatusChange | sklad/models.py:153 | moving one revision forward keeps its warehouse and number |
| Store.FindRecord | sklad/views.py:1046 | the lookup of a count by primary key and auditor finds it, or reports that none matches |
| Store.WriteAssignments | sklad/views.py:647-652 | the loop writes an assigned row per auditor until one repeats; it stops early exactly at a repeat |
| Store.UniqueKeyTotal | sklad/models.py:246 | under unique keys a record is the only one with its key, and the key total is its quantity |
| Store.UpdateSetsTotals | sklad/views.py:1039-1064 | an update keeps keys unique, sets the record's key total to the new quantity and moves the product and batch totals by the change |
| Store.RemoveAt | sklad/views.py:1079 | the table without the record, all others kept in order |
| Store.DeleteDropsTotals | sklad/views.py:1067-1080 | a delete keeps keys unique, removes the key altogether and lowers the product and batch totals by the record's quantity |
| Store.MergeKeepsValid | sklad/models.py:229-246 | an accepted add keeps every count valid (unique key, positive quantity, expiry in range, known revision, fresh id) |
| Store.UpdateKeepsValid | sklad/models.py:229-246 | an update to a positive quantity keeps the count table valid |
| Store.DeleteKeepsValid | sklad/models.py:229-246 | a delete keeps the count table valid |
| Store.FinishKeepsKeys | sklad/models.py:198 | finishing an assignment keeps one assignment per revision and auditor |
| Store.FinishOne | sklad/views.py:1100-1108 | after one assignment finishes, all of the revision's are finished iff every other one already was |
| Store.Database.constructor | sklad/models.py:83-111 | an empty store over a product catalogue and a ledger satisfies the constraints |
| Store.Database.CreateRevision | sklad/views.py:621-660 | only an admin with at least one auditor selected creates a revision; an admin with none selected gets no-auditors; it is pending and numbered by save; it succeeds iff the auditors are distinct, and an auditor selected twice ends in an integrity error, with the revision and the assignments before the repeat left written |
| Store.Database.AdminStart | sklad/views.py:682-700 | the call succeeds iff an admin names an existing revision they created; then a pending revision is started and its assignments set to working, and any other status is left; others get forbidden or not found and nothing changes |
| Store.Database.RecalculateProduct | sklad/views.py:1155-1270 | the revision's rows are replaced by the product engine's rows for its warehouse's ledger and its counts; nothing else changes |
| Store.Database.RecalculateBatch | sklad/admin.py:161-226 | the revision's rows are replaced by the batch engine's rows; nothing else changes |
| Store.Database.CalculateResultsAction | sklad/admin.py:155-159 | each selected revision ends with exactly the batch engine's rows, every other revision keeps its rows, and the count of revisions is reported |
| Store.Database.CompleteAndRecompute | sklad/views.py:711-717 | the revision becomes completed and its rows are recomputed with the product engine |
| Store.Database.AdminComplete | sklad/views.py:703-721 | the creator completes a revision in progress and its results are recomputed; any other status is left; others get forbidden or not found |
| Store.Database.RevizorComplete | sklad/views.py:1083-1115 | an auditor finishes their own unfinished assignment; when none of the revision's is left unfinished the revision is completed and recomputed, whatever its status; an admin gets forbidden, another's or a missing assignment not found, a finished one already-finished |
| Store.Database.StartRevisionsAction | sklad/admin.py:139-145 | selected pending revisions go in progress, the number changed is reported, nothing else changes |
| Store.Database.CompleteRevisionsAction | sklad/admin.py:147-153 | selected revisions in progress are completed, the number changed is reported, nothing else changes |
| Store.Database.AddItem | sklad/views.py:917-1003 | an add succeeds iff a non-admin assigned to a revision in progress adds a known product with an in-range date and a positive quantity; then the count with the same key grows, or a new one is stored with the series stripped; each failing check, in the source's order, gives its own outcome (forbidden, not found, not assigned, bad date, year out of range, bad quantity, non-positive), and a blank date that passes them all ends in an integrity error |
| Store.Database.WriteCount | sklad/views.py:964-986 | the record with the same key grows by the quantity, or the new record is stored under the next id |
| Store.Database.UpdateItem | sklad/views.py:1039-1064 | the auditor's own record in a revision in progress gets the new positive quantity; otherwise nothing changes, with forbidden, not found, not in progress, bad quantity or non-positive, in that order of the checks |
| Store.Database.DeleteItem | sklad/views.py:1067-1080 | the auditor's own record in a revision in progress is removed; otherwise nothing changes, with forbidden, not found or not in progress |
| Transliteration.LowerChar | sklad/views.py:34 | Latin and basic Cyrillic capitals are lowered, every other character is kept |
| Transliteration.Lower | sklad/views.py:34 | lower-cases every character and keeps the length |
| Transliteration.LowerIdempotent | sklad/views.py:34 | lower-casing twice is lower-casing once |
| Transliteration.Cyrillic | sklad/views.py:23-31 | the keys are every Latin letter and the listed 2-, 3- and 4-letter combinations; no spelling holds a Latin letter or a capital |
| Transliteration.MatchAt | sklad/views.py:37-51 | the longest key at the position is taken: no longer key starts there |
| Transliteration.TransliterateToCyrillic | sklad/views.py:33-53 | the while loop computes the greedy longest-match rewrite of the lower-cased text |
| Transliteration.RewriteLowered | sklad/views.py:35-53 | the loop over the lower-cased text computes the greedy rewrite |
| Transliteration.TranslitNoLatin | sklad/views.py:37-53 | the rewrite leaves no Latin letter, and no capital when the text had none |
| Transliteration.OutputNotLatin | sklad/views.py:55-56 | is_latin is false on every output of transliterate_to_cyrillic |
| Transliteration.NonLatinTextIsLowered | sklad/views.py:33-56 | a text is_latin rejects is only lower-cased |
| Transliteration.LongestKeyWins | sklad/views.py:37-40 | "Shch" becomes one letter, not sh followed by ch |
| LineSplitter.StripShape | sklad/views.py:451 | strip leaves nothing to strip at either end, adds no quote, and leaves a stripped text unchanged |
| LineSplitter.CleanNoQuote | sklad/views.py:451 | a field without quotes is only stripped of whitespace |
| LineSplitter.SplitFields | sklad/views.py:443-455 | the loop computes the specified fields |
| LineSplitter.SplitLineFacts | sklad/views.py:443-455 | a line gives one field more than it has delimiters outside quotes; no field holds a quote or outer whitespace |
| LineSplitter.SplitJoin | sklad/views.py:443-455 | splitting fields joined by the delimiter gives them back when no field holds the delimiter, a quote or outer whitespace |
| LineSplitter.SplitJoinQuoted | sklad/views.py:443-455 | quoted fields may hold the delimiter: joined quoted fields split back into the fields |
| DifferenceDisplay.DigitsRoundTrip | sklad/admin.py:270-275 | the decimal digits of a number read back as that number |
| DifferenceDisplay.DisplaySign | sklad/admin.py:270-275 | the cell starts with '+' iff the difference is positive, '-' iff negative, is "0" iff zero; green iff positive, red iff negative |
| DifferenceDisplay.DisplayRoundTrip | sklad/admin.py:270-275 | the difference can be read back from the cell |

## Left out

- Storage and web: HTTP, templates, redirects, flash messages and JSON
  bodies are left out. Timestamps (`started_at`, `completed_at`,
  `created_at`) are left out. So are transactions and concurrent requests:
  each operation is atomic in the model.
- Parsing of request values: `Decimal(str(quantity))` and
  `strptime('%Y-%m-%d')` are not modelled. A quantity arrives already parsed
  into cents or as `None`, and a date as `Blank`, `Unparseable` or a parsed
  date. Rounding of quantities with more than two decimal places is not
  modelled.
- Store.Database.AddItem: the lookups of the revision and product sit
  inside the view's `try`. The 404 they raise is therefore reported as a
  500 error; the model reports `NotFound`. A `null` series in the JSON body,
  which would fail on `strip`, is not modelled.
- Store.Database.CreateRevision: the check that the warehouse belongs to
  the administrator is not modelled, because warehouses and their owners
  are not part of the model. Nor is the check that the selected auditor ids
  exist: foreign keys to users are not checked.
- Transliteration.LowerChar: the model's lower-casing covers only ASCII
  and the basic Cyrillic capitals (U+0400..U+042F); every other character
  is kept. Python's `str.lower` is the full Unicode mapping, and two of its
  cases change what `is_latin` answers: U+212A KELVIN SIGN lowers to the
  Latin 'k', so Python counts it as Latin and the model does not, and U+0130
  lowers to two characters ('i' and a combining dot), which the model does
  not produce.
- Store.Database.AddItem: quantities are unbounded integers of cents. The
  Decimal(12, 2) columns of sklad/models.py (lines 100, 233, 271, 279, 287
  and 344) refuse an absolute value of 10^10 or more (10^12 cents), so a merge that grows a count past
  that bound fails at `existing.save()` in the source; the model stores the
  sum.
- Store.Database.RecalculateProduct: the expected, actual and difference
  sums are unbounded here. In the source a value past that bound fails on
  `RevisionResult.objects.create`, after the revision's old rows were
  already deleted and with no transaction around the run, which leaves the
  revision with part of its rows; the model writes every row. The same holds
  for Store.Database.RecalculateBatch, Store.Database.CompleteAndRecompute
  and Store.Database.CalculateResultsAction.
- The rest of the inventory import is not part of this model: file
  decoding, header detection, column mapping and product matching. The
  product upload and its fuzzy matching, the product search view, and the
  CSV exports are not part of this model either. So are `forms.py` and
  `urls.py`.
- The users, warehouses and products tables are parameters. Only a
  product's existence is checked: the catalogue is a set of ids.
- Django admin permissions and the list pages' HTML (`role_badge`,
  `status_badge`) are left out. Of the admin display methods only
  `difference_display` is modelled.
