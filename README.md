# Brand-description batch pipeline, in Dafny

A verified model of `scripts/generate-descriptions.py`. The script fills in
missing brand descriptions across the per-market `brands-*.json` files by
sending prompts to a message-batch service. It runs as four commands that
share one state document, `.desc-batch-state.json`:

- `prepare` scans the brand files for unique slugs that have no description
  anywhere. It splits them into batches of at most 10,000 requests and
  records every batch as `pending`.
- `submit` sends each pending batch and records the id the service returns.
- `status` refreshes submitted and in-progress batches from the service. It
  reports whether every submitted batch has ended.
- `merge` downloads the results of ended batches into a slug → description
  cache, sanitising each text. It then fills every blank description in the
  brand files from that cache.

Modules, one per file:

- `Wrappers` (`wrappers.dfy`): `Option` and `Result`.
- `Text` (`text.dfy`): Python's whitespace set, `str.split()` as `Words`,
  `" ".join` as `Join`, and `_sanitize` as `Sanitize`.
- `Brands` (`brands.dfy`): brand records, the two-pass scanner `ScanBrands`
  and the prompt `BuildPrompt`.
- `Batches` (`batches.dfy`): batch records, their statuses and the state
  document.
- `Prepare` (`prepare.dfy`): chunking, request construction and batch
  metadata, in `Prepare`.
- `Lifecycle` (`lifecycle.dfy`): specification functions for the submit loop
  (`SubmitAll`) and the status refresh (`Refresh`, `RefreshAll`, `AllDone`).
- `Merge` (`merge.dfy`): specification functions for the download loop
  (`Absorb`, `MergedBatch`, `MergedCache`) and the brand-file update loop
  (`Filled`, `FillFile`, `ApplyResults`).
- `Pipeline` (`pipeline.dfy`): the class `PipelineState`. It holds the loaded
  state document. Its methods `Submit`, `CheckStatus`, `DownloadResults` and
  `Merge` update the batch list in place. Each is proved equal to the
  specification function of its loop, and each preserves well-formedness:
  indices 0, 1, 2, … and `total_brands` equal to the sum of the counts.

The calls into the batch service become function parameters:

- `created(k)` is the id that the k-th `create` call returns.
- `live(id)` is what `retrieve` reports for a batch.
- `fetch(id)` is the result list of `results`.

Brand files arrive as a sequence of record lists, in sorted path order.

## Model

| member | source | states |
|---|---|---|
| Text.IsSpace | scripts/generate-descriptions.py:369 | Python's `str.isspace` set of whitespace characters, which `split()` here and `strip()` at :110, :403 and :435 remove |
| Text.IsBlank | scripts/generate-descriptions.py:110 | `not s.strip()`: every character is whitespace (also the tests at :403 and :435) |
| Text.Words | scripts/generate-descriptions.py:369 | `text.split()`: the maximal runs of non-whitespace characters, in order (properties in `WordsAreWords`, `WordsEmpty`, `WordsOfJoin`) |
| Text.Join | scripts/generate-descriptions.py:369 | `" ".join(...)`: the words separated by single spaces (properties in `JoinCollapsed`, `JoinEnds`, `WordsOfJoin`) |
| Text.Punctuated | scripts/generate-descriptions.py:370-371 | the words with `.` appended to the last one unless it ends in `.`, `!` or `?` |
| Brands.HasDescription | scripts/generate-descriptions.py:110 | a record's description is present and not blank after `strip()` |
| Brands.DescribedSlugs | scripts/generate-descriptions.py:105-111 | the first pass: the slugs of the records that have a description |
| Brands.Needed | scripts/generate-descriptions.py:113-128 | the second pass over a record list: a record yields its entry when its slug is neither seen nor described (properties in `NeededFresh`, `NeededCovers`, `NeededFirstOccurrence`) |
| Brands.ScanSpec | scripts/generate-descriptions.py:105-128 | both passes together: the needed entries of all records against the slugs described anywhere (property in `ScanSuppression`) |
| Prepare.Chunks | scripts/generate-descriptions.py:190 | `[brands[i:i+BATCH_SIZE] for i in range(0, n, BATCH_SIZE)]` (properties in `ChunksShape`, `ChunkAt`) |
| Prepare.Decimal | scripts/generate-descriptions.py:195 | `str(i)`: the decimal digits of the batch index, most significant first |
| Prepare.BatchFile | scripts/generate-descriptions.py:195 | the request file of batch i, `data/.desc-batch-<i>.jsonl` |
| Batches.HasId | scripts/generate-descriptions.py:308 | a batch id is present and non-empty, the truth test `b["batch_id"]` of :308, :339 and :393 |
| Lifecycle.CountPending | scripts/generate-descriptions.py:238 | the number of pending batches, the length of `pending` |
| Lifecycle.SubmitAll | scripts/generate-descriptions.py:274-285 | the submit loop on the batch list: each pending batch takes the id of the next `create` call (properties in `SubmitAllAt`, `SubmitProgress`, `SubmitIdempotent`) |
| Lifecycle.Refreshable | scripts/generate-descriptions.py:308 | the batch has an id and is submitted or in progress |
| Lifecycle.MissingCounts | scripts/generate-descriptions.py:316-318 | the batch has an id, is ended and has no `ok` count |
| Lifecycle.RefreshChanged | scripts/generate-descriptions.py:307-322 | an iteration of the status loop sets `changed`: a refreshed status differs, or missing counts of an ended batch are fetched |
| Lifecycle.RefreshAll | scripts/generate-descriptions.py:307-322 | the status loop on the batch list: `Refresh` applied to each batch (properties in `RefreshMonotone`, `RefreshCompletes`, `RefreshKeepsDone`) |
| Lifecycle.AllDone | scripts/generate-descriptions.py:339-340 | some batch has an id, and every batch with an id is ended or merged |
| Merge.RawText | scripts/generate-descriptions.py:402 | `content[0].text if content else ""` of a succeeded result |
| Merge.Usable | scripts/generate-descriptions.py:400-403 | the result succeeded and its raw text is not blank |
| Merge.CachedText | scripts/generate-descriptions.py:404 | the sanitised raw text, which is what the cache stores |
| Merge.Downloadable | scripts/generate-descriptions.py:387-395 | not skipped by the download loop: ended and with an id (a merged batch is not ended) |
| Merge.Absorb | scripts/generate-descriptions.py:398-407 | the inner result loop on the cache: each usable result stores its sanitised text under its custom id (properties in `AbsorbKeys`, `AbsorbValues`, `AbsorbNonBlank`) |
| Merge.OkCount | scripts/generate-descriptions.py:403-405 | the number of succeeded results with non-blank text |
| Merge.ErrorCount | scripts/generate-descriptions.py:406-407 | the number of results that did not succeed |
| Merge.MergedBatches | scripts/generate-descriptions.py:386-411 | the download loop on the batch list: `MergedBatch` applied to each batch (property in `MergeMonotone`) |
| Merge.MergedCache | scripts/generate-descriptions.py:386-412 | the download loop on the cache: the results of each downloadable batch absorbed in batch order (properties in `MergeKeepsKeys`, `MergeIdempotent`) |
| Merge.Downloaded | scripts/generate-descriptions.py:412 | `newly_downloaded`: the ok counts of the downloadable batches, summed |
| Merge.FilledFile | scripts/generate-descriptions.py:434-437 | the update loop on one file: `Filled` applied to each record (properties in `FillIdempotent`, `FillCountIsChanges`) |
| Merge.NeedsFill | scripts/generate-descriptions.py:435 | the record's description is blank and its slug is cached |
| Merge.FillCount | scripts/generate-descriptions.py:433-437 | `updated`: the number of records with a blank description whose slug is cached |
| Text.Sanitize | scripts/generate-descriptions.py:367-372 | the result has single spaces only between non-space characters, with no leading or trailing whitespace; when non-empty it ends in `.`, `!` or `?`; it is empty exactly when the input is blank |
| Text.SanitizeJoinsWords | scripts/generate-descriptions.py:369-371 | the sanitised text is the input's words joined by single spaces, with a full stop added to the last word unless it already ends in `.`, `!` or `?` |
| Text.SanitizeWords | scripts/generate-descriptions.py:369-371 | splitting the sanitised text gives back the input's words, in order, with only that full stop added to the last one |
| Text.SanitizeIdempotent | scripts/generate-descriptions.py:367-372 | sanitising an already sanitised text changes nothing |
| Text.SanitizeTwoWords | scripts/generate-descriptions.py:367-372 | two words between blanks sanitise to the two words with one space between them and a full stop, when the last word does not already end in punctuation |
| Text.SanitizeExample | scripts/generate-descriptions.py:367-372 | `"  Sells shoes  "` becomes `"Sells shoes."` |
| Text.WordsOfJoin | scripts/generate-descriptions.py:368 | splitting a space-joined list of words gives the words back |
| Text.JoinCollapsed | scripts/generate-descriptions.py:368 | joining words gives a whitespace-collapsed text with no trailing space, empty exactly when there are no words |
| Text.WordsEmpty | scripts/generate-descriptions.py:368-369 | `split()` returns no words exactly when the text is blank |
| Text.WordsAreWords | scripts/generate-descriptions.py:368 | every piece `split()` returns is non-empty and free of whitespace |
| Text.WordLen | scripts/generate-descriptions.py:368 | the first word runs up to the first whitespace character |
| Text.JoinEnds | scripts/generate-descriptions.py:368-370 | a joined text starts with the first word's first character and ends with the last word's last character |
| Text.AppendTerminalCollapsed | scripts/generate-descriptions.py:369-370 | appending `.` to a collapsed text keeps it collapsed |
| Text.JoinExtendLast | scripts/generate-descriptions.py:368-370 | appending to the joined text is the same as appending to its last word |
| Text.WordsSkipBlank | scripts/generate-descriptions.py:368 | leading whitespace does not change the words |
| Text.WordsOfWordThen | scripts/generate-descriptions.py:368 | a word followed by whitespace or nothing is split off as the first word |
| Text.WordLenOfWord | scripts/generate-descriptions.py:368 | a word followed by whitespace or nothing has its whole length as the first word's length |
| Text.ExtendLastWord | scripts/generate-descriptions.py:369-370 | appending non-space characters to the last word keeps a list of words |
| Text.PrependWordCollapsed | scripts/generate-descriptions.py:368 | a word, one space and a collapsed text that starts and ends with non-space characters give a collapsed text that ends with a non-space character |
| Text.WordsOfTwo | scripts/generate-descriptions.py:368 | two words padded by whitespace split into exactly those two words |
| Brands.Entry | scripts/generate-descriptions.py:123-128 | the needs entry copies the slug; name defaults to the slug, domain to `""` and categories to `[]` |
| Brands.ScanBrands | scripts/generate-descriptions.py:95-130 | fails exactly when there are no brand files; otherwise reports the file count and the needed brands, which are exactly the first occurrences of slugs described nowhere, distinct and in first-occurrence order |
| Brands.CollectDescribed | scripts/generate-descriptions.py:105-111 | the first pass collects exactly the slugs with a non-blank description in any file |
| Brands.CollectNeeded | scripts/generate-descriptions.py:113-128 | the second pass over all files yields the needed-brand list of the concatenated records |
| Brands.CollectNeededInFile | scripts/generate-descriptions.py:116-128 | one file of the second pass extends the needed list and the seen set as if its records were appended |
| Brands.NeededFresh | scripts/generate-descriptions.py:119-122 | no needed brand has a described slug, and no slug appears twice |
| Brands.NeededCovers | scripts/generate-descriptions.py:118-128 | every record whose slug is not described has its slug among the needed brands |
| Brands.NeededFirstOccurrence | scripts/generate-descriptions.py:116-128 | each needed entry is built from the first record carrying its slug, and entries follow first-occurrence order |
| Brands.ScanSuppression | scripts/generate-descriptions.py:105-122 | a slug described in any market is never requested; every other slug is |
| Brands.FirstIndex | scripts/generate-descriptions.py:118-122 | the position of a record carrying the slug, for a slug some record carries |
| Brands.FirstIndexMin | scripts/generate-descriptions.py:118-122 | every record carrying the slug sits at or after `FirstIndex`, so it is the first occurrence |
| Brands.FirstIndexOfPrefix | scripts/generate-descriptions.py:116-122 | a slug already seen in a prefix of the records keeps its first occurrence when more records follow |
| Brands.FirstIndexAtEnd | scripts/generate-descriptions.py:118-128 | a record whose slug was not seen before is that slug's first occurrence |
| Brands.OrderExtends | scripts/generate-descriptions.py:116-128 | needed entries built from a prefix stay in first-occurrence order when more records follow, and all first occur inside the prefix |
| Brands.OrderAppend | scripts/generate-descriptions.py:123-128 | appending the entry of a slug first seen at the last record keeps first-occurrence order |
| Brands.AppendBuilt | scripts/generate-descriptions.py:123-128 | appending the entry built from a slug's first record keeps every entry built from its slug's first record |
| Brands.AppendIncrease | scripts/generate-descriptions.py:123-128 | appending an entry whose slug first occurs after all earlier entries' slugs keeps the first indices increasing |
| Brands.FlattenMember | scripts/generate-descriptions.py:116-118 | a record is in the concatenated files exactly when it is in one of the files |
| Brands.CategoryPhrase | scripts/generate-descriptions.py:138-139 | the first category, or `retail` when there is none, followed by ` and ` and the second category when there are two or more |
| Brands.BuildPrompt | scripts/generate-descriptions.py:133-144 | the prompt starts with the brand name and ends with the fixed two-sentence instruction; with two or more categories it is exactly `name (domain) is a c1 and c2 brand. ` followed by the instruction |
| Brands.PromptCategories | scripts/generate-descriptions.py:137-141 | only the first two categories matter; no categories reads as `retail`; a single category gives `name (domain) is a c1 brand. ` followed by the instruction |
| Prepare.ChunksShape | scripts/generate-descriptions.py:190 | the chunks concatenate back to the input; there are ⌈n/10000⌉ of them; each holds 1 to 10,000 items, and all but the last hold exactly 10,000 |
| Prepare.ChunkAt | scripts/generate-descriptions.py:190 | chunk j is the slice `[j*10000 : min(j*10000+10000, n)]` |
| Prepare.ChunksExample | scripts/generate-descriptions.py:190 | 25,000 brands give three batches of 10,000, 10,000 and 5,000 |
| Prepare.ConcatLength | scripts/generate-descriptions.py:190 | the concatenated chunks are as long as their lengths summed |
| Prepare.RequestFor | scripts/generate-descriptions.py:197-206 | a request's custom id is the slug, with the fixed model and token limit |
| Prepare.RequestsFor | scripts/generate-descriptions.py:196-208 | a request file holds one request per brand of the chunk, in order |
| Prepare.RequestFilesCoverBrands | scripts/generate-descriptions.py:193-208 | the request files together hold exactly one request per needed brand, in order |
| Prepare.FreshBatch | scripts/generate-descriptions.py:210-218 | a new batch is pending with no id and no counts, and carries its index and chunk size |
| Prepare.BuildBatchMeta | scripts/generate-descriptions.py:193-219 | one pending batch per chunk with index i, and the counts sum to the number of brands |
| Prepare.Prepare | scripts/generate-descriptions.py:167-227 | the existing state is kept (the code prints a notice and returns, :171-177) exactly when one exists and `--force` is not given; otherwise nothing is written when there are no brand files, and a new state is always prepared when there are: it holds the needed brands split into batches, with `total_brands` equal to the sum of the counts and every needed brand requested exactly once, in order |
| Batches.SameShapeKeepsWellFormed | scripts/generate-descriptions.py:220-225 | a step that keeps every batch's index and count keeps the state well formed |
| Batches.SameShapeSum | scripts/generate-descriptions.py:220-225 | such a step keeps the sum of the counts |
| Lifecycle.SubmitOne | scripts/generate-descriptions.py:282-283 | a submitted batch is `submitted` with the returned id, and every other field is kept |
| Lifecycle.SubmitAllAt | scripts/generate-descriptions.py:274-285 | the submit loop turns the k-th pending batch into a submitted batch with the k-th returned id, and leaves every other batch unchanged |
| Lifecycle.PendingOrdinalsIncrease | scripts/generate-descriptions.py:274-280 | distinct pending batches are served by distinct `create` calls, in order |
| Lifecycle.SubmitProgress | scripts/generate-descriptions.py:274-285 | after submitting, no batch is pending, no status moved backwards, and indices and counts are unchanged |
| Lifecycle.SubmitIdempotent | scripts/generate-descriptions.py:238-241 | a second submit changes nothing, whatever ids it would be given |
| Lifecycle.Refresh | scripts/generate-descriptions.py:307-322 | a submitted or in-progress batch with an id takes the live status and counts; an ended batch with missing counts takes the counts only; pending and merged batches, and every other field, are untouched |
| Lifecycle.RefreshMonotone | scripts/generate-descriptions.py:307-313 | when the service reports only in_progress or ended, no status moves backwards, and merged and pending are neither produced nor left |
| Lifecycle.RefreshCompletes | scripts/generate-descriptions.py:338-340 | for a state in which no batch with an id is pending (as `SubmitProgress` shows after a submit, when no batch is pending at all), once the service reports every submitted batch ended, a status check reports done exactly when some batch has an id |
| Lifecycle.RefreshKeepsDone | scripts/generate-descriptions.py:338-340 | a status check never undoes completion |
| Merge.AbsorbKeys | scripts/generate-descriptions.py:399-405 | reading results keeps every cached key and adds exactly the ids of succeeded results with non-blank text |
| Merge.AbsorbValues | scripts/generate-descriptions.py:399-405 | a key no usable result names keeps its value; otherwise the cache holds the sanitised text of the last usable result for that key |
| Merge.AbsorbNonBlank | scripts/generate-descriptions.py:403-404 | the cache only ever holds non-blank descriptions |
| Merge.AbsorbTwoNew | scripts/generate-descriptions.py:399-405 | two new usable ids grow the cache by two |
| Merge.CountsBounded | scripts/generate-descriptions.py:398-407 | ok plus errors never exceeds the number of results; they are equal exactly when no succeeded result is blank |
| Merge.MergedBatch | scripts/generate-descriptions.py:386-411 | an ended batch with an id becomes merged with its ok and error counts; any other batch is skipped unchanged; index, count, id and file are kept |
| Merge.MergeKeepsKeys | scripts/generate-descriptions.py:381-413 | merging never removes a key from the results cache, and never puts a blank value in it |
| Merge.MergeMonotone | scripts/generate-descriptions.py:386-411 | the only status change merging makes is ended → merged |
| Merge.MergeIdempotent | scripts/generate-descriptions.py:386-395 | a second merge downloads nothing: batches and cache stay as they are and nothing new is counted |
| Merge.NothingDownloadable | scripts/generate-descriptions.py:386-395 | when no batch is ended with an id, the cache is unchanged and nothing is counted |
| Merge.ExampleCounts | scripts/generate-descriptions.py:398-407 | two succeeded results and one error give ok = 2 and errors = 1 |
| Merge.MergeExample | scripts/generate-descriptions.py:386-413 | merging a batch with two new successes and one error marks it merged with ok = 2 and errors = 1, and grows the cache by two |
| Merge.Filled | scripts/generate-descriptions.py:434-437 | only a record with a blank description and a cached slug changes, and it takes the cached description |
| Merge.FillCountIsChanges | scripts/generate-descriptions.py:433-439 | when every cached description is non-blank (`NonBlankValues`, which `MergeKeepsKeys` and `AbsorbNonBlank` show the cache keeps), `updated` is the number of records that changed, so a file is rewritten exactly when some record changed; with a blank cached value the source would count a record that does not change |
| Merge.FillIdempotent | scripts/generate-descriptions.py:433-437 | filling a file again changes nothing |
| Merge.FillFile | scripts/generate-descriptions.py:433-437 | the loop over one file's records produces the filled file and counts the filled records |
| Merge.WrittenAs | scripts/generate-descriptions.py:439-441 | what is written for one file: its filled records when the fill count is positive, nothing otherwise |
| Merge.UpdateFile | scripts/generate-descriptions.py:433-441 | `updated` counts the filled records; the file is written, with its filled records, exactly when `updated` is positive |
| Merge.ApplyResults | scripts/generate-descriptions.py:429-442 | one result per file: file i is written, with its filled records, exactly when its count is positive; the total is the fill count of all records together |
| Merge.FillCountAppend | scripts/generate-descriptions.py:426-442 | the total fill count is the sum of the per-file counts |
| Pipeline.DownloadBatch | scripts/generate-descriptions.py:398-407 | reading one batch's results gives the absorbed cache and the ok and error counts |
| Pipeline.AllSubmittedDone | scripts/generate-descriptions.py:339-340 | the status check's result: some batch has an id, and every batch with an id is ended or merged |
| Pipeline.PipelineState.Doc | scripts/generate-descriptions.py:85-86 | the document `_save_state` writes: the total, the model and the batch list held by the fields |
| Pipeline.PipelineState.Load | scripts/generate-descriptions.py:76-82 | the loaded state holds the document read |
| Pipeline.PipelineState.Submit | scripts/generate-descriptions.py:234-285 | unless the user declines, the batch list becomes the submit loop's result, one `create` call per pending batch; the state stays well formed |
| Pipeline.PipelineState.SubmitNext | scripts/generate-descriptions.py:274-285 | one iteration of the submit loop: batch i takes its submitted form, the other batches are kept, and the call count covers batch i |
| Pipeline.PipelineState.CheckStatus | scripts/generate-descriptions.py:294-340 | the batches become their refreshed versions; `changed` holds exactly when some status changed or ended counts were fetched; the result is the completion predicate |
| Pipeline.PipelineState.RefreshBatch | scripts/generate-descriptions.py:307-322 | batch i becomes its refreshed version, the others are kept, and `changed` is set exactly when its status changed or its ended counts were fetched |
| Pipeline.PipelineState.DownloadAt | scripts/generate-descriptions.py:398-411 | a downloaded batch i becomes merged with its counts, and the cache absorbs its results |
| Pipeline.PipelineState.DownloadNext | scripts/generate-descriptions.py:386-413 | one iteration of the download loop: batch i takes its merged form, the others are kept, and the cache and `newly` cover batch i |
| Pipeline.PipelineState.DownloadResults | scripts/generate-descriptions.py:381-413 | the batches become their merged versions, the cache the merged cache, and `newly` the sum of the downloaded ok counts; the state stays well formed |
| Pipeline.PipelineState.Merge | scripts/generate-descriptions.py:375-442 | after downloading, nothing is written when the cache is empty; otherwise each brand file is written, filled, exactly when some record of it was filled, and the total is the fill count of all records |

Proof helpers, without rows: `Brands.NeededSnoc`, `Brands.NeededStep`,
`Brands.SlugsSnoc`, `Prepare.ChunkFirst`, `Prepare.ChunkShift`,
`Prepare.ConcatSnoc`, `Prepare.MulStep`, `Prepare.SliceOfSuffix`,
`Merge.TotalStep`, `Text.SanitizeOfJoin`, `Text.PunctuatedJoin`,
`Pipeline.PendingStep`, `Pipeline.MergeStep`, `Pipeline.SubmitStep` and
`Pipeline.MergedFromCounts` each unfold one step of a specification function
for a loop or an induction. `Brands.NeededFromInput` (every needed slug comes
from some record) is a weaker form of `Brands.NeededFirstOccurrence`.

## Left out

- File and JSON I/O. This covers reading and writing the brand files, the state document, the request `.jsonl` files and the results cache. The fields of `PipelineState` and the returned values hold what would be written.
- `_save_state` and the per-batch saves. The code overwrites the file with `write_text`, which is not atomic; atomicity and crash behaviour are not modelled.
- The directory listing. `glob` and `sorted` are not modelled: brand files are given as a sequence, already in sorted path order.
- Extra keys of brand records. Brand records keep only `slug`, `name`, `domain`, `categories` and `description`; other keys pass through untouched in the source and are not represented.
- JSON null. A JSON `null` for `name`, `domain`, `categories` or `description` is not distinguished from a missing key; the lines below say what the source does instead.
- A record without `slug`. The source raises `KeyError` in the first pass at :111 when the record is described, in the second pass at :119, and in the update loop at :435. In the model every record has a slug.
- A JSON-null `description`. `b.get("description", "")` returns `None` there, and `.strip()` raises `AttributeError` at :110 and :435. The model treats the description as blank: the brand is requested and its description filled.
- A JSON-null `domain`. The source keeps `None` (:126), and the prompt reads `name (None) is a …` at :141. The model reads a missing or null domain as `""`, giving `name () is a …`.
- A JSON-null `categories`. The source keeps `None` (:127). `_build_prompt` takes `retail` at :138, then `len(cats)` raises `TypeError` at :139, so `prepare` stops. The model reads a missing or null list as `[]`, and the prompt says `retail`.
- A JSON-null `name`. The source keeps `None` (`get` only defaults a missing key, :125) and the prompt reads `None (domain) is a …` at :141. The model uses the slug as the name.
- The `prepared_at` timestamp. It comes from the clock and is not part of the state document here.
- `_estimate_cost` and the coverage percentage. Both use floating point.
- All printing and the status table.
- The confirmation prompt. `input()` is the boolean `proceed` parameter of `Submit`; `--yes` is the same as `proceed = true`.
- The `status --watch` polling loop, with its sleep and reload, and `_get_client` / `.env` loading.
- Pipeline.PipelineState.Submit: when no batch is pending, the source prints a message and runs `status` instead. The model leaves the state unchanged in that case, which is what `SubmitAll` yields when nothing is pending. The status check is available as `CheckStatus`.
- Pipeline.PipelineState.Load: `_load_state` exits when no state file exists; the model takes an already loaded document.
- Lifecycle.RefreshMonotone: the source copies whatever `processing_status` the service reports. Statuses other than the five lifecycle statuses (such as `canceling`) are not represented, and monotonicity is proved only for in_progress and ended.
- Prepare.ChunksShape: `Chunks` is written for the fixed batch size of 10,000 rather than for any size.
- The request record. It carries the custom id, model, token limit and prompt; the JSON `messages` wrapper around the prompt is not represented.
- Command-line parsing and dispatch.
