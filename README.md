# Incremental ingestion pipeline, modelled in Dafny

This project models `run_ingestion_pipeline` of `data_pipeline.py` and the
helpers it calls. The pipeline does the following, in order:

- It checks five settings: the connection string, the source and target
  containers, the key column and the master blob name.
- It points the `'Job No.'` slot of the module-level rename table `udf_cols`
  at the configured key column.
- It lists the source container, keeps the names that end in `csv`, and picks
  the newest snapshot. The snapshot is chosen by the `YYYYMMDDHHmm` stamp in
  the second underscore-separated field of its name.
- It downloads that snapshot and replaces line breaks in header names by
  spaces.
- It renames the headers by the table and normalises every text cell: the
  cell is stripped and upper-cased, and `()` becomes empty.
- It maps `Y`/`YES`/`N`/`NO` to booleans in six flag columns.
- It drops every master row whose key occurs in the increment and appends the
  increment, with no deduplication.
- It writes the result back over the master blob and returns a summary.

Modules, one file each:

- `Results` (`results.dfy`): `Option` and `Result`.
- `Text` (`text.dfy`): Python's `strip`, `upper`, `split`, `replace("\n", " ")`
  and `endswith` on ISO-8859-1 text, and `normalize_string`.
- `Snapshot` (`snapshot.dfy`): the `csv` filter and `find_latest_csv`. The
  timestamp is parsed strictly: twelve digits and a valid calendar date. The
  names are stably sorted newest first and the head is taken.
- `Schema` (`schema.dfy`): the 79-entry `udf_cols` table, with every entry as
  written, the key override and `rename(columns=...)`. The class `HeaderTable`
  is the module-level dictionary that each run updates in place.
- `Frames` (`frames.dfy`): cells and tables, header folding, `preprocessed_df`
  and the flag mapping. The class `DataFrame` runs these passes in place as
  loops over columns. Each loop is proved against a function on table values.
- `Incremental` (`merge.dfy`): the key replace-merge and `concat`'s label
  alignment.
- `Pipeline` (`pipeline.dfy`): the settings check and the object store, which
  is modelled as a value. `RunPipeline` is the whole run as a function.
  `RunIngestionPipeline` is the run as the source performs it, step by step on
  objects, and is proved to reach the same outcome and leave the same store.

Where the documented behaviour and the code differ, the model follows the
code:

- The documented file-name convention is `<anything>_<YYYYMMDDHHmm>.csv`. The
  code takes field 1 of `split('_')`, so a prefix that holds an underscore
  makes such a name malformed (`Snapshot.UnderscoreInPrefixIsMalformed`).
- The documentation leaves ties between equal stamps undefined. Python's
  stable sort with `reverse=True` keeps input order among equal keys, so the
  first listed name wins (`Snapshot.FirstOfTiesWins`). Azure lists the blobs
  of a container in lexicographic order of their names, so in the program a
  tie goes to the name that sorts first.
- The filter is `endswith('csv')`, not `endswith('.csv')`, so a name such as
  `reportcsv` is a candidate too.
- `str(NaN)` is `"nan"`, so a missing value in a text column becomes the text
  `NAN`.

## Model

| member | source | states |
|---|---|---|
| Text.Strip | data_pipeline.py:143 | the result is the input with its leading and trailing whitespace cut off, and has no whitespace at either edge |
| Text.StripUnique | data_pipeline.py:143 | any whitespace-only margins whose removal leaves no edge whitespace give exactly `strip()`'s result |
| Text.Upper | data_pipeline.py:145 | same length; every character is its upper-case form |
| Text.NormalizeString | data_pipeline.py:141-145 | a value that strips to `()` becomes empty; otherwise the result is the stripped value up to case, with no edge whitespace and no lower-case letter |
| Text.NormalizeIdempotent | data_pipeline.py:141-145 | normalising a normalised value changes nothing |
| Text.NormalizeTrims | data_pipeline.py:145 | `"  abc "` normalises to `"ABC"` |
| Text.NormalizeSentinel | data_pipeline.py:143-144 | `" () "` normalises to the empty string |
| Text.NormalizeNearSentinel | data_pipeline.py:143-145 | `"( )"` is not the sentinel and is kept |
| Text.ReplaceNewlines | data_pipeline.py:210 | same length, no line break left, each line break becomes a space and every other character is kept |
| Text.ReplaceNewlinesNoop | data_pipeline.py:209-211 | a name with no line break is unchanged |
| Text.Split | data_pipeline.py:127 | at least one field, and no field holds the separator |
| Text.SplitHead | data_pipeline.py:127 | the first field of a split is the prefix before the first separator, followed by the separator or by the end |
| Text.SplitJoin | data_pipeline.py:127 | joining the fields of a split with the separator gives back the string |
| Text.JoinSplit | data_pipeline.py:127 | splitting the join of separator-free fields gives back the fields |
| Text.SplitThree | data_pipeline.py:127 | three separator-free fields joined by the separator split into exactly those three |
| Snapshot.CsvBlobNames | data_pipeline.py:117-120 | a name is kept exactly when it is listed and ends in `csv`; never more names than listed |
| Snapshot.CsvBlobNamesOne | data_pipeline.py:119-120 | one listed name is kept exactly when it ends in `csv` |
| Snapshot.CsvBlobNamesAppend | data_pipeline.py:117-120 | the names kept from a listing in two parts are those of the first part followed by those of the second, so listing order and repeats are kept |
| Snapshot.ParseStamp | data_pipeline.py:127 | a parsed stamp is twelve digits and a valid date and time |
| Snapshot.DigitsRoundTrip | data_pipeline.py:127 | a number written with fixed width reads back as itself |
| Snapshot.ValueRoundTrip | data_pipeline.py:127 | a digit string read as a number and written at its width is itself |
| Snapshot.FormatThenParse | data_pipeline.py:127 | every valid date and time parses back from its own twelve-digit text |
| Snapshot.FieldsThenFormat | data_pipeline.py:127 | the five fields read from twelve digits format back to those digits |
| Snapshot.ParseThenFormat | data_pipeline.py:127 | a stamp that parses formats back to itself, so parsing is injective |
| Snapshot.StampText | data_pipeline.py:127 | a stamp text exists exactly when the name holds `_`, and it holds neither `_` nor `.` |
| Snapshot.StampTextField | data_pipeline.py:127 | when the name holds `_`, the stamp text is the text after its first `_` up to the next `_` or `.` or the end |
| Snapshot.SnapshotNameStamp | data_pipeline.py:127 | `<prefix>_<stamp>.<ext>` with underscore-free prefix and extension yields exactly its stamp |
| Snapshot.UnderscoreInPrefixIsMalformed | data_pipeline.py:127 | `ocean_feed_<stamp>.csv` has no sort key, because field 1 is `feed` |
| Snapshot.FirstMalformed | data_pipeline.py:125-127 | none is found exactly when every key is computable; otherwise the first name whose key raises |
| Snapshot.Insert | data_pipeline.py:125-129 | the result is the input plus the new candidate, as a multiset |
| Snapshot.SortNewestFirst | data_pipeline.py:125-129 | the result is a permutation of the candidates |
| Snapshot.InsertSorted | data_pipeline.py:125-129 | inserting a candidate that comes earlier in the input keeps the newest-first order, with ties in input order |
| Snapshot.SortSorted | data_pipeline.py:125-129 | sorting candidates in input order gives newest first, with equal stamps in input order |
| Snapshot.FindLatestCsv | data_pipeline.py:123-130 | empty input gives `NoCandidates`; success exactly when every key is computable; failure names the first malformed name; success returns a listed name no other name is later than, and every name before it is strictly earlier |
| Snapshot.LatestHead | data_pipeline.py:125-130 | the head of the stable newest-first sort is the first name with the latest stamp |
| Snapshot.FirstOfTiesWins | data_pipeline.py:125-130 | of two names with equal stamps the first listed is returned |
| Snapshot.SecondLaterWins | data_pipeline.py:125-130 | of two names, a strictly later second one is returned |
| Snapshot.FirstExampleText | data_pipeline.py:127 | 2025-01-01 09:00 is written `202501010900` |
| Snapshot.SecondExampleText | data_pipeline.py:127 | 2025-01-02 09:00 is written `202501020900` |
| Snapshot.LatestExample | data_pipeline.py:123-130 | of the 1 and the 2 January 09:00 snapshots of one feed, the 2 January one is picked |
| Schema.MapOf | data_pipeline.py:28-108 | every listed header is a key, and every key maps to a value listed for it |
| Schema.EntriesShaped | data_pipeline.py:28-108 | a table built from shaped entries is shaped |
| Schema.TableShape | data_pipeline.py:28-108 | every target of `udf_cols` starts lower-case; every raw header except `carr_eqp_uid` starts upper-case; `carr_eqp_uid` maps to itself |
| Schema.JobNoInTable | data_pipeline.py:29 | `'Job No.'` is a key of the table |
| Schema.Override | data_pipeline.py:195 | same keys plus `'Job No.'`, which now maps to the key column; every other entry is kept |
| Schema.HeaderTable.constructor | data_pipeline.py:28-108 | the module-level table starts as written |
| Schema.HeaderTable.SetKey | data_pipeline.py:195 | the table becomes its override with the given key |
| Schema.OverrideAnyRun | data_pipeline.py:195 | whatever key an earlier run left in the slot, overriding gives the same table as overriding the table as written |
| Schema.OverrideKeepsAgreement | data_pipeline.py:195 | an override keeps every entry except `'Job No.'` equal to the table as written |
| Schema.RenameHeader | data_pipeline.py:214 | a header in the table takes its entry; any other header is kept |
| Schema.RenameHeaders | data_pipeline.py:214 | each header renamed on its own, in place |
| Schema.CanonicalKeyColStable | data_pipeline.py:195 | a lower-case key name is never renamed again by the table |
| Schema.RenameHeaderIdempotent | data_pipeline.py:214 | with a stable key name, renaming a renamed header changes nothing |
| Schema.RenameIdempotent | data_pipeline.py:214 | with a stable key name, renaming a renamed header list changes nothing |
| Schema.RenameNotIdempotent | data_pipeline.py:195-214 | with a key name that is itself a header the table renames, renaming twice differs from renaming once |
| Schema.RunSchemaIdempotent | data_pipeline.py:214 | the run's schema renames idempotently whenever the key name is stable |
| Frames.FoldHeaders | data_pipeline.py:208-211 | same number of headers, each header with every line break replaced by a space, so none with a line break, same lengths, headers without a line break kept |
| Frames.Relabel | data_pipeline.py:211 | every occurrence of the label is replaced, all else kept |
| Frames.FoldedAmong | data_pipeline.py:208-211 | the headers seen so far are folded, the rest kept |
| Frames.FoldStepRenamed | data_pipeline.py:209-211 | renaming a header with a line break extends the folded prefix by one |
| Frames.FoldStepSkipped | data_pipeline.py:209 | skipping a header with no line break extends the folded prefix by one |
| Frames.FoldEnds | data_pipeline.py:208-211 | nothing seen is the input; everything seen is the folded header list |
| Frames.DataFrame.RenameInPlace | data_pipeline.py:211 | the labels are relabelled in place; dtypes and rows are unchanged |
| Frames.DataFrame.FoldHeaderNames | data_pipeline.py:208-211 | after the loop the labels are the folded labels and nothing else changed |
| Frames.RenameFrame | data_pipeline.py:214 | each label is renamed by the table or kept; dtypes and rows unchanged |
| Frames.NormalizeCell | data_pipeline.py:141-151 | each cell becomes a string with no edge whitespace and no lower-case letter: empty when `str(cell)` strips to `()`, otherwise the stripped `str(cell)` up to case |
| Frames.MapColumn | data_pipeline.py:151 | only the cells of the given column are rewritten |
| Frames.RewriteWhere | data_pipeline.py:150-151 | exactly the cells of the selected columns are rewritten |
| Frames.Before | data_pipeline.py:150 | the selection cut to the columns before a position |
| Frames.Labelled | data_pipeline.py:221-222 | a column is selected exactly when its label is in the list |
| Frames.RewriteNone | data_pipeline.py:222 | selecting no column rewrites nothing |
| Frames.RewriteStep | data_pipeline.py:150-151 | one column more is one `apply` more |
| Frames.FlagsOneMore | data_pipeline.py:221-223 | mapping one more flag column extends the mapped set by that label |
| Frames.DataFrame.constructor | data_pipeline.py:138 | the table holds the given value |
| Frames.DataFrame.Copy | data_pipeline.py:149 | a fresh table with the same value |
| Frames.DataFrame.Rewrite | data_pipeline.py:151 | one column rewritten in place, labels and dtypes kept |
| Frames.DataFrame.RewriteColumns | data_pipeline.py:150-151 | the selected columns rewritten in place, labels and dtypes kept |
| Frames.DataFrame.ReplaceFlags | data_pipeline.py:220-223 | after the loop over the six flag names the table is its flag-mapped value |
| Frames.Preprocess | data_pipeline.py:147-152 | labels, dtypes and row count kept |
| Frames.PreprocessedDf | data_pipeline.py:147-152 | a fresh copy whose value is the preprocessed input |
| Frames.PreprocessNormalizes | data_pipeline.py:147-152 | every text-column cell becomes the normalised text of its own value, an edge-trimmed upper-case string; every other cell is unchanged |
| Frames.PreprocessIdempotent | data_pipeline.py:147-152 | preprocessing twice is preprocessing once |
| Frames.MapFlags | data_pipeline.py:220-223 | labels, dtypes and row count kept |
| Frames.MapFlagsCells | data_pipeline.py:220-223 | in a flag column a cell becomes true exactly from `Y`/`YES`, false exactly from `N`/`NO`, and is otherwise unchanged; other columns are untouched |
| Frames.MapFlagsIdempotent | data_pipeline.py:220-223 | mapping twice is mapping once |
| Frames.NormalizedFlag | data_pipeline.py:143-145 | after normalising, a cell becomes true exactly when its normalised text is `Y` or `YES`, false exactly for `N` or `NO`, and otherwise stays that text |
| Frames.LowerYNormalizes | data_pipeline.py:143-145 | `" y"` normalises to `Y` |
| Frames.MaybeNormalizes | data_pipeline.py:143-145 | `"maybe"` normalises to `MAYBE` |
| Frames.FlagExamples | data_pipeline.py:223 | a normalised `" y"` becomes true; a normalised `"maybe"` stays the string `MAYBE` |
| Incremental.NewColumns | data_pipeline.py:237 | exactly the labels of the second table that the first lacks; without repeats when the second table's labels do not repeat |
| Incremental.NewColumnsOne | data_pipeline.py:237 | one label is new exactly when the first table lacks it |
| Incremental.NewColumnsAppend | data_pipeline.py:237 | the new labels of a second table in two parts are those of the first part followed by those of the second, so they keep the second table's order |
| Incremental.NoNewColumns | data_pipeline.py:237 | no new labels when the second table's labels all occur in the first |
| Incremental.AlignRow | data_pipeline.py:237 | a row laid out under the joined labels shows its own cell under each of its labels and NaN elsewhere |
| Incremental.AlignRows | data_pipeline.py:237 | every row aligned, and the row count kept |
| Incremental.AlignRowsSelf | data_pipeline.py:237 | aligning to a table's own unique labels changes nothing |
| Incremental.StackedFacts | data_pipeline.py:237 | tables with identical labels are stacked, which is a concatenation |
| Incremental.ReindexedFacts | data_pipeline.py:237 | reindexing both tables to the joined labels is a concatenation |
| Incremental.Concat | data_pipeline.py:237 | succeeds exactly with identical labels or with labels that do not repeat; the result has the first table's rows and then the second's, each aligned under the joined labels |
| Incremental.Kept | data_pipeline.py:233-234 | no kept row holds a key of the increment; never more rows than the input |
| Incremental.KeptCount | data_pipeline.py:233-234 | a row survives as often as it occurs in the input exactly when its key is not in the increment, and not at all otherwise |
| Incremental.KeptLength | data_pipeline.py:233-234 | every row is kept exactly when no row holds an increment key |
| Incremental.KeptAppend | data_pipeline.py:233-234 | filtering a concatenation filters each part |
| Incremental.KeptAllOrNone | data_pipeline.py:233-234 | rows with no matching key are all kept; rows whose keys all match are all dropped |
| Incremental.Merge | data_pipeline.py:231-237 | fails with the missing or repeated key column of the increment, then of the master, or with labels concat cannot align; succeeds exactly when both have the key once and concat can align them |
| Incremental.MergeIsConcat | data_pipeline.py:231-237 | a successful merge is the concat of the surviving master rows with the increment |
| Incremental.MergeIsConcatEq | data_pipeline.py:234-237 | the merge equals `Concat` of the kept master table and the increment |
| Incremental.MergeRowCount | data_pipeline.py:231-237 | the count is the survivors plus the increment: at most the two tables' sum, and equal to it exactly when no master key occurs in the increment |
| Incremental.MergeColumns | data_pipeline.py:237 | the labels are those of the master and then the increment's new ones; the key occurs once and at the master's position |
| Incremental.MergeReplacesByKey | data_pipeline.py:231-237 | a result row holds an increment key exactly when it comes from the increment |
| Incremental.MergeKeepsIncrement | data_pipeline.py:237 | every increment row appears, in order, after the survivors |
| Incremental.MergeKeepsUnmatched | data_pipeline.py:233-234 | every master row whose key is not in the increment survives as often as it occurred, in order, at the start of the result |
| Incremental.MergeSameColumns | data_pipeline.py:237 | with identical labels the rows are the survivors followed by the increment |
| Incremental.ConcatAgain | data_pipeline.py:237 | concatenating the result's first part again with the same second table gives the same result |
| Incremental.SurvivorsAgain | data_pipeline.py:231-234 | merging again with the same increment keeps exactly the earlier survivors |
| Incremental.MergeIdempotent | data_pipeline.py:231-237 | merging the same increment into the merged table changes nothing |
| Incremental.ExampleSurvivors | data_pipeline.py:233-234 | of master keys 1 and 2 with an increment of keys 2 and 3, only the row with key 1 survives |
| Incremental.MergeExample | data_pipeline.py:231-237 | that merge gives keys 1, 2 and 3 with the increment's value for key 2 |
| Incremental.DuplicateSurvivors | data_pipeline.py:233-234 | of master keys 5 and 6 with an increment holding key 5 twice, only the row with key 6 survives |
| Incremental.MergeKeepsDuplicateKeys | data_pipeline.py:239-240 | an increment with two rows for key 5 keeps both, since no deduplication follows |
| Pipeline.ListCsvBlobs | data_pipeline.py:113-121 | fails exactly for an unknown container; otherwise lists exactly the container's names that end in `csv`, in listing order as `CsvBlobNames` keeps it |
| Pipeline.ReadFile | data_pipeline.py:132-139 | succeeds exactly for a stored blob and returns its table; otherwise names the blob not found |
| Pipeline.Publish | data_pipeline.py:154-169 | the blob is overwritten in its container, its name is listed, every other container is untouched, and a well-formed store stays well formed |
| Pipeline.PublishTwice | data_pipeline.py:164-168 | uploading the same table twice is uploading it once |
| Pipeline.Prepared | data_pipeline.py:207-223 | folding, renaming, normalising and mapping keep the table rectangular and its shape the same |
| Pipeline.FetchLatest | data_pipeline.py:198-202 | succeeds exactly when the container exists, a newest candidate is found and stored, and then returns that blob's table |
| Pipeline.Ingest | data_pipeline.py:197-237 | a success knows the target container and yields a rectangular table |
| Pipeline.RunPipeline | data_pipeline.py:185-249 | incomplete settings fail with a configuration error and change nothing; every failure leaves the store as it was; a success publishes exactly the target blob: the store after it is `Publish` of the store before it with the written table, so every other blob, the other containers and the listing apart from the target name are kept |
| Pipeline.SuccessExactly | data_pipeline.py:191-237 | a run succeeds exactly when the settings are complete, the newest snapshot and the master are read, and the merge succeeds |
| Pipeline.SummaryOfRun | data_pipeline.py:254-260 | the summary reports `SUCCESS`, the key and blob, the snapshot's and master's shapes, and the row count of the written table, which is the survivors plus the increment and at most their sum; the written table is the merge |
| Pipeline.MissingKeyWritesNothing | data_pipeline.py:232 | an increment without the key column fails with that error and writes nothing |
| Pipeline.RerunChangesNothing | data_pipeline.py:173-260 | with distinct source and target containers, and a written table that reads back exactly as written, running again on the result leaves the store and the row count the same |
| Pipeline.EmptyAsMissing | data_pipeline.py:138 | an empty text cell of a written table reads back as NaN; every other cell, the labels and the dtypes are kept |
| Pipeline.SentinelFirstMerge | data_pipeline.py:231-237 | a master holding key `K1` merged with an increment whose key cell normalised to the empty string gives both rows |
| Pipeline.SentinelReadBack | data_pipeline.py:138 | that written table reads back with NaN in place of the empty key |
| Pipeline.SentinelSecondMerge | data_pipeline.py:231-237 | merging the same increment into the reread table keeps both reread rows, because NaN is not the empty key, and appends the increment row again |
| Pipeline.EmptyKeyRerunGrows | data_pipeline.py:138-237 | across the CSV round trip a second delivery of the same increment grows the master from two rows to three |
| Pipeline.RunSeesOnlyOverride | data_pipeline.py:195 | two tables with the same override give the same run |
| Pipeline.EarlierRunsDoNotLeak | data_pipeline.py:195 | a table that earlier runs have altered only in its key slot gives the same run as the table as written |
| Pipeline.BlobStore.constructor | data_pipeline.py:115 | the store holds the given containers |
| Pipeline.BlobStore.ListCsv | data_pipeline.py:113-121 | the listing is that of `ListCsvBlobs` |
| Pipeline.BlobStore.Download | data_pipeline.py:132-139 | the download is that of `ReadFile` |
| Pipeline.BlobStore.Upload | data_pipeline.py:154-169 | the store becomes its `Publish` |
| Pipeline.FetchSnapshot | data_pipeline.py:198-202 | the steps give exactly `FetchLatest` |
| Pipeline.PrepareIncrement | data_pipeline.py:207-223 | the in-place passes on fresh objects give exactly `Prepared` with the table's current contents |
| Pipeline.RunIngestionPipeline | data_pipeline.py:173-261 | the step-by-step run returns `RunPipeline`'s result and leaves its store; with complete settings the module table's key slot now holds the key, otherwise the table is unchanged |

## Left out

- The Azure SDK: connection strings, clients and network failures are not modelled. The store is a value: per container, a listing order and a map from blob names to tables. A blob in the listing but not in the map fails to download. Uploading adds the name to the listing if it is missing.
- Listing order: the model takes a container's listing order as given, and uploading appends a new name at the end. Azure's List Blobs returns names in lexicographic order, so among snapshots with equal stamps the program picks the one whose name sorts first. The model does not constrain the listing to be sorted.
- `read_csv` and `to_csv`: CSV parsing, the encodings, `low_memory` and dtype inference are not modelled. A stored blob is the table it parses to. A cell is a string, a boolean, a number by its text, or NaN.
- Dtypes across a CSV round trip: the master table's dtypes are taken as stored, with no re-inference of what `to_csv` then `read_csv` would give.
- Pipeline.RerunChangesNothing: assumes that a written table reads back exactly as it was written. In the program the master goes through `to_csv` and then `read_csv`. A text cell that is empty, or one of `read_csv`'s default missing-value tokens such as `NA`, `N/A`, `NULL` or `#N/A`, reads back as NaN. A text column whose cells hold only digits can read back as numbers. If an increment key is such a cell, `isin` does not match it on the rerun: the master row survives and the increment row is appended again. `Pipeline.EmptyKeyRerunGrows` shows this for the empty key that the sentinel `()` normalises to. The text is also uploaded as UTF-8 but downloaded as ISO-8859-1, so a key holding a non-ASCII character reads back as different text and its increment row is appended again as well. `Pipeline.EmptyAsMissing` follows only the empty-field case of the round trip.
- Snapshot.ParseStamp: accepts exactly twelve ASCII digits. `strptime` also accepts some shorter stamps, for example single-digit months. It also accepts a day padded with a space instead of a zero within twelve characters, for example `202501 10900`. Such stamps are reported as malformed here.
- Text.IsSpace and Text.UpperChar: whitespace is that of ISO-8859-1, and upper-casing covers the ASCII letters only. Latin-1 letters such as `é` or `ß` keep their case.
- Incremental.KeySet: `isin` compares cells by model equality. The numeric cross-type matching pandas does, for example `1` against `1.0`, is not modelled.
- Incremental.Merge: a key label that occurs twice is reported as `DuplicateKeyColumn`. pandas would return a table from `df[key]` and fail later in an unrelated way.
- Incremental.Concat: tables with the same repeated labels are stacked, and other layouts with repeated labels fail with `NonUniqueColumns`. pandas has more cases here.
- Incremental.Concat: the resulting `object` dtype of a column is approximated as "text in either table". pandas' fuller dtype unification is not modelled.
- `ignore_index`, the row index and all `iloc`/`loc` details: rows are a sequence.
- Frames.DataFrame.RewriteColumns: in `apply` and `replace`, a column is selected by position. pandas' behaviour with repeated object or flag labels is not modelled.
- `replace(..., inplace=True)` on a column selection: modelled as writing into the table. Under copy-on-write pandas would leave the table unchanged.
- Logging, `load_dotenv` and `warnings` are not modelled. The settings are the five values of `Config`; an unset value and the empty string are both "not provided".
- `main.py`, the web endpoint around the pipeline, is not part of this model.
- Concurrency between runs is not modelled: one run at a time is assumed.
