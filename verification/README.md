# Capability validation for Hugging Face datasets, in Dafny

This project models the core of `hugging-face-dataset-validator-rust` as pure
Dafny functions, and proves properties of that model. It covers four Rust
files.

- **`src/validator.rs`** is the capability engine:
  - the five-flag `ValidationResult` and its OR-merge and score;
  - `EntityIdentifier` with its levels, cache keys and display form;
  - the pluggable `DataAccess` interface;
  - the three per-level algorithms of `DatasetValidator` and their entry points;
  - the map-backed `MockDataAccess` and its default seeding.
- **`src/parquet_validator.rs`** contributes:
  - split names taken from file names;
  - the schema-consistency check;
  - grouping files by split, and the report totals;
  - the rule-based capability assessment;
  - the 50-byte value truncation of the printed report.
- **`src/hf_dataset_converter.rs`** contributes:
  - the train/validation/test partition of character groups;
  - the split sizes of `dataset_info.json`;
  - the offsets of the `semantic_names` list column;
  - the chunking and naming of the Parquet files.
- **`src/rust_analyzer_extractor.rs`** contributes:
  - the phase names;
  - the processing-order counter;
  - the line heuristics `detect_element_type`, `extract_element_name` and `extract_variable_name`;
  - the records of the parsing phase;
  - the plan that splits a phase's records over files.

Modules follow the program's structure. Each bullet names a module and its file.

- `Capabilities`, `Entity`, `Validator` (`validator.dfy`), and `ValidatorProperties` model the engine.
- `MockStore` (`mock.dfy`), `MockProperties` and `MockScenarios` model the mock store and what validation reports against it.
- `ParquetValidator` and `ReportDisplay` model the Parquet validator.
- `HfConverter` (`hf_converter.dfy`) models the converter.
- `RustAnalyzer` models the extractor.
- `Strings`, `Seqs` and `Wrappers` model Rust's `str::find`, `str::trim`, `{}` and `{:05}` formatting, `slice::chunks`, `Option` and `Result`.

`DataAccess` is a record of total functions, each returning a `Result`, so
every store is seen only through its answers. One child's cached answer is
classified as `Contributes`, `Pending` (a cache miss) or `Ignored`. This keeps
the distinction between a cache miss and any other error exhaustive.

Some inputs become parameters:
- the term store of the converter;
- the already-read file infos and schemas of the Parquet validator;
- the lines of a source file;
- the records-per-file bound of the extractor.

## Model

| member | source | states |
|---|---|---|
| Capabilities.NewResult | src/validator.rs:20-32 | a fresh result has no capability |
| Capabilities.Merge | src/validator.rs:34-40 | the merge has a capability exactly when either input has it |
| Capabilities.MergeAlgebra | src/validator.rs:34-40 | merge is commutative, associative and idempotent, and has the fresh result as its unit, so merging many results does not depend on their order |
| Capabilities.CapabilityCount | src/validator.rs:46-51 | the score is the number of capabilities the result holds; it lies in 0..5, is 0 exactly when no capability holds and 5 exactly when all hold |
| Capabilities.MergeHeld | src/validator.rs:34-40 | the capabilities of a merge are the union of the two inputs' capabilities |
| Capabilities.MergeCount | src/validator.rs:34-51 | merging never lowers either score, and the merged score is at most the sum of the two scores |
| Capabilities.ComplementaryMerge | src/main.rs:271-296 | two results that together cover every capability merge to a score of 5 |
| Capabilities.ComplementaryPairExample | src/main.rs:271-296 | (a mirror of the crate's test; no general property) the crate's test pair merges to all five flags with score 5 |
| Entity.InferLevel | src/validator.rs:93-100 | the level is Split exactly when config and split are present, Config when only the config is, and Dataset when the config is absent; a split without a config is ignored |
| Entity.NewDataset | src/validator.rs:69-75 | a dataset identifier is at dataset level and displays as the dataset name |
| Entity.NewConfig | src/validator.rs:77-83 | a config identifier is at config level and displays as `dataset/config` |
| Entity.NewSplit | src/validator.rs:85-91 | a split identifier is at split level and displays as `dataset/config/split` |
| Entity.CacheKey | src/validator.rs:102-110 | no contract of its own; CacheKeyInjective and CacheKeyCollisions state when the key identifies its check kind and entity |
| Entity.Display | src/validator.rs:113-121 | no contract of its own; DisplayStructure states its shape and the constructors' contracts its three cases |
| Entity.CacheKeyInjective | src/validator.rs:102-110 | assume no part contains ':' and present config and split names are non-empty; then equal cache keys mean equal check kinds and equal entities |
| Entity.CacheKeyCollisions | src/validator.rs:102-110 | without that precondition the key is ambiguous: a config and its split named "" share a key, and so do a dataset and its config named "" |
| Entity.DisplayExamples | src/validator.rs:113-121 | (a mirror of the crate's test; no general property) split, config and dataset display as `d/c/s`, `d/c` and `d`; a config and a dataset whose name contains '/' can display alike |
| Entity.DisplayStructure | src/validator.rs:113-121 | the display begins with the dataset name; a present config follows a '/'; without a config the display is the dataset name |
| Validator.IsSuccess | src/validator.rs:139-141 | no contract of its own; Classify states that exactly the status-200 answers contribute |
| Validator.WithRows | src/validator.rs:158-161 | the metadata records the row count and keeps its features |
| Validator.ValidateSplit | src/validator.rs:374-403 | fails exactly when config or split is missing, and then with an identifier error; otherwise progress is 1; viewer is the parent config's probe answered true; preview and statistics are the split's probes answered true; filter holds exactly when metadata is found; search holds exactly when the found metadata has indexable columns |
| Validator.Classify | src/validator.rs:421-429 | a child contributes its content exactly when its cached answer has status 200; it is pending exactly on a cache error; every other outcome is ignored |
| Validator.TallyChildren | src/validator.rs:412-430 | the loop counts every child, and pending never exceeds the total |
| Validator.TallyMeaning | src/validator.rs:417-430 | the aggregate has a capability exactly when some child with a status-200 cached answer has it; pending is the number of children whose lookup is a cache miss, so it is 0 exactly when no child is pending and equals the total exactly when every child is |
| Validator.Progress | src/validator.rs:432-436 | progress lies in [0, 1]; it is 1 exactly when nothing is pending; it is 0 exactly when there are children and all are pending |
| Validator.ValidateConfig | src/validator.rs:405-439 | fails exactly when the config is missing (an identifier error) or the split names cannot be listed (that error, unchanged); a success holds a capability exactly when some listed split's status-200 cached answer has it, and its progress is the fraction of listed splits whose cached answer is not a cache miss |
| Validator.ValidateDataset | src/validator.rs:441-472 | fails exactly when the config names cannot be listed, with that error unchanged; a success holds a capability exactly when some listed config's status-200 cached answer has it, and its progress is the fraction of listed configs whose cached answer is not a cache miss |
| Validator.ValidateSplitOf | src/validator.rs:479-488 | split validation through the entry point always succeeds, with progress 1 |
| Validator.ValidateConfigOf | src/validator.rs:490-498 | config validation through the entry point fails exactly when the split names cannot be listed |
| Validator.ValidateDatasetOf | src/validator.rs:500-507 | dataset validation through the entry point fails exactly when the config names cannot be listed |
| ValidatorProperties.TallyAppend | src/validator.rs:417-430 | tallying a concatenation of child lists combines the two tallies |
| ValidatorProperties.TallyPermutation | src/validator.rs:417-430 | any permutation of the child list gives the same result, total and pending count |
| ValidatorProperties.TallyCongruent | src/validator.rs:417-430 | lookups that agree on every child give the same tally |
| ValidatorProperties.DatasetOrderIndependent | src/validator.rs:441-472 | two stores that list the same configs in any order, and agree on their cached answers, validate the dataset identically |
| ValidatorProperties.ConfigOrderIndependent | src/validator.rs:405-439 | the same holds for a config and its splits |
| ValidatorProperties.ProgressIsResolvedFraction | src/validator.rs:432-436 | progress times the total is the number of resolved children; progress is 1 with no children |
| ValidatorProperties.SplitViewerInherited | src/validator.rs:385-386 | all splits of one config get the same viewer flag, whatever their own answers |
| ValidatorProperties.MissingMetadataDisablesFilterAndSearch | src/validator.rs:389-398 | without schema metadata, filter and search are off whatever the probes say |
| ValidatorProperties.SplitAllChecksPass | src/validator.rs:383-402 | when every probe answers true and the schema has an indexable column, a split scores 5 with progress 1 |
| Validator.Validate | src/validator.rs:366-372 | no contract of its own: it dispatches on the level; DispatchOnSuppliedLevel and the per-level contracts state its results |
| ValidatorProperties.DispatchOnSuppliedLevel | src/validator.rs:366-372 | `validate` uses the level it is given: a config identifier validated at split level is an identifier error, and dataset validation reads only the dataset name |
| ValidatorProperties.ConfigWithOnePendingSplit | src/validator.rs:417-438 | three splits, two fully capable and one not cached yet, give all five capabilities and progress 2/3 |
| ValidatorProperties.DatasetWithoutConfigs | src/validator.rs:465-469 | a dataset with no configs proves nothing and has progress 1 |
| MockStore.CheckSuccessfulResponse | src/validator.rs:304-311 | a probe answers the stored flag exactly when its cache key is stored; a missing key is a data-access error |
| MockStore.GetParquetMetadata | src/validator.rs:313-320 | metadata is found exactly under `dataset:config`; a missing key is `MetadataNotFound` naming that key |
| MockStore.GetSplitNames | src/validator.rs:322-329 | split names are found exactly under `dataset:config`; a missing key is a data-access error |
| MockStore.GetConfigNames | src/validator.rs:331-337 | config names are found exactly under the dataset name; a missing key is a data-access error |
| MockStore.GetCachedValidation | src/validator.rs:339-346 | a cached answer is found exactly under its cache key; a missing key is a cache error, which aggregation counts as pending |
| MockStore.HasIndexableColumns | src/validator.rs:348-350 | no contract of its own; DefaultFeaturesIndexable and SplitAllChecksPass use it as the "some column type mentions string or text" test |
| MockStore.SeedDatasets | src/validator.rs:246-292 | seeding only adds entries; what it adds is stated by SeedDatasetsAdds, SeedDatasetsKeeps and SeedDatasetsUniform |
| MockStore.DefaultMock | src/validator.rs:246-292 | no contract of its own; DefaultMockSplitLacksViewer, DefaultMockConfig and DefaultMockDataset state what validating against it reports |
| MockProperties.SeedDatasetsKeeps | src/validator.rs:246-292 | seeding never stores, under a well-formed key, a value other than the one expected from that key's entity and kind |
| MockProperties.SeedDatasetsAdds | src/validator.rs:251-290 | every key the loops write for a listed dataset, config and split is present afterwards, together with its metadata, split-name and config-name entries |
| MockProperties.SeedDatasetsUniform | src/validator.rs:252-261 | every stored metadata, split list and config list is the seeded one |
| MockProperties.SeedDatasetsOnlyListed | src/validator.rs:251-252 | a dataset that is not listed gets no config names |
| MockProperties.SeedDatasetsSkipConfigViewer | src/validator.rs:263-266 | the crate's seeding never stores a viewer answer under a config-level key |
| MockProperties.DefaultFeaturesIndexable | src/validator.rs:257-259 | the seeded schema, with "text" of type "string", has an indexable column |
| MockProperties.SeededConfigAnswers | src/validator.rs:252-289 | every seeded dataset and config answers its metadata, split names, config names and cached config result as seeded |
| MockProperties.SeededAnswers | src/validator.rs:246-350 | every seeded split answers its probes and cached result as seeded, with statistics off only for "validation" |
| MockScenarios.SeededSplitValidation | src/validator.rs:374-403 | a seeded split validates with preview, search and filter; statistics holds outside "validation"; viewer holds exactly when viewer answers are keyed by config |
| MockScenarios.DefaultMockSplitLacksViewer | src/main.rs:248-258 | on the crate's default store, `mock/dataset/default/train` validates with four capabilities: viewer is missing |
| MockScenarios.CorrectedMockSplitHasAll | src/validator.rs:385-386 | with viewer answers stored under the config key that split validation queries, the same split shows all five |
| MockScenarios.AllContribute | src/validator.rs:417-430 | when every child contributes, nothing is pending and a capability holds exactly when some child's content has it |
| MockScenarios.SeededConfigValidation | src/validator.rs:405-439 | a seeded config validates with progress 1, and a capability holds exactly when some split's seeded result has it |
| MockScenarios.SeededDatasetValidation | src/validator.rs:441-472 | a seeded dataset with at least one config validates to all five capabilities with progress 1 |
| MockScenarios.DefaultMockConfig | src/validator.rs:270-278 | the default config of `mock/dataset` aggregates to all five, because "train" supplies statistics |
| MockScenarios.DefaultMockDataset | src/validator.rs:281-289 | the default `mock/dataset` validates to all five with progress 1 |
| MockScenarios.UnseededDatasetFails | src/validator.rs:331-337 | a dataset the store was not seeded with fails with a data-access error |
| MockScenarios.DefaultMockUnknownDataset | src/validator.rs:331-337 | the default store rejects `unknown/dataset` |
| ParquetValidator.SplitNameOf | src/parquet_validator.rs:183 | the split name is a prefix of the file name without '-', ending at the first '-' or at the end |
| ParquetValidator.SplitNameOfChunk | src/parquet_validator.rs:183 | the converter's chunk names `{split}-...` give back their split, for any split name without '-' |
| ParquetValidator.SplitNameOfWithoutDash | src/parquet_validator.rs:183 | a file name without '-' is its own split name |
| ParquetValidator.FileInfoOf | src/parquet_validator.rs:171-192 | the info carries the file name, row count and size unchanged; the columns are the schema's columns and their count; the split name is SplitNameOf of the file name, a prefix of it |
| ParquetValidator.ZipAgree | src/parquet_validator.rs:219-223 | zipping compares name and type position by position, up to the shorter schema |
| ParquetValidator.CheckSchemaConsistency | src/parquet_validator.rs:211-225 | true for no or one schema; otherwise true exactly when every schema has the first one's length and the same (name, type) at every position |
| ParquetValidator.ConsistencyIsPairwise | src/parquet_validator.rs:211-225 | comparing with the first schema is the same as comparing every pair |
| ParquetValidator.NullabilityIgnored | src/parquet_validator.rs:218-223 | schemas that differ only in nullability are consistent; schemas of different lengths are not |
| ParquetValidator.GroupBySplits | src/parquet_validator.rs:228-248 | one group per split name that occurs; each group holds exactly that split's files in order, their count and their row and byte sums |
| ParquetValidator.AddFileKeepsMatch | src/parquet_validator.rs:231-245 | one loop iteration keeps every group equal to the reference group of the files seen so far |
| ParquetValidator.GroupsPartitionTotals | src/parquet_validator.rs:228-248 | summed over distinct keys that cover every split, the per-split sums give the sum over all files |
| ParquetValidator.GroupedTotals | src/parquet_validator.rs:78-101 | summed over the keys of the grouping, the groups' rows and bytes are the report's totals |
| ParquetValidator.AssessCapabilities | src/parquet_validator.rs:254-255 | viewer holds exactly when there is a file |
| ParquetValidator.AssessMeaning | src/parquet_validator.rs:251-278 | a capability is assessed exactly when some file shows it on its own |
| ParquetValidator.AssessFlags | src/parquet_validator.rs:251-278 | preview, filter, search and statistics each hold exactly when some file has rows, more than one column, a term/text/content column or a count/id/timestamp column |
| ParquetValidator.AssessConcat | src/parquet_validator.rs:251-278 | the assessment of a concatenation is the merge of the parts' assessments |
| ParquetValidator.AssessSingle | src/parquet_validator.rs:251-278 | a single file is assessed as it shows on its own |
| ParquetValidator.ColumnExamples | src/parquet_validator.rs:261-275 | (a mirror of the crate's test; no general property) column names match by substring: "context" counts as text, "video_id" as numeric, "label" as neither |
| ParquetValidator.CollectReads | src/parquet_validator.rs:82-92 | reading succeeds exactly when every file's info and schema read succeeds, keeping them in order; otherwise the error is that of the first failing read, info before schema |
| ParquetValidator.BuildReport | src/parquet_validator.rs:62-121 | no files is a data-access error; the report exists exactly when every read and the sample read succeed; it then counts the files, sums rows and bytes, groups by split, checks consistency, assesses capabilities with viewer on, and carries the samples |
| ReportDisplay.TruncateAsWritten | src/parquet_validator.rs:420-424 | up to 50 bytes a value is unchanged; a longer value becomes its first 47 bytes plus "...", 50 bytes in all, and the slice fails exactly when byte 47 is inside a character |
| ReportDisplay.AsWrittenPanicsOnMultibyte | src/parquet_validator.rs:420-424 | thirty two-byte characters make the slice fail |
| ReportDisplay.TruncateDisplay | src/parquet_validator.rs:420-424 | the corrected truncation keeps a value of at most 50 bytes; it cuts a longer one at the last character boundary at or before byte 47 and appends "...", never exceeding 50 bytes |
| ReportDisplay.CorrectedAgreesWhereDefined | src/parquet_validator.rs:420-424 | wherever the original slice succeeds, the corrected truncation gives the same bytes |
| ReportDisplay.AsciiNeverPanics | src/parquet_validator.rs:420-424 | on ASCII values the original never fails and equals the corrected truncation |
| ReportDisplay.TruncateIdempotent | src/parquet_validator.rs:420-424 | truncating twice is truncating once |
| ReportDisplay.CorrectedOnMultibyte | src/parquet_validator.rs:420-424 | on the failing value the corrected cut falls at byte 46, a character start |
| HfConverter.SplitOf | src/hf_dataset_converter.rs:298-307 | a group goes to train exactly when its first character is an ASCII letter, and to validation exactly when it is an ASCII digit; the empty name counts as 'a' |
| HfConverter.PartitionGroups | src/hf_dataset_converter.rs:294-307 | the three lists are the groups of each split in their order, and together they hold every group exactly once |
| HfConverter.PartitionIsPermutation | src/hf_dataset_converter.rs:298-307 | the three splits' groups together are a permutation of all groups |
| HfConverter.SplitExamples | src/hf_dataset_converter.rs:299-306 | (a mirror of the crate's test; no general property) "apple", "Zed" and "" go to train, "7up" to validation, "_x" and "été" to test |
| HfConverter.Loadable | src/hf_dataset_converter.rs:347-354 | the ids kept are exactly the listed ids whose term loads, and there are no more of them than listed ids |
| HfConverter.LoadedRows | src/hf_dataset_converter.rs:346-356 | one row per listed id that loads, in listed order: row j carries the j-th loadable id, the term that id loads to, and the group; every id loads exactly when there are as many rows as ids |
| HfConverter.SplitRows | src/hf_dataset_converter.rs:342-362 | every collected row belongs to one of the split's groups, carries one of the ids that group lists, and holds the term that id loads to |
| HfConverter.SplitRowsSingle | src/hf_dataset_converter.rs:342-362 | a single group's rows are its loaded rows, or none when its ids cannot be listed |
| HfConverter.SplitRowsAppend | src/hf_dataset_converter.rs:342-362 | the rows of consecutive groups are concatenated in group order |
| HfConverter.SplitRowsCount | src/hf_dataset_converter.rs:342-362 | a split has at most as many rows as its groups have term ids, and exactly as many when every term loads |
| HfConverter.CountSizes | src/hf_dataset_converter.rs:521-535 | the train, validation and test sizes add up to the total |
| HfConverter.CountSizesMatchesPartition | src/hf_dataset_converter.rs:521-535 | a split's size is the number of term ids of the groups that the partition assigns to it |
| HfConverter.CountSizesTotal | src/hf_dataset_converter.rs:521-535 | the loop's total is the number of term ids of all groups |
| HfConverter.CreateDatasetInfo | src/hf_dataset_converter.rs:512-596 | fails exactly when the group names cannot be listed, with that error; otherwise there are exactly the splits train, validation and test, each named after its key; each split's example count is the number of term ids its groups list, whether or not the terms load, with 200 bytes per example; the dataset and download sizes are 200 bytes per listed id over all groups |
| HfConverter.DatasetInfoMatchesWrittenRows | src/hf_dataset_converter.rs:521-535 | when every term loads, a split's recorded example count is the number of rows written for it |
| HfConverter.Offsets | src/hf_dataset_converter.rs:438-446 | offsets start at 0, have one more entry than rows, and grow by each row's name count (0 when absent); the last offset is the number of flattened names; each row's names lie between its two offsets |
| HfConverter.FlattenSlice | src/hf_dataset_converter.rs:431-436 | in the flattened list, the names of row j lie between the lengths of the rows before it and up to it |
| HfConverter.SplitFiles | src/hf_dataset_converter.rs:364-381 | no rows give no file; otherwise there are ceil(n/10000) chunks, each holding 1 to 10000 rows, whose concatenation is the rows; a lone chunk is `{split}-00000-of-00001.parquet`, and several are `{split}-{idx:05}-of-{count:05}.parquet` |
| HfConverter.IndexedNameInjective | src/hf_dataset_converter.rs:380 | different chunk indexes give different file names |
| HfConverter.SplitFileNamesDistinct | src/hf_dataset_converter.rs:377-381 | the files written for one split have pairwise distinct names |
| HfConverter.SingleChunkNameIsIndexed | src/hf_dataset_converter.rs:377-380 | the single-chunk name is the indexed name of chunk 0 of 1 |
| HfConverter.IndexedName | src/hf_dataset_converter.rs:380 | no contract of its own; IndexedNameInjective states that it tells chunks apart |
| HfConverter.ChunkFileName | src/hf_dataset_converter.rs:377-381 | no contract of its own; SplitFiles, SplitFileNamesDistinct and SingleChunkNameIsIndexed state the names it gives |
| Seqs.CeilDiv | src/hf_dataset_converter.rs:380 | `(n + size - 1) / size` is the ceiling of n / size: the least q with n <= q * size |
| Seqs.Chunks | src/hf_dataset_converter.rs:373 | chunks concatenate back to the input; there are ceil(n/size) of them; each is non-empty and at most `size` long; all but the last are full |
| Strings.IndexOf | src/rust_analyzer_extractor.rs:1316 | `find` gives the first position where the pattern occurs, or none when it occurs nowhere |
| Strings.Trim | src/rust_analyzer_extractor.rs:1319 | no contract of its own; TrimSpec, TrimIdempotent and TrimEmptyIffBlank state its meaning |
| Strings.TrimSpec | src/rust_analyzer_extractor.rs:1319 | `trim` returns a slice of the input whose cut-off ends are whitespace, and which neither starts nor ends with whitespace |
| Strings.TrimIdempotent | src/rust_analyzer_extractor.rs:1319 | trimming twice is trimming once |
| Strings.TrimEmptyIffBlank | src/rust_analyzer_extractor.rs:861 | a line trims to nothing exactly when it is all whitespace |
| Strings.Decimal | src/rust_analyzer_extractor.rs:866 | the rendering is a non-empty string of digits in canonical form: its first digit is '0' only for 0, and it has one digit exactly for numbers below ten |
| Strings.ParseDecimalRoundTrip | src/rust_analyzer_extractor.rs:866 | the decimal rendering of a number reads back as that number |
| Strings.DecimalInjective | src/rust_analyzer_extractor.rs:866 | different numbers render differently |
| Strings.Pad5 | src/hf_dataset_converter.rs:380 | the rendering is the decimal rendering left-padded with '0' to width max(5, number of digits), never truncated |
| Strings.Pad5RoundTrip | src/hf_dataset_converter.rs:380 | the zero-padded rendering of a number reads back as that number |
| Strings.Pad5Injective | src/hf_dataset_converter.rs:380 | different numbers have different zero-padded renderings |
| RustAnalyzer.PhaseName | src/rust_analyzer_extractor.rs:116-128 | every phase name is a non-empty snake_case word |
| RustAnalyzer.PhaseNameInjective | src/rust_analyzer_extractor.rs:116-128 | different phases have different names |
| RustAnalyzer.PhaseDir | src/rust_analyzer_extractor.rs:476 | no contract of its own; PhaseDirInjective states that phases get different directories |
| RustAnalyzer.PhaseDirInjective | src/rust_analyzer_extractor.rs:476 | different phases write to different `{name}-phase` directories |
| RustAnalyzer.NextProcessingOrder | src/rust_analyzer_extractor.rs:1232-1235 | the order handed out exceeds the counter, and the counter becomes that order |
| RustAnalyzer.IssueCountsUp | src/rust_analyzer_extractor.rs:1232-1235 | k successive calls hand out the counter plus 1 up to the counter plus k, and advance the counter by k |
| RustAnalyzer.FreshOrdersStartAtOne | src/rust_analyzer_extractor.rs:361-367 | after `new` the first order is 1 and later ones strictly increase |
| RustAnalyzer.DetectElementType | src/rust_analyzer_extractor.rs:1267-1283 | a line is a function exactly when it contains "fn "; "other" only when it contains neither "fn " nor "use " |
| RustAnalyzer.DetectIsFirstMatch | src/rust_analyzer_extractor.rs:1267-1283 | the type is that of the first keyword in the order fn, struct, enum, impl, let, use that the line contains, else "other" |
| RustAnalyzer.FirstMatchPicksFirst | src/rust_analyzer_extractor.rs:1267-1283 | the first-match rule picks the earliest keyword that occurs |
| RustAnalyzer.FirstMatchOther | src/rust_analyzer_extractor.rs:1280-1282 | the first-match rule gives "other" when no keyword occurs |
| RustAnalyzer.DetectFunctionExample | src/rust_analyzer_extractor.rs:1584 | (a mirror of the crate's test; no general property) `fn main() {` is a function |
| RustAnalyzer.DetectStructExample | src/rust_analyzer_extractor.rs:1585 | (a mirror of the crate's test; no general property) `struct Point {` is a struct |
| RustAnalyzer.DetectEnumExample | src/rust_analyzer_extractor.rs:1586 | (a mirror of the crate's test; no general property) `enum Color {` is an enum |
| RustAnalyzer.DetectBindingExample | src/rust_analyzer_extractor.rs:1587 | (a mirror of the crate's test; no general property) `let x = 5;` is a variable |
| RustAnalyzer.After | src/rust_analyzer_extractor.rs:1316-1317 | `line.find(kw)` then slicing after it: there is a rest exactly when the line contains the keyword, and the rest is the line's tail that follows its first occurrence |
| RustAnalyzer.AfterAt | src/rust_analyzer_extractor.rs:1316-1317 | when the keyword first occurs right after a prefix, the rest is everything after that occurrence |
| RustAnalyzer.FnName | src/rust_analyzer_extractor.rs:1316-1321 | a function name exists exactly when the line contains "fn " and a '(' follows its first occurrence; it is trimmed and holds no '(' |
| RustAnalyzer.StructName | src/rust_analyzer_extractor.rs:1324-1329 | a struct name exists exactly when the line contains "struct " and a space follows its first occurrence; it is trimmed and holds no space |
| RustAnalyzer.ExtractElementName | src/rust_analyzer_extractor.rs:1314-1332 | the function name whenever there is one, and otherwise the struct name (or none); the result is trimmed; a line without either keyword has no name |
| RustAnalyzer.FnNameRoundTrip | src/rust_analyzer_extractor.rs:1316-1321 | `PREFIX fn NAME(...` gives back NAME, trimmed, whenever that "fn " is the line's first |
| RustAnalyzer.IndentedFnExample | src/rust_analyzer_extractor.rs:1316-1321 | an indented `pub fn NAME(...` method header gives back NAME, trimmed |
| RustAnalyzer.StructNameRoundTrip | src/rust_analyzer_extractor.rs:1324-1329 | `PREFIX struct NAME ...` gives back NAME, trimmed, whenever that "struct " is the line's first and the line has no function name |
| RustAnalyzer.ExtractVariableName | src/rust_analyzer_extractor.rs:1363-1378 | a name exists exactly when the line contains "let " and '=' or ':' follows its first occurrence; it is trimmed and holds no '=' |
| RustAnalyzer.VariableNameRoundTrip | src/rust_analyzer_extractor.rs:1367-1370 | `PREFIX let NAME = ...` gives back NAME, trimmed, under the code as written, whenever that "let " is the line's first |
| RustAnalyzer.VariableNameColonRoundTrip | src/rust_analyzer_extractor.rs:1364-1376 | with no '=' after it, `PREFIX let NAME: ...` gives back NAME, trimmed, under the code as written |
| RustAnalyzer.VariableNameSimpleExample | src/rust_analyzer_extractor.rs:1357-1358 | (the documented example) `let x = 5;` names "x" |
| RustAnalyzer.VariableNameIndentedExample | src/rust_analyzer_extractor.rs:1363-1378 | the same binding indented by four spaces also names "x" |
| RustAnalyzer.UnannotatedBindingsAgree | src/rust_analyzer_extractor.rs:1363-1378 | on lines without ':', the code as written and the documented behaviour agree |
| RustAnalyzer.AnnotationKeptAsWritten | src/rust_analyzer_extractor.rs:1363-1378 | `let NAME: TYPE = VALUE` gives back the name with its type annotation |
| RustAnalyzer.ExtractBindingName | src/rust_analyzer_extractor.rs:1334-1362 | the documented name exists exactly when the text after "let " holds '=' or ':'; it is trimmed and holds neither |
| RustAnalyzer.BindingNameRoundTrip | src/rust_analyzer_extractor.rs:1341-1342 | `PREFIX let NAME = ...` and `PREFIX let NAME: ...` both give back NAME, trimmed, whenever that "let " is the line's first |
| RustAnalyzer.AnnotationDroppedAsDocumented | src/rust_analyzer_extractor.rs:1360-1361 | `let NAME: TYPE = VALUE` gives back NAME alone, as documented |
| RustAnalyzer.AnnotatedBindingsDisagree | src/rust_analyzer_extractor.rs:1356-1378 | the code and its documentation disagree on every annotated binding |
| RustAnalyzer.RecordId | src/rust_analyzer_extractor.rs:866 | no contract of its own; RecordIdInjective and RecordIdDistinct state that ids tell lines apart |
| RustAnalyzer.RecordIdInjective | src/rust_analyzer_extractor.rs:866 | `{path}:{line}:{phase}` ids of one file and phase determine the line |
| RustAnalyzer.LineRecord | src/rust_analyzer_extractor.rs:865-886 | a line's record has the `{path}:{line}:parsing` id, the 1-based line, column 1, the phase name, the given order, the detected type and name, the versions and the line as snippet; the neighbouring lines are its context, absent exactly on the first line (before) and on the last (after) |
| RustAnalyzer.NonBlankLinesMeaning | src/rust_analyzer_extractor.rs:859-863 | the kept line indexes are in range and increasing; they are exactly the non-blank lines |
| RustAnalyzer.ExtractParsingData | src/rust_analyzer_extractor.rs:859-889 | one record per non-blank line, in order, each describing its line and taking the next processing order; the counter advances by the number of records |
| RustAnalyzer.ParsedLinesAreNonBlank | src/rust_analyzer_extractor.rs:860-863 | every record's source snippet is a line whose trim is non-empty |
| RustAnalyzer.NonBlankLinesAreParsed | src/rust_analyzer_extractor.rs:859-889 | every line whose trim is non-empty gets a record with its line number |
| RustAnalyzer.ParsedRecordsOrdered | src/rust_analyzer_extractor.rs:866-871 | later records have later lines, larger processing orders and different ids |
| RustAnalyzer.ParsingTestFile | src/rust_analyzer_extractor.rs:1566-1578 | the test file's three lines all get records, the first a function, in the "parsing" phase |
| RustAnalyzer.PlanPhaseFiles | src/rust_analyzer_extractor.rs:479-519 | no records give no file; at most `max` records give one `data.parquet`; more give ceil(n/max) files of 1 to `max` records each, which concatenate back to the records and are named `data-{idx:05}-of-{count:05}.parquet`; a `max` of 0 with records is the division by zero |
| RustAnalyzer.PhaseFileNamesDistinct | src/rust_analyzer_extractor.rs:510-513 | the files planned for one phase have pairwise distinct names |

## Left out

- Arrow and Parquet reading, writing and schema construction are left out. They are foreign library calls. File infos, schemas and sample records enter as already-read values or errors.
- Directory traversal is left out, because it is I/O. This covers `find_parquet_files`, `fs::metadata` sizes and reading source files. A source file enters as its sequence of lines, so the line splitting of `str::lines` is not modelled.
- `SolfunmemeDataAccess` is left out, because its answers depend on disk contents. The converter's term store is a parameter that lists term ids and loads terms.
- The f64 size estimate of `write_phase_to_parquet` is left out, because it is floating point. The records-per-file bound `max` is a parameter.
- Printing is left out, apart from the value truncation. This covers report and MB printouts and warnings.
- The JSON export of the report, the dataset card the converter writes, and the features and texts of `dataset_info.json` are left out. They are constant text or I/O.
- Sample-record extraction (`extract_sample_records`) is left out, because it reads Arrow arrays. The dataset-name fallback "unknown" of `extract_dataset_name` is also left out, because it is path handling.
- The file-name fallback "unknown" of `validate_parquet_file` is left out, because the file name is an input. The split-name fallback beside it is unreachable, because `split('-')` always yields a first piece.
- Record fields built from mock JSON, timing or the clock are left out: `syntax_data`, `processing_time_ms`, `timestamp`, `element_signature` and the always-None data fields. `SystemTime` cannot be modelled purely.
- The name-resolution and type-inference phases, and the other phases' extractors, are left out. They only produce mock records. This is also the only place `extract_variable_name` is called.
- `ParquetValidator::new` and the CLI wrapper `validate_parquet_dataset` are left out, because they only check that a path exists and write files.
- Validator.Progress: progress is an exact fraction instead of an f64 division, so rounding is not modelled.
- RustAnalyzer.NextProcessingOrder: the counter is unbounded, so `u32` wrap-around after 2^32 - 1 calls is not modelled.
- HfConverter.Offsets: offsets are unbounded, so `i32` overflow past 2^31 - 1 names is not modelled.
- ParquetValidator.BuildReport: row and byte sums are unbounded, so `usize`/`u64` overflow is not modelled. Its file infos are inputs and are not constrained to be FileInfoOf values, so it does not promise that a split name or column count agrees with the file name and columns; FileInfoOf states how `validate_parquet_file` builds each info.
- HfConverter.CreateDatasetInfo: sizes are unbounded, so `u64` overflow of `count * 200` is not modelled.
- RustAnalyzer.ExtractElementName: strings are sequences of characters, while Rust's `find` and slicing use byte offsets. Every pattern and separator here is ASCII, so the results agree.

## Findings

| source | as written | input that shows it | evidently intended | confidence | as-written member | corrected member |
|---|---|---|---|---|---|---|
| src/validator.rs:266 | seeding stores the viewer answer under the split's cache key, but `validate_split` asks under the parent config's key (lines 385-386) | `validate_split("mock/dataset", "default", "train", MockDataAccess::default())` | the seeded split reports the viewer capability | not executed | MockScenarios.DefaultMockSplitLacksViewer | MockScenarios.CorrectedMockSplitHasAll |
| src/parquet_validator.rs:420-424 | `&value[..47]` slices by byte, and panics when byte 47 is inside a multi-byte character | a sample value of thirty 'é' (60 bytes) | cut at a character boundary at or before byte 47 | not executed | ReportDisplay.AsWrittenPanicsOnMultibyte | ReportDisplay.TruncateDisplay |
| src/rust_analyzer_extractor.rs:1363-1378 | cuts at the first '=' before trying ':', so a type annotation stays in the name | `let mut count: i32 = 0;` gives "mut count: i32" | "mut count", as the doc comment at lines 1360-1361 states | not executed | RustAnalyzer.AnnotationKeptAsWritten | RustAnalyzer.AnnotationDroppedAsDocumented |
