/** The pure parts of `src/parquet_validator.rs`: split names from file
    names, schema consistency, grouping files by split, the capability
    assessment and the report totals. Reading Parquet files is a parameter:
    each file arrives as an already-read info and schema, or as the error
    reading it produced. */
module ParquetValidator {
  import opened Wrappers
  import opened Strings
  import opened Capabilities
  import opened Validator

  // ---------------------------------------------------------------------------
  // Split names
  // ---------------------------------------------------------------------------

  /** `filename.split('-').next()`: the prefix before the first '-', or the
      whole name when it has none. (The "unknown" fallback is unreachable:
      splitting always yields a first piece.) */
  function SplitNameOf(filename: string): (r: string)
    ensures r <= filename
    ensures '-' !in r
    ensures |r| == |filename| || filename[|r|] == '-'
  {
    if |filename| == 0 || filename[0] == '-' then ""
    else [filename[0]] + SplitNameOf(filename[1..])
  }

  /** Partner: the converter's chunk names `{split}-...` give back their split,
      for any split name without '-'. */
  lemma {:induction false} SplitNameOfChunk(split: string, rest: string)
    requires '-' !in split
    ensures SplitNameOf(split + "-" + rest) == split
  {
    if |split| > 0 {
      assert (split + "-" + rest)[1..] == split[1..] + "-" + rest;
      SplitNameOfChunk(split[1..], rest);
    } else {
      assert (split + "-" + rest)[0] == '-';
    }
  }

  lemma SplitNameOfWithoutDash(filename: string)
    requires '-' !in filename
    ensures SplitNameOf(filename) == filename
  {
  }

  // ---------------------------------------------------------------------------
  // File infos and schemas
  // ---------------------------------------------------------------------------

  /** `ParquetFileInfo`. */
  datatype FileInfo = FileInfo(
    filename: string,
    numRows: nat,
    numColumns: nat,
    columns: seq<string>,
    fileSizeBytes: nat,
    splitName: string)

  /** What `validate_parquet_file` reports once the file has been read: the
      column count and names come from the schema, the split from the file
      name, and the name, row count and size are carried over. */
  function FileInfoOf(filename: string, numRows: nat, columns: seq<string>, fileSizeBytes: nat): (r: FileInfo)
    ensures r.filename == filename && r.numRows == numRows && r.fileSizeBytes == fileSizeBytes
    ensures r.numColumns == |r.columns| && r.columns == columns
    ensures r.splitName == SplitNameOf(filename) && r.splitName <= filename
  {
    FileInfo(filename, numRows, |columns|, columns, fileSizeBytes, SplitNameOf(filename))
  }

  /** An Arrow field: name, data type (as its printed name) and nullability. */
  datatype Field = Field(name: string, dataType: string, nullable: bool)

  type Schema = seq<Field>

  predicate FieldsAgree(a: Field, b: Field) {
    a.name == b.name && a.dataType == b.dataType
  }

  /** `zip(...).all(...)`: pairs up to the shorter schema agree. */
  function ZipAgree(a: Schema, b: Schema): (r: bool)
    ensures r <==> forall j :: 0 <= j < |a| && j < |b| ==> FieldsAgree(a[j], b[j])
  {
    if |a| == 0 || |b| == 0 then true
    else
      assert forall j :: 0 < j < |a| && j < |b| ==> a[1..][j - 1] == a[j] && b[1..][j - 1] == b[j];
      FieldsAgree(a[0], b[0]) && ZipAgree(a[1..], b[1..])
  }

  /** Same length and the same (name, type) at every position. */
  predicate SameShape(a: Schema, b: Schema) {
    |a| == |b| && forall j :: 0 <= j < |a| ==> FieldsAgree(a[j], b[j])
  }

  function AllMatchFirst(schemas: seq<Schema>, first: Schema): (r: bool)
    ensures r <==> forall i :: 0 <= i < |schemas| ==> SameShape(schemas[i], first)
  {
    if |schemas| == 0 then true
    else
      var s := schemas[0];
      assert forall i :: 0 < i < |schemas| ==> schemas[1..][i - 1] == schemas[i];
      (|s| == |first| && ZipAgree(s, first)) && AllMatchFirst(schemas[1..], first)
  }

  /** `check_schema_consistency`: every schema has the first one's shape. */
  function CheckSchemaConsistency(schemas: seq<Schema>): (r: bool)
    ensures |schemas| <= 1 ==> r
    ensures r <==> forall i :: 0 <= i < |schemas| ==> SameShape(schemas[i], schemas[0])
  {
    if |schemas| == 0 then true else AllMatchFirst(schemas, schemas[0])
  }

  /** Partner: comparing against the first schema is the same as comparing
      every pair, because having the same shape is an equivalence. */
  lemma ConsistencyIsPairwise(schemas: seq<Schema>)
    ensures CheckSchemaConsistency(schemas) <==>
      forall i, j :: 0 <= i < |schemas| && 0 <= j < |schemas| ==> SameShape(schemas[i], schemas[j])
  {
    if CheckSchemaConsistency(schemas) {
      forall i, j | 0 <= i < |schemas| && 0 <= j < |schemas|
        ensures SameShape(schemas[i], schemas[j])
      {
        assert SameShape(schemas[i], schemas[0]) && SameShape(schemas[j], schemas[0]);
      }
    }
  }

  /** Nullability is not compared: schemas that differ only there agree. */
  lemma NullabilityIgnored(name: string, dataType: string)
    ensures CheckSchemaConsistency([[Field(name, dataType, true)], [Field(name, dataType, false)]])
    ensures !CheckSchemaConsistency([[Field(name, dataType, true)], []])
  {
    var schemas := [[Field(name, dataType, true)], [Field(name, dataType, false)]];
    assert SameShape(schemas[1], schemas[0]);
    var bad: seq<Schema> := [[Field(name, dataType, true)], []];
    assert !SameShape(bad[1], bad[0]);
  }

  // ---------------------------------------------------------------------------
  // Grouping by split
  // ---------------------------------------------------------------------------

  /** `SplitValidationInfo`. */
  datatype SplitInfo = SplitInfo(
    splitName: string,
    numFiles: nat,
    numRows: nat,
    sizeBytes: nat,
    files: seq<FileInfo>)

  function Rows(f: FileInfo): nat { f.numRows }
  function Size(f: FileInfo): nat { f.fileSizeBytes }

  /** The sum of `measure` over `files`. */
  function Total(files: seq<FileInfo>, measure: FileInfo -> nat): nat {
    if |files| == 0 then 0 else Total(files[..|files| - 1], measure) + measure(files[|files| - 1])
  }

  /** Reference definition of a group: the files of one split, in order. */
  function FilesOf(files: seq<FileInfo>, split: string): (r: seq<FileInfo>)
    ensures |r| <= |files|
    ensures forall g :: 0 <= g < |r| ==> r[g].splitName == split && r[g] in files
    ensures r != [] ==> IsSplitOf(files, split)
  {
    if |files| == 0 then []
    else
      var init := files[..|files| - 1];
      var last := files[|files| - 1];
      var r := FilesOf(init, split);
      if last.splitName == split then
        assert files[|files| - 1].splitName == split;
        r + [last]
      else
        assert IsSplitOf(init, split) ==> IsSplitOf(files, split) by {
          if IsSplitOf(init, split) {
            var i :| 0 <= i < |init| && init[i].splitName == split;
            assert files[i] == init[i];
          }
        }
        r
  }

  /** The group a split's files make, by the reference definition. */
  function GroupOf(files: seq<FileInfo>, split: string): SplitInfo {
    var fs := FilesOf(files, split);
    SplitInfo(split, |fs|, Total(fs, Rows), Total(fs, Size), fs)
  }

  /** One iteration of the loop in `group_by_splits`: the `entry` of the
      file's split, created empty when missing, then counted in. */
  function AddFile(groups: map<string, SplitInfo>, f: FileInfo): map<string, SplitInfo> {
    groups[f.splitName := CountIn(Entry(groups, f.splitName), f)]
  }

  /** `entry(split).or_insert_with(...)`: the split's group, or an empty one. */
  function Entry(groups: map<string, SplitInfo>, split: string): SplitInfo {
    if split in groups then groups[split] else SplitInfo(split, 0, 0, 0, [])
  }

  /** One more file counted into a group. */
  function CountIn(g: SplitInfo, f: FileInfo): SplitInfo {
    SplitInfo(g.splitName, g.numFiles + 1, g.numRows + f.numRows, g.sizeBytes + f.fileSizeBytes, g.files + [f])
  }

  predicate IsSplitOf(files: seq<FileInfo>, split: string) {
    exists i :: 0 <= i < |files| && files[i].splitName == split
  }

  /** `groups` holds one group per split of `files`, each the reference group. */
  ghost predicate GroupsMatch(groups: map<string, SplitInfo>, files: seq<FileInfo>) {
    && (forall k :: k in groups <==> IsSplitOf(files, k))
    && (forall k :: k in groups ==> groups[k] == GroupOf(files, k))
  }

  /** `group_by_splits`: one group per split name that occurs, and each group
      is exactly the reference group: the split's files in order, their count
      and their sums. */
  function GroupBySplits(files: seq<FileInfo>): (r: map<string, SplitInfo>)
    ensures GroupsMatch(r, files)
  {
    if |files| == 0 then map[]
    else
      var init := files[..|files| - 1];
      var f := files[|files| - 1];
      var m := GroupBySplits(init);
      assert files == init + [f];
      AddFileKeepsMatch(m, init, f);
      AddFile(m, f)
  }

  lemma TotalSnoc(fs: seq<FileInfo>, f: FileInfo, measure: FileInfo -> nat)
    ensures Total(fs + [f], measure) == Total(fs, measure) + measure(f)
  {
    assert (fs + [f])[..|fs|] == fs;
  }

  lemma FilesOfSnoc(init: seq<FileInfo>, f: FileInfo, split: string)
    ensures FilesOf(init + [f], split) == FilesOf(init, split) + (if f.splitName == split then [f] else [])
  {
    assert (init + [f])[..|init|] == init;
  }

  lemma IsSplitOfSnoc(init: seq<FileInfo>, f: FileInfo, split: string)
    ensures IsSplitOf(init + [f], split) <==> IsSplitOf(init, split) || f.splitName == split
  {
    var files := init + [f];
    if IsSplitOf(init, split) {
      var i :| 0 <= i < |init| && init[i].splitName == split;
      assert files[i] == init[i];
    }
    if IsSplitOf(files, split) {
      var i :| 0 <= i < |files| && files[i].splitName == split;
      if i < |init| { assert init[i] == files[i]; }
    }
    if f.splitName == split {
      assert files[|init|] == f;
    }
  }

  /** The group of the file's own split after one loop iteration. */
  lemma AddFileOwnGroup(m: map<string, SplitInfo>, init: seq<FileInfo>, f: FileInfo)
    requires GroupsMatch(m, init)
    ensures AddFile(m, f)[f.splitName] == GroupOf(init + [f], f.splitName)
  {
    var k := f.splitName;
    assert Entry(m, k) == GroupOf(init, k) by {
      if k !in m {
        assert !IsSplitOf(init, k);
        assert FilesOf(init, k) == [];
      }
    }
    GroupOfSnoc(init, f);
  }

  /** The reference group of a file's split, with that file appended. */
  lemma GroupOfSnoc(init: seq<FileInfo>, f: FileInfo)
    ensures GroupOf(init + [f], f.splitName) == CountIn(GroupOf(init, f.splitName), f)
  {
    var fs := FilesOf(init, f.splitName);
    FilesOfSnoc(init, f, f.splitName);
    TotalSnoc(fs, f, Rows);
    TotalSnoc(fs, f, Size);
  }

  /** One loop iteration keeps the groups equal to the reference groups. */
  lemma AddFileKeepsMatch(m: map<string, SplitInfo>, init: seq<FileInfo>, f: FileInfo)
    requires GroupsMatch(m, init)
    ensures GroupsMatch(AddFile(m, f), init + [f])
  {
    var files := init + [f];
    var r := AddFile(m, f);
    forall k ensures k in r <==> IsSplitOf(files, k) {
      IsSplitOfSnoc(init, f, k);
    }
    AddFileOwnGroup(m, init, f);
    forall k | k in r && k != f.splitName ensures r[k] == GroupOf(files, k) {
      FilesOfSnoc(init, f, k);
      assert FilesOf(files, k) == FilesOf(init, k) + [] == FilesOf(init, k);
      assert r[k] == m[k] == GroupOf(init, k);
    }
  }

  /** Summing a measure over each split's files, for a list of distinct keys
      covering every split, gives the sum over all files. */
  function SumOverSplits(keys: seq<string>, files: seq<FileInfo>, measure: FileInfo -> nat): nat {
    if |keys| == 0 then 0 else Total(FilesOf(files, keys[0]), measure) + SumOverSplits(keys[1..], files, measure)
  }

  /** Adding one file adds its measure under its own key and nothing under the others. */
  lemma {:induction false} SumOverSplitsStep(keys: seq<string>, init: seq<FileInfo>, f: FileInfo, measure: FileInfo -> nat)
    requires forall a, b :: 0 <= a < b < |keys| ==> keys[a] != keys[b]
    ensures SumOverSplits(keys, init + [f], measure)
         == SumOverSplits(keys, init, measure) + (if f.splitName in keys then measure(f) else 0)
  {
    if |keys| > 0 {
      var k := keys[0];
      var rest := keys[1..];
      assert keys == [k] + rest;
      assert forall a, b :: 0 <= a < b < |rest| ==> rest[a] != rest[b] by {
        forall a, b | 0 <= a < b < |rest| ensures rest[a] != rest[b] {
          assert rest[a] == keys[a + 1] && rest[b] == keys[b + 1];
        }
      }
      assert k !in rest by {
        forall b | 0 <= b < |rest| ensures rest[b] != k {
          assert rest[b] == keys[b + 1];
        }
      }
      FilesOfSnoc(init, f, k);
      var before := FilesOf(init, k);
      assert Total(FilesOf(init + [f], k), measure)
          == Total(before, measure) + (if f.splitName == k then measure(f) else 0) by {
        if f.splitName == k {
          TotalSnoc(before, f, measure);
        } else {
          assert before + [] == before;
        }
      }
      SumOverSplitsStep(rest, init, f, measure);
    }
  }

  /** Partner of `GroupBySplits`: the groups' sums add up to the totals over
      all files, for any list of distinct keys covering the splits. */
  lemma {:induction false} GroupsPartitionTotals(keys: seq<string>, files: seq<FileInfo>, measure: FileInfo -> nat)
    requires forall a, b :: 0 <= a < b < |keys| ==> keys[a] != keys[b]
    requires forall i :: 0 <= i < |files| ==> files[i].splitName in keys
    ensures SumOverSplits(keys, files, measure) == Total(files, measure)
  {
    if |files| == 0 {
      EmptySum(keys, files, measure);
    } else {
      var init := files[..|files| - 1];
      var f := files[|files| - 1];
      assert files == init + [f];
      GroupsPartitionTotals(keys, init, measure);
      SumOverSplitsStep(keys, init, f, measure);
    }
  }

  lemma {:induction false} EmptySum(keys: seq<string>, files: seq<FileInfo>, measure: FileInfo -> nat)
    requires |files| == 0
    ensures SumOverSplits(keys, files, measure) == 0
  {
    if |keys| > 0 {
      EmptySum(keys[1..], files, measure);
    }
  }

  /** The same in terms of the groups `group_by_splits` builds: summed over
      the map's keys, the groups' rows and sizes are the report's totals. */
  lemma GroupedTotals(keys: seq<string>, files: seq<FileInfo>)
    requires forall a, b :: 0 <= a < b < |keys| ==> keys[a] != keys[b]
    requires forall k :: k in GroupBySplits(files) <==> k in keys
    ensures SumOverSplits(keys, files, Rows) == Total(files, Rows)
    ensures SumOverSplits(keys, files, Size) == Total(files, Size)
  {
    var r := GroupBySplits(files);
    forall i | 0 <= i < |files| ensures files[i].splitName in keys {
      assert IsSplitOf(files, files[i].splitName);
    }
    GroupsPartitionTotals(keys, files, Rows);
    GroupsPartitionTotals(keys, files, Size);
  }

  // ---------------------------------------------------------------------------
  // Capability assessment
  // ---------------------------------------------------------------------------

  predicate SearchColumn(col: string) {
    Contains(col, "term") || Contains(col, "text") || Contains(col, "content")
  }

  predicate StatisticsColumn(col: string) {
    Contains(col, "count") || Contains(col, "id") || Contains(col, "timestamp")
  }

  predicate AnyColumn(f: FileInfo, p: string -> bool) {
    exists j :: 0 <= j < |f.columns| && p(f.columns[j])
  }

  /** What one file alone shows. */
  function FileCapabilities(f: FileInfo): ValidationResult {
    ValidationResult(true, f.numRows > 0, AnyColumn(f, SearchColumn), f.numColumns > 1, AnyColumn(f, StatisticsColumn))
  }

  /** `assess_capabilities`, which never fails: the merge of what each file
      shows; `AssessMeaning` spells the flags out. */
  function AssessCapabilities(files: seq<FileInfo>): (r: ValidationResult)
    ensures r.viewer <==> |files| > 0
  {
    if |files| == 0 then NewResult()
    else Merge(AssessCapabilities(files[..|files| - 1]), FileCapabilities(files[|files| - 1]))
  }

  /** A capability is assessed exactly when some file shows it on its own. */
  lemma {:induction false} AssessMeaning(files: seq<FileInfo>)
    ensures forall c :: AssessCapabilities(files).Has(c) <==>
      exists i :: 0 <= i < |files| && FileCapabilities(files[i]).Has(c)
  {
    if |files| > 0 {
      var n := |files| - 1;
      var init, last := files[..n], FileCapabilities(files[n]);
      var caps := seq(|files|, i requires 0 <= i < |files| => FileCapabilities(files[i]));
      assert forall i :: 0 <= i < n ==> caps[i] == FileCapabilities(init[i]);
      AssessMeaning(init);
      var r0 := AssessCapabilities(init);
      assert AssessCapabilities(files) == Merge(r0, last);
      forall c ensures AssessCapabilities(files).Has(c) <==> exists i :: 0 <= i < |files| && caps[i].Has(c) {
        if r0.Has(c) {
          var i :| 0 <= i < n && FileCapabilities(init[i]).Has(c);
          assert caps[i].Has(c);
        }
        assert last == caps[n];
      }
    }
  }

  /** Viewer when there is a file, and each other flag exactly when some file
      shows it. */
  lemma AssessFlags(files: seq<FileInfo>)
    ensures var r := AssessCapabilities(files);
      && (r.viewer <==> |files| > 0)
      && (r.preview <==> exists i :: 0 <= i < |files| && files[i].numRows > 0)
      && (r.search <==> exists i :: 0 <= i < |files| && AnyColumn(files[i], SearchColumn))
      && (r.filter <==> exists i :: 0 <= i < |files| && files[i].numColumns > 1)
      && (r.statistics <==> exists i :: 0 <= i < |files| && AnyColumn(files[i], StatisticsColumn))
  {
    var r := AssessCapabilities(files);
    AssessMeaning(files);
    assert r.preview == r.Has(Preview) && r.search == r.Has(Search);
    assert r.filter == r.Has(Filter) && r.statistics == r.Has(Statistics);
  }

  /** Partner: the assessment of a concatenation is the merge of the parts'
      assessments, so it does not depend on how the files are batched. */
  lemma {:induction false} AssessConcat(a: seq<FileInfo>, b: seq<FileInfo>)
    ensures AssessCapabilities(a + b) == Merge(AssessCapabilities(a), AssessCapabilities(b))
    decreases |b|
  {
    if |b| == 0 {
      assert a + b == a;
      MergeAlgebra(AssessCapabilities(a), NewResult(), NewResult());
    } else {
      var b', last := b[..|b| - 1], b[|b| - 1];
      var ab := a + b;
      assert ab[..|ab| - 1] == a + b';
      assert ab[|ab| - 1] == last;
      AssessConcat(a, b');
      MergeAlgebra(AssessCapabilities(a), AssessCapabilities(b'), FileCapabilities(last));
    }
  }

  lemma AssessSingle(f: FileInfo)
    ensures AssessCapabilities([f]) == FileCapabilities(f)
  {
  }

  /** Column names are matched by substring: "context" counts as text and
      "video_id" as numeric. */
  lemma ColumnExamples()
    ensures SearchColumn("context") && StatisticsColumn("video_id")
    ensures !SearchColumn("label") && !StatisticsColumn("label")
  {
    assert OccursAt("context", "text", 3);
    ContainsAt("context", "text", 3);
    assert OccursAt("video_id", "id", 6);
    ContainsAt("video_id", "id", 6);
    MissingCharNotContained("label", "term", 0);
    MissingCharNotContained("label", "text", 0);
    MissingCharNotContained("label", "content", 0);
    MissingCharNotContained("label", "count", 0);
    MissingCharNotContained("label", "id", 0);
    MissingCharNotContained("label", "timestamp", 0);
  }

  // ---------------------------------------------------------------------------
  // The report
  // ---------------------------------------------------------------------------

  /** What reading one file produced: `validate_parquet_file` then
      `get_file_schema`, each of which may fail. */
  datatype FileRead = FileRead(info: Result<FileInfo, ValidationError>, schema: Result<Schema, ValidationError>)

  predicate ReadOk(r: FileRead) {
    r.info.Success? && r.schema.Success?
  }

  /** The first error of a read, info before schema. */
  function ReadError(r: FileRead): ValidationError
    requires !ReadOk(r)
  {
    if r.info.Failure? then r.info.error else r.schema.error
  }

  /** The loop over the files: stops at the first failing read. */
  function CollectReads(loaded: seq<FileRead>): (r: Result<(seq<FileInfo>, seq<Schema>), ValidationError>)
    ensures r.Success? <==> forall i :: 0 <= i < |loaded| ==> ReadOk(loaded[i])
    ensures r.Success? ==> |r.value.0| == |loaded| && |r.value.1| == |loaded|
    ensures r.Success? ==> forall i :: 0 <= i < |loaded| ==>
      r.value.0[i] == loaded[i].info.value && r.value.1[i] == loaded[i].schema.value
    ensures r.Failure? ==>
      exists i :: 0 <= i < |loaded| && !ReadOk(loaded[i]) && r.error == ReadError(loaded[i]) && (forall j :: 0 <= j < i ==> ReadOk(loaded[j]))
  {
    if |loaded| == 0 then Success(([], []))
    else if !ReadOk(loaded[0]) then Failure(ReadError(loaded[0]))
    else
      match CollectReads(loaded[1..])
      case Failure(e) =>
        assert forall j :: 0 < j < |loaded| ==> loaded[1..][j - 1] == loaded[j];
        Failure(e)
      case Success(rest) =>
        assert forall j :: 0 < j < |loaded| ==> loaded[1..][j - 1] == loaded[j];
        Success(([loaded[0].info.value] + rest.0, [loaded[0].schema.value] + rest.1))
  }

  /** `DatasetValidationReport` (sample records are whatever the first file's
      first batch gave). */
  datatype Report = Report(
    datasetName: string,
    totalFiles: nat,
    totalRows: nat,
    totalSizeBytes: nat,
    splits: map<string, SplitInfo>,
    schemaConsistency: bool,
    validationResult: ValidationResult,
    sampleRecords: seq<map<string, string>>)

  /** `validate_dataset` after the directory listing: no files is an error;
      otherwise the first failing read is the error; otherwise the totals,
      groups, consistency and capabilities of the files read, with the sample
      records of the first file, whose reading may fail too. */
  function BuildReport(datasetName: string, loaded: seq<FileRead>,
                       samples: Result<seq<map<string, string>>, ValidationError>): (r: Result<Report, ValidationError>)
    ensures |loaded| == 0 ==> r.Failure? && r.error.DataAccessError?
    ensures r.Success? <==> |loaded| > 0 && (forall i :: 0 <= i < |loaded| ==> ReadOk(loaded[i])) && samples.Success?
    ensures r.Success? ==>
      var infos := seq(|loaded|, i requires 0 <= i < |loaded| => loaded[i].info.value);
      && r.value.totalFiles == |loaded|
      && r.value.totalRows == Total(infos, Rows)
      && r.value.totalSizeBytes == Total(infos, Size)
      && r.value.splits == GroupBySplits(infos)
      && r.value.validationResult == AssessCapabilities(infos)
      && r.value.validationResult.viewer
      && r.value.schemaConsistency == CheckSchemaConsistency(seq(|loaded|, i requires 0 <= i < |loaded| => loaded[i].schema.value))
      && r.value.sampleRecords == samples.value
  {
    if |loaded| == 0 then Failure(DataAccessError("No Parquet files found in dataset directory"))
    else
      match CollectReads(loaded)
      case Failure(e) => Failure(e)
      case Success(collected) =>
        var (infos, schemas) := collected;
        assert infos == seq(|loaded|, i requires 0 <= i < |loaded| => loaded[i].info.value);
        assert schemas == seq(|loaded|, i requires 0 <= i < |loaded| => loaded[i].schema.value);
        match samples
        case Failure(e) => Failure(e)
        case Success(records) =>
          Success(Report(datasetName, |loaded|, Total(infos, Rows), Total(infos, Size), GroupBySplits(infos),
                         CheckSchemaConsistency(schemas), AssessCapabilities(infos), records))
  }
}
