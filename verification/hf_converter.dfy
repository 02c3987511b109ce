/** The pure parts of `src/hf_dataset_converter.rs`: assigning character
    groups to splits, the collected rows and the sizes in `dataset_info.json`,
    the offsets of the `semantic_names` list column, and the chunking and
    naming of the Parquet files. The term store is a parameter. */
module HfConverter {
  import opened Wrappers
  import opened Seqs
  import opened Strings
  import opened Validator

  // ---------------------------------------------------------------------------
  // Splits by first character
  // ---------------------------------------------------------------------------

  datatype SplitKind = Train | ValidationSplit | Test

  function SplitName(k: SplitKind): string {
    match k
    case Train => "train"
    case ValidationSplit => "validation"
    case Test => "test"
  }

  predicate IsAsciiAlphabetic(c: char) {
    ('a' <= c <= 'z') || ('A' <= c <= 'Z')
  }

  predicate IsAsciiDigit(c: char) {
    '0' <= c <= '9'
  }

  /** The first character of a group name, 'a' for the empty name. */
  function FirstChar(group: string): char {
    if |group| == 0 then 'a' else group[0]
  }

  /** The split a character group belongs to. */
  function SplitOf(group: string): (k: SplitKind)
    ensures k == Train <==> IsAsciiAlphabetic(FirstChar(group))
    ensures k == ValidationSplit <==> IsAsciiDigit(FirstChar(group))
  {
    var c := FirstChar(group);
    if IsAsciiAlphabetic(c) then Train
    else if IsAsciiDigit(c) then ValidationSplit
    else Test
  }

  /** Reference definition: the groups of one split, in their order. */
  function GroupsIn(groups: seq<string>, k: SplitKind): (r: seq<string>)
    ensures |r| <= |groups|
  {
    if |groups| == 0 then []
    else
      var last := groups[|groups| - 1];
      GroupsIn(groups[..|groups| - 1], k) + (if SplitOf(last) == k then [last] else [])
  }

  /** The partition loop of `convert_to_parquet`: each group is pushed onto
      the list of its split. The three lists are the reference groups of each
      split, and together they hold every group exactly once. */
  method PartitionGroups(groups: seq<string>) returns (train: seq<string>, validation: seq<string>, test: seq<string>)
    ensures train == GroupsIn(groups, Train)
    ensures validation == GroupsIn(groups, ValidationSplit)
    ensures test == GroupsIn(groups, Test)
    ensures multiset(train) + multiset(validation) + multiset(test) == multiset(groups)
  {
    train, validation, test := [], [], [];
    var i := 0;
    while i < |groups|
      invariant 0 <= i <= |groups|
      invariant train == GroupsIn(groups[..i], Train)
      invariant validation == GroupsIn(groups[..i], ValidationSplit)
      invariant test == GroupsIn(groups[..i], Test)
    {
      var g := groups[i];
      GroupsInStep(groups, i);
      var c := FirstChar(g);
      if IsAsciiAlphabetic(c) {
        train := train + [g];
      } else if IsAsciiDigit(c) {
        validation := validation + [g];
      } else {
        test := test + [g];
      }
      i := i + 1;
    }
    assert groups[..i] == groups;
    PartitionIsPermutation(groups);
  }

  /** The three splits' groups together are the groups, each once. */
  lemma {:induction false} PartitionIsPermutation(groups: seq<string>)
    ensures multiset(GroupsIn(groups, Train)) + multiset(GroupsIn(groups, ValidationSplit)) + multiset(GroupsIn(groups, Test))
         == multiset(groups)
  {
    if |groups| > 0 {
      var init := groups[..|groups| - 1];
      var g := groups[|groups| - 1];
      PartitionIsPermutation(init);
      assert groups == init + [g];
      assert multiset(groups) == multiset(init) + multiset{g};
      MultisetGroupsSnoc(init, g, Train);
      MultisetGroupsSnoc(init, g, ValidationSplit);
      MultisetGroupsSnoc(init, g, Test);
      ThreeWayAdd(multiset(GroupsIn(init, Train)), multiset(GroupsIn(init, ValidationSplit)),
                  multiset(GroupsIn(init, Test)), multiset(init), g, SplitOf(g));
    }
  }

  /** Adding an element to one of three parts adds it to their union. */
  lemma ThreeWayAdd(t: multiset<string>, v: multiset<string>, e: multiset<string>, all: multiset<string>, g: string, k: SplitKind)
    requires t + v + e == all
    ensures (t + (if k == Train then multiset{g} else multiset{}))
          + (v + (if k == ValidationSplit then multiset{g} else multiset{}))
          + (e + (if k == Test then multiset{g} else multiset{}))
         == all + multiset{g}
  {
  }

  lemma MultisetGroupsSnoc(init: seq<string>, g: string, k: SplitKind)
    ensures multiset(GroupsIn(init + [g], k))
         == multiset(GroupsIn(init, k)) + (if SplitOf(g) == k then multiset{g} else multiset{})
  {
    assert (init + [g])[..|init|] == init;
    var before := GroupsIn(init, k);
    if SplitOf(g) == k {
      assert multiset(before + [g]) == multiset(before) + multiset{g};
    } else {
      assert before + [] == before;
    }
  }

  lemma GroupsInStep(groups: seq<string>, i: nat)
    requires i < |groups|
    ensures forall k ::
      GroupsIn(groups[..i + 1], k) == GroupsIn(groups[..i], k) + (if SplitOf(groups[i]) == k then [groups[i]] else [])
  {
    assert groups[..i + 1][..i] == groups[..i];
  }

  lemma SplitExamples()
    ensures SplitOf("apple") == Train && SplitOf("Zed") == Train && SplitOf("") == Train
    ensures SplitOf("7up") == ValidationSplit
    ensures SplitOf("_x") == Test && SplitOf("\U{00e9}t\U{00e9}") == Test
  {
  }

  // ---------------------------------------------------------------------------
  // Collected rows and dataset_info sizes
  // ---------------------------------------------------------------------------

  /** The fields of an index term the model reads. */
  datatype Term = Term(term: string, count: nat, semanticNames: Option<seq<string>>)

  /** One row of a split: term id, term and character group. */
  datatype Row = Row(termId: string, term: Term, group: string)

  /** The term store: the term ids of a group, and loading one term. */
  datatype TermStore = TermStore(
    termIds: string -> Result<seq<string>, ValidationError>,
    loadTerm: string -> Result<Term, ValidationError>)

  /** The ids among `ids` whose terms load, in their listed order. */
  function Loadable(store: TermStore, ids: seq<string>): (r: seq<string>)
    ensures |r| <= |ids|
    ensures forall x :: x in r <==> x in ids && store.loadTerm(x).Success?
  {
    if |ids| == 0 then []
    else if store.loadTerm(ids[0]).Success? then [ids[0]] + Loadable(store, ids[1..])
    else Loadable(store, ids[1..])
  }

  /** The rows of one group's term ids whose terms load; failures are skipped.
      Row `j` is the `j`-th loadable id with the term it loads to. */
  function LoadedRows(store: TermStore, group: string, ids: seq<string>): (r: seq<Row>)
    ensures |r| == |Loadable(store, ids)| <= |ids|
    ensures |r| == |ids| <==> forall j :: 0 <= j < |ids| ==> store.loadTerm(ids[j]).Success?
    ensures forall j :: 0 <= j < |r| ==>
      var id := Loadable(store, ids)[j];
      r[j] == Row(id, store.loadTerm(id).value, group)
  {
    if |ids| == 0 then []
    else
      var rest := LoadedRows(store, group, ids[1..]);
      assert forall j :: 0 < j < |ids| ==> ids[1..][j - 1] == ids[j];
      match store.loadTerm(ids[0])
      case Success(t) => [Row(ids[0], t, group)] + rest
      case Failure(_) => rest
  }

  /** The rows one group contributes: none when its ids cannot be listed. */
  function GroupRows(store: TermStore, group: string): seq<Row> {
    match store.termIds(group)
    case Success(ids) => LoadedRows(store, group, ids)
    case Failure(_) => []
  }

  /** The term-id count of a group, 0 when its ids cannot be listed. */
  function IdCount(store: TermStore, group: string): nat {
    match store.termIds(group)
    case Success(ids) => |ids|
    case Failure(_) => 0
  }

  /** `all_data` of `convert_split_to_parquet`: groups whose ids cannot be
      listed, and terms that do not load, are skipped. Every row carries one
      of its group's listed ids and the term that id loads to. */
  function SplitRows(store: TermStore, groups: seq<string>): (r: seq<Row>)
    ensures forall j :: 0 <= j < |r| ==>
      && r[j].group in groups
      && store.termIds(r[j].group).Success?
      && r[j].termId in store.termIds(r[j].group).value
      && store.loadTerm(r[j].termId) == Success(r[j].term)
  {
    if |groups| == 0 then []
    else GroupRows(store, groups[0]) + SplitRows(store, groups[1..])
  }

  /** A split's rows are its groups' rows, one group after another: the
      rows of a single group are that group's loaded rows ... */
  lemma SplitRowsSingle(store: TermStore, g: string)
    ensures SplitRows(store, [g]) == GroupRows(store, g)
  {
    assert [g][1..] == [];
  }

  /** ... and the rows of consecutive groups are concatenated in order. */
  lemma {:induction false} SplitRowsAppend(store: TermStore, a: seq<string>, b: seq<string>)
    ensures SplitRows(store, a + b) == SplitRows(store, a) + SplitRows(store, b)
  {
    if |a| == 0 {
      assert a + b == b;
    } else {
      assert (a + b)[0] == a[0];
      assert (a + b)[1..] == a[1..] + b;
      SplitRowsAppend(store, a[1..], b);
    }
  }

  function SumIds(store: TermStore, groups: seq<string>): nat {
    if |groups| == 0 then 0 else IdCount(store, groups[0]) + SumIds(store, groups[1..])
  }

  predicate AllLoad(store: TermStore, groups: seq<string>) {
    forall g, id :: g in groups && store.termIds(g).Success? && id in store.termIds(g).value ==>
      store.loadTerm(id).Success?
  }

  /** A split holds at most as many rows as its groups have term ids, and
      exactly as many when every term loads. */
  lemma {:induction false} SplitRowsCount(store: TermStore, groups: seq<string>)
    ensures |SplitRows(store, groups)| <= SumIds(store, groups)
    ensures AllLoad(store, groups) ==> |SplitRows(store, groups)| == SumIds(store, groups)
  {
    if |groups| > 0 {
      SplitRowsCount(store, groups[1..]);
      assert AllLoad(store, groups) ==> AllLoad(store, groups[1..]) by {
        forall g | g in groups[1..] ensures g in groups { }
      }
    }
  }

  /** One split's entry in `dataset_info.json`. */
  datatype SplitSize = SplitSize(name: string, numBytes: nat, numExamples: nat, datasetName: string)

  datatype DatasetInfo = DatasetInfo(
    splits: map<string, SplitSize>,
    downloadSize: nat,
    datasetSize: nat,
    configName: string,
    datasetName: string)

  const DatasetName := "solfunmeme-index"
  const BytesPerRecord: nat := 200

  /** The running sums of the loop in `create_dataset_info`. */
  datatype Sizes = Sizes(train: nat, validation: nat, test: nat, total: nat)

  /** The loop, folded from the front. */
  function CountSizes(store: TermStore, groups: seq<string>): (s: Sizes)
    ensures s.train + s.validation + s.test == s.total
  {
    if |groups| == 0 then Sizes(0, 0, 0, 0)
    else
      var rest := CountSizes(store, groups[1..]);
      match store.termIds(groups[0])
      case Failure(_) => rest
      case Success(ids) =>
        var n := |ids|;
        match SplitOf(groups[0])
        case Train => Sizes(rest.train + n, rest.validation, rest.test, rest.total + n)
        case ValidationSplit => Sizes(rest.train, rest.validation + n, rest.test, rest.total + n)
        case Test => Sizes(rest.train, rest.validation, rest.test + n, rest.total + n)
  }

  function SizeOf(s: Sizes, k: SplitKind): nat {
    match k
    case Train => s.train
    case ValidationSplit => s.validation
    case Test => s.test
  }

  /** Partner of `CountSizes`: a split's size is the number of term ids of
      the groups `convert_to_parquet` assigns to that split. */
  lemma {:induction false} CountSizesMatchesPartition(store: TermStore, groups: seq<string>, k: SplitKind)
    ensures SizeOf(CountSizes(store, groups), k) == SumIds(store, GroupsIn(groups, k))
  {
    if |groups| > 0 {
      CountSizesMatchesPartition(store, groups[1..], k);
      GroupsInCons(groups, k);
      SumIdsAppend(store, if SplitOf(groups[0]) == k then [groups[0]] else [], GroupsIn(groups[1..], k));
    }
  }

  lemma {:induction false} GroupsInCons(groups: seq<string>, k: SplitKind)
    requires |groups| > 0
    ensures GroupsIn(groups, k) == (if SplitOf(groups[0]) == k then [groups[0]] else []) + GroupsIn(groups[1..], k)
    decreases |groups|
  {
    if |groups| > 1 {
      var init := groups[..|groups| - 1];
      assert init[0] == groups[0];
      assert init[1..] == groups[1..][..|groups[1..]| - 1];
      GroupsInCons(init, k);
    } else {
      assert groups[..0] == [];
    }
  }

  lemma {:induction false} SumIdsAppend(store: TermStore, a: seq<string>, b: seq<string>)
    ensures SumIds(store, a + b) == SumIds(store, a) + SumIds(store, b)
  {
    if |a| > 0 {
      assert (a + b)[1..] == a[1..] + b;
      SumIdsAppend(store, a[1..], b);
    } else {
      assert a + b == b;
    }
  }

  /** The loop's total is the number of term ids of all groups. */
  lemma {:induction false} CountSizesTotal(store: TermStore, groups: seq<string>)
    ensures CountSizes(store, groups).total == SumIds(store, groups)
  {
    if |groups| > 0 {
      CountSizesTotal(store, groups[1..]);
    }
  }

  /** `CountSizesMatchesPartition` for all three splits at once. */
  lemma CountSizesMatchAll(store: TermStore, groups: seq<string>)
    ensures forall k :: SizeOf(CountSizes(store, groups), k) == SumIds(store, GroupsIn(groups, k))
  {
    forall k ensures SizeOf(CountSizes(store, groups), k) == SumIds(store, GroupsIn(groups, k)) {
      CountSizesMatchesPartition(store, groups, k);
    }
  }

  function SplitEntry(k: SplitKind, examples: nat): SplitSize {
    SplitSize(SplitName(k), examples * BytesPerRecord, examples, DatasetName)
  }

  /** `create_dataset_info`: fails only when the group names cannot be
      listed; each split records as examples the term ids its groups list,
      whether or not the terms load, with 200 bytes per example, and the
      dataset sizes are 200 bytes per listed id over all groups. */
  function CreateDatasetInfo(groupNames: Result<seq<string>, ValidationError>, store: TermStore): (r: Result<DatasetInfo, ValidationError>)
    ensures r.Failure? <==> groupNames.Failure?
    ensures r.Failure? ==> r.error == groupNames.error
    ensures r.Success? ==>
      && r.value.splits.Keys == {"train", "validation", "test"}
      && (forall name :: name in r.value.splits ==>
            r.value.splits[name].name == name && r.value.splits[name].numBytes == BytesPerRecord * r.value.splits[name].numExamples)
      && r.value.splits["train"].numExamples + r.value.splits["validation"].numExamples + r.value.splits["test"].numExamples
           == r.value.datasetSize / BytesPerRecord
      && r.value.downloadSize == r.value.datasetSize
      && r.value.datasetSize % BytesPerRecord == 0
    ensures r.Success? ==>
      && (forall k :: r.value.splits[SplitName(k)].numExamples == SumIds(store, GroupsIn(groupNames.value, k)))
      && r.value.datasetSize == BytesPerRecord * SumIds(store, groupNames.value)
  {
    match groupNames
    case Failure(e) => Failure(e)
    case Success(groups) =>
      CountSizesMatchAll(store, groups);
      CountSizesTotal(store, groups);
      var s := CountSizes(store, groups);
      var splits := map["train" := SplitEntry(Train, s.train),
                        "validation" := SplitEntry(ValidationSplit, s.validation),
                        "test" := SplitEntry(Test, s.test)];
      Success(DatasetInfo(splits, s.total * BytesPerRecord, s.total * BytesPerRecord, "default", DatasetName))
  }

  /** The sizes recorded for a split are those of its groups' term ids, so
      when every term loads they equal the rows written for the split. */
  lemma DatasetInfoMatchesWrittenRows(groups: seq<string>, store: TermStore, k: SplitKind)
    requires AllLoad(store, GroupsIn(groups, k))
    ensures CreateDatasetInfo(Success(groups), store).value.splits[SplitName(k)].numExamples
         == |SplitRows(store, GroupsIn(groups, k))|
  {
    CountSizesMatchesPartition(store, groups, k);
    SplitRowsCount(store, GroupsIn(groups, k));
  }

  // ---------------------------------------------------------------------------
  // Offsets of the semantic_names list column
  // ---------------------------------------------------------------------------

  /** The names of one row, none when absent. */
  function Names(o: Option<seq<string>>): seq<string> {
    match o
    case Some(names) => names
    case None => []
  }

  function NameLists(rows: seq<Row>): (r: seq<seq<string>>)
    ensures |r| == |rows| && forall i :: 0 <= i < |rows| ==> r[i] == Names(rows[i].term.semanticNames)
  {
    seq(|rows|, i requires 0 <= i < |rows| => Names(rows[i].term.semanticNames))
  }

  /** The flattened values of the list column, in row order. */
  function FlatNames(rows: seq<Row>): seq<string> {
    Flatten(NameLists(rows))
  }

  lemma FlattenSnoc<T>(ss: seq<seq<T>>, s: seq<T>)
    ensures Flatten(ss + [s]) == Flatten(ss) + s
  {
    FlattenAppend(ss, [s]);
    assert Flatten([s]) == s + Flatten([s][1..]);
  }

  /** Between offsets `i` and `i + 1` of `flat` lie exactly `names`. */
  predicate SliceIs(flat: seq<string>, offsets: seq<nat>, i: nat, names: seq<string>)
    requires i + 1 < |offsets|
  {
    offsets[i] <= offsets[i + 1] <= |flat| && flat[offsets[i]..offsets[i + 1]] == names
  }

  /** The offsets loop of `create_record_batch`. Offsets start at 0, the
      i-th step is row i's name count, the last offset is the number of
      flattened values, and each row's names are the values between its two
      offsets. */
  method Offsets(rows: seq<Row>) returns (offsets: seq<nat>)
    ensures |offsets| == |rows| + 1 && offsets[0] == 0
    ensures forall i :: 0 <= i < |rows| ==>
      offsets[i + 1] == offsets[i] + |Names(rows[i].term.semanticNames)|
    ensures offsets[|rows|] == |FlatNames(rows)|
    ensures forall i :: 0 <= i < |rows| ==> SliceIs(FlatNames(rows), offsets, i, Names(rows[i].term.semanticNames))
  {
    var lists := NameLists(rows);
    offsets := [0];
    var current: nat := 0;
    var i := 0;
    assert lists[..0] == [];
    while i < |rows|
      invariant 0 <= i <= |rows|
      invariant |offsets| == i + 1 && offsets[0] == 0
      invariant current == offsets[i] == |Flatten(lists[..i])|
      invariant forall j :: 0 <= j < i ==> offsets[j + 1] == offsets[j] + |lists[j]|
      invariant forall j :: 0 <= j <= i ==> offsets[j] == |Flatten(lists[..j])|
    {
      assert lists[..i + 1] == lists[..i] + [lists[i]];
      FlattenSnoc(lists[..i], lists[i]);
      current := current + |Names(rows[i].term.semanticNames)|;
      offsets := offsets + [current];
      i := i + 1;
    }
    assert lists[..|rows|] == lists;
    forall j | 0 <= j < |rows|
      ensures SliceIs(FlatNames(rows), offsets, j, lists[j])
    {
      FlattenSlice(lists, j);
    }
  }

  /** The values of row `j` sit between the flattened lengths of the rows
      before it and up to it. */
  lemma FlattenSlice<T>(ss: seq<seq<T>>, j: nat)
    requires j < |ss|
    ensures |Flatten(ss[..j])| + |ss[j]| == |Flatten(ss[..j + 1])| <= |Flatten(ss)|
    ensures Flatten(ss)[|Flatten(ss[..j])|..|Flatten(ss[..j + 1])|] == ss[j]
  {
    var pre := ss[..j];
    var post := ss[j + 1..];
    assert ss == pre + [ss[j]] + post;
    assert ss[..j + 1] == pre + [ss[j]];
    FlattenSnoc(pre, ss[j]);
    FlattenAppend(pre + [ss[j]], post);
  }

  // ---------------------------------------------------------------------------
  // Chunks and file names
  // ---------------------------------------------------------------------------

  const BatchSize: nat := 10000

  /** The path of chunk `idx` (without the output directory): the single-chunk
      name when the chunk is all the data, the indexed name otherwise. */
  function ChunkFileName(split: string, idx: nat, chunkLen: nat, dataLen: nat): string {
    if chunkLen == dataLen then split + "-00000-of-00001.parquet"
    else IndexedName(split, idx, CeilDiv(dataLen, BatchSize))
  }

  /** `{split}-{idx:05}-of-{count:05}.parquet`. */
  function IndexedName(split: string, idx: nat, count: nat): string {
    var tail := "-of-" + Pad5(count) + ".parquet";
    split + "-" + Pad5(idx) + tail
  }

  /** The Parquet files `convert_split_to_parquet` writes for `rows`: no file
      for no rows, otherwise one per chunk of at most 10000 rows, in order. */
  function SplitFiles<T>(split: string, rows: seq<T>): (r: seq<(string, seq<T>)>)
    ensures |r| == CeilDiv(|rows|, BatchSize)
    ensures |rows| == 0 <==> |r| == 0
    ensures Flatten(seq(|r|, i requires 0 <= i < |r| => r[i].1)) == rows
    ensures forall i :: 0 <= i < |r| ==> 0 < |r[i].1| <= BatchSize
    ensures |r| == 1 ==> r[0].0 == split + "-00000-of-00001.parquet"
    ensures |r| > 1 ==> forall i :: 0 <= i < |r| ==> r[i].0 == IndexedName(split, i, |r|)
  {
    var chunks := Chunks(rows, BatchSize);
    assert |rows| > 0 ==> |chunks| > 0 by {
      if |rows| > 0 { assert Flatten(chunks) == rows; }
    }
    assert |chunks| == 1 ==> chunks[0] == rows by {
      if |chunks| == 1 { assert Flatten(chunks) == chunks[0] + Flatten(chunks[1..]); }
    }
    assert |chunks| > 1 ==> forall i :: 0 <= i < |chunks| ==> |chunks[i]| < |rows| by {
      if |chunks| > 1 {
        forall i | 0 <= i < |chunks| ensures |chunks[i]| < |rows| {
          FlattenSplitLength(chunks, i);
        }
      }
    }
    var r := seq(|chunks|, i requires 0 <= i < |chunks| => (ChunkFileName(split, i, |chunks[i]|, |rows|), chunks[i]));
    assert seq(|r|, i requires 0 <= i < |r| => r[i].1) == chunks;
    r
  }

  /** With more than one non-empty part, each part is shorter than the whole. */
  lemma FlattenSplitLength<T>(ss: seq<seq<T>>, i: nat)
    requires |ss| > 1 && i < |ss| && forall j :: 0 <= j < |ss| ==> |ss[j]| > 0
    ensures |ss[i]| < |Flatten(ss)|
  {
    var other := if i == 0 then 1 else 0;
    FlattenPartLength(ss, i);
    FlattenPartLength(ss, other);
    FlattenTwoParts(ss, i, other);
  }

  lemma {:induction false} FlattenPartLength<T>(ss: seq<seq<T>>, i: nat)
    requires i < |ss|
    ensures |ss[i]| <= |Flatten(ss)|
  {
    if i > 0 {
      FlattenPartLength(ss[1..], i - 1);
    }
  }

  lemma {:induction false} FlattenTwoParts<T>(ss: seq<seq<T>>, i: nat, j: nat)
    requires i < |ss| && j < |ss| && i != j
    ensures |ss[i]| + |ss[j]| <= |Flatten(ss)|
  {
    if i == 0 {
      FlattenPartLength(ss[1..], j - 1);
    } else if j == 0 {
      FlattenPartLength(ss[1..], i - 1);
    } else {
      FlattenTwoParts(ss[1..], i - 1, j - 1);
    }
  }

  /** Different chunk indexes give different names. */
  lemma IndexedNameInjective(split: string, i: nat, j: nat, count: nat)
    requires IndexedName(split, i, count) == IndexedName(split, j, count)
    ensures i == j
  {
    SameFrameSameMiddle(split + "-", Pad5(i), Pad5(j), "-of-" + Pad5(count) + ".parquet");
    Pad5Injective(i, j);
  }

  /** The names written for one split are pairwise distinct. */
  lemma SplitFileNamesDistinct<T>(split: string, rows: seq<T>, i: nat, j: nat)
    requires var r := SplitFiles(split, rows); i < |r| && j < |r| && i != j
    ensures SplitFiles(split, rows)[i].0 != SplitFiles(split, rows)[j].0
  {
    var r := SplitFiles(split, rows);
    assert |r| > 1;
    if r[i].0 == r[j].0 {
      IndexedNameInjective(split, i, j, |r|);
    }
  }

  /** The one-file name is the indexed name of chunk 0 of 1. */
  lemma SingleChunkNameIsIndexed(split: string)
    ensures split + "-00000-of-00001.parquet" == IndexedName(split, 0, 1)
  {
    Pad5Digit(0);
    Pad5Digit(1);
    var head, tail := "-" + Pad5(0), "-of-" + Pad5(1) + ".parquet";
    SingleChunkSuffix();
    assert split + "-" + Pad5(0) + tail == split + (head + tail);
  }

  lemma SingleChunkSuffix()
    ensures "-" + ("0000" + [DigitChar(0)]) + ("-of-" + ("0000" + [DigitChar(1)]) + ".parquet") == "-00000-of-00001.parquet"
  {
  }
}
