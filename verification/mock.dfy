/** `MockDataAccess` of `src/validator.rs`: a `DataAccess` backed by five
    maps, and the seeding performed by `setup_default_data`. */
module MockStore {
  import opened Wrappers
  import opened Strings
  import opened Capabilities
  import opened Entity
  import opened Validator

  datatype MockDataAccess = MockDataAccess(
    successfulResponses: map<string, bool>,
    parquetMetadata: map<string, ParquetMetadata>,
    splitNames: map<string, seq<string>>,
    configNames: map<string, seq<string>>,
    cachedValidations: map<string, CachedResponse>)

  /** `MockDataAccess::new()`: every map empty. */
  function EmptyMock(): MockDataAccess {
    MockDataAccess(map[], map[], map[], map[], map[])
  }

  /** The `dataset:config` key of the metadata and split-name maps. */
  function PairKey(dataset: string, config: string): string {
    dataset + ":" + config
  }

  // ---------------------------------------------------------------------------
  // The DataAccess operations of the mock
  // ---------------------------------------------------------------------------

  /** A missing key is a `DataAccessError`. */
  function CheckSuccessfulResponse(m: MockDataAccess, kind: string, e: EntityIdentifier): (r: Result<bool, ValidationError>)
    ensures r.Success? <==> CacheKey(e, kind) in m.successfulResponses
    ensures r.Success? ==> r.value == m.successfulResponses[CacheKey(e, kind)]
    ensures r.Failure? ==> r.error.DataAccessError?
  {
    var key := CacheKey(e, kind);
    if key in m.successfulResponses then Success(m.successfulResponses[key])
    else Failure(DataAccessError("No response found for " + key))
  }

  /** A missing key is `MetadataNotFound` naming the key. */
  function GetParquetMetadata(m: MockDataAccess, dataset: string, config: string): (r: Result<ParquetMetadata, ValidationError>)
    ensures r.Success? <==> PairKey(dataset, config) in m.parquetMetadata
    ensures r.Success? ==> r.value == m.parquetMetadata[PairKey(dataset, config)]
    ensures r.Failure? ==> r == Failure(MetadataNotFound(PairKey(dataset, config)))
  {
    var key := PairKey(dataset, config);
    if key in m.parquetMetadata then Success(m.parquetMetadata[key])
    else Failure(MetadataNotFound(key))
  }

  /** A missing key is a `DataAccessError`. */
  function GetSplitNames(m: MockDataAccess, dataset: string, config: string): (r: Result<seq<string>, ValidationError>)
    ensures r.Success? <==> PairKey(dataset, config) in m.splitNames
    ensures r.Success? ==> r.value == m.splitNames[PairKey(dataset, config)]
    ensures r.Failure? ==> r.error.DataAccessError?
  {
    var key := PairKey(dataset, config);
    if key in m.splitNames then Success(m.splitNames[key])
    else Failure(DataAccessError("No split names found for " + key))
  }

  /** A missing key is a `DataAccessError`. */
  function GetConfigNames(m: MockDataAccess, dataset: string): (r: Result<seq<string>, ValidationError>)
    ensures r.Success? <==> dataset in m.configNames
    ensures r.Success? ==> r.value == m.configNames[dataset]
    ensures r.Failure? ==> r.error.DataAccessError?
  {
    if dataset in m.configNames then Success(m.configNames[dataset])
    else Failure(DataAccessError("No config names found for " + dataset))
  }

  /** A missing key is a `CacheError`: the cache-miss signal that the
      aggregation counts as pending. */
  function GetCachedValidation(m: MockDataAccess, kind: string, e: EntityIdentifier): (r: Result<CachedResponse, ValidationError>)
    ensures r.Success? <==> CacheKey(e, kind) in m.cachedValidations
    ensures r.Success? ==> r.value == m.cachedValidations[CacheKey(e, kind)]
    ensures r.Failure? ==> r.error.CacheError?
  {
    var key := CacheKey(e, kind);
    if key in m.cachedValidations then Success(m.cachedValidations[key])
    else Failure(CacheError("No cached validation found for " + key))
  }

  /** Some column type mentions "string" or "text". */
  predicate HasIndexableColumns(features: map<string, string>) {
    exists k :: k in features && (Contains(features[k], "string") || Contains(features[k], "text"))
  }

  /** The mock seen through the `DataAccess` interface. */
  function AsDataAccess(m: MockDataAccess): DataAccess {
    DataAccess(
      (kind, e) => CheckSuccessfulResponse(m, kind, e),
      (d, c) => GetParquetMetadata(m, d, c),
      (d, c) => GetSplitNames(m, d, c),
      d => GetConfigNames(m, d),
      (kind, e) => GetCachedValidation(m, kind, e),
      features => HasIndexableColumns(features))
  }

  // ---------------------------------------------------------------------------
  // Seeding (`setup_default_data`)
  // ---------------------------------------------------------------------------

  const DefaultDatasets: seq<string> := ["user/repo", "org/dataset", "mock/dataset"]
  const DefaultConfigs: seq<string> := ["default", "extra"]
  const DefaultSplits: seq<string> := ["train", "test", "validation"]

  const DefaultFeatures: map<string, string> := map["text" := "string", "label" := "int64"]

  const FullResult := ValidationResult(true, true, true, true, true)

  /** The capabilities cached for a split: everything, with statistics only
      outside the "validation" split. */
  function SplitResult(split: string): ValidationResult {
    ValidationResult(true, true, true, true, split != "validation")
  }

  /** The entity under which the viewer answer is stored: the split itself as
      the crate writes it, or its config when `configKeyed` (the corrected
      seeding, matching the key `validate_split` asks for). */
  function ViewerEntity(d: string, c: string, s: string, configKeyed: bool): EntityIdentifier {
    if configKeyed then NewConfig(d, c) else NewSplit(d, c, s)
  }

  /** Body of the innermost loop: one split. */
  function SeedSplit(m: MockDataAccess, d: string, c: string, s: string, configKeyed: bool): MockDataAccess {
    var e := NewSplit(d, c, s);
    m.(successfulResponses := m.successfulResponses
         [CacheKey(ViewerEntity(d, c, s, configKeyed), ConfigHasViewer) := true]
         [CacheKey(e, SplitHasPreview) := true]
         [CacheKey(e, SplitHasStatistics) := s != "validation"],
       cachedValidations := m.cachedValidations
         [CacheKey(e, SplitIsValid) := CachedResponse(200, SplitResult(s), 1.0)])
  }

  /** Every map of `r` holds at least the keys of the same map of `m`. */
  predicate Grows(m: MockDataAccess, r: MockDataAccess) {
    && m.successfulResponses.Keys <= r.successfulResponses.Keys
    && m.parquetMetadata.Keys <= r.parquetMetadata.Keys
    && m.splitNames.Keys <= r.splitNames.Keys
    && m.configNames.Keys <= r.configNames.Keys
    && m.cachedValidations.Keys <= r.cachedValidations.Keys
  }

  function SeedSplits(m: MockDataAccess, d: string, c: string, ss: seq<string>, configKeyed: bool): (r: MockDataAccess)
    ensures Grows(m, r)
    ensures r.parquetMetadata == m.parquetMetadata && r.splitNames == m.splitNames && r.configNames == m.configNames
    decreases |ss|
  {
    if |ss| == 0 then m else SeedSplits(SeedSplit(m, d, c, ss[0], configKeyed), d, c, ss[1..], configKeyed)
  }

  /** Body of the middle loop: one config of one dataset. */
  function SeedConfig(m: MockDataAccess, d: string, c: string, ss: seq<string>, configKeyed: bool): (r: MockDataAccess)
    ensures Grows(m, r)
    ensures r.configNames == m.configNames
  {
    var m1 := m.(splitNames := m.splitNames[PairKey(d, c) := ss],
                 parquetMetadata := m.parquetMetadata[PairKey(d, c) := NewMetadata(DefaultFeatures)]);
    var m2 := SeedSplits(m1, d, c, ss, configKeyed);
    m2.(cachedValidations := m2.cachedValidations
          [CacheKey(NewConfig(d, c), ConfigIsValid) := CachedResponse(200, FullResult, 1.0)])
  }

  function SeedConfigs(m: MockDataAccess, d: string, cs: seq<string>, ss: seq<string>, configKeyed: bool): (r: MockDataAccess)
    ensures Grows(m, r)
    ensures r.configNames == m.configNames
    decreases |cs|
  {
    if |cs| == 0 then m else SeedConfigs(SeedConfig(m, d, cs[0], ss, configKeyed), d, cs[1..], ss, configKeyed)
  }

  /** Body of the outer loop: one dataset. */
  function SeedDataset(m: MockDataAccess, d: string, cs: seq<string>, ss: seq<string>, configKeyed: bool): (r: MockDataAccess)
    ensures Grows(m, r)
  {
    SeedConfigs(m.(configNames := m.configNames[d := cs]), d, cs, ss, configKeyed)
  }

  function SeedDatasets(m: MockDataAccess, ds: seq<string>, cs: seq<string>, ss: seq<string>, configKeyed: bool): (r: MockDataAccess)
    ensures Grows(m, r)
    decreases |ds|
  {
    if |ds| == 0 then m else SeedDatasets(SeedDataset(m, ds[0], cs, ss, configKeyed), ds[1..], cs, ss, configKeyed)
  }

  /** `MockDataAccess::default()`: the crate's seeding, viewer answers keyed
      by split. */
  function DefaultMock(): MockDataAccess {
    SeedDatasets(EmptyMock(), DefaultDatasets, DefaultConfigs, DefaultSplits, false)
  }

  /** The same seeding with the viewer answers keyed by config. */
  function CorrectedDefaultMock(): MockDataAccess {
    SeedDatasets(EmptyMock(), DefaultDatasets, DefaultConfigs, DefaultSplits, true)
  }
}
