/** The validation engine of `src/validator.rs`: cached responses, the
    pluggable data-access interface, and the three per-level algorithms of
    `DatasetValidator`. */
module Validator {
  import opened Wrappers
  import opened Capabilities
  import opened Entity

  /** A memoized validation outcome; progress is an exact fraction here. */
  datatype CachedResponse = CachedResponse(httpStatus: nat, content: ValidationResult, progress: real)

  /** `is_success`: the cached status is HTTP 200. */
  predicate IsSuccess(r: CachedResponse) {
    r.httpStatus == 200
  }

  /** Schema metadata of one (dataset, config): column name to type name. */
  datatype ParquetMetadata = ParquetMetadata(features: map<string, string>, numRows: Option<nat>)

  function NewMetadata(features: map<string, string>): ParquetMetadata {
    ParquetMetadata(features, None)
  }

  /** `with_rows`: records the row count and keeps the features. */
  function WithRows(m: ParquetMetadata, numRows: nat): (r: ParquetMetadata)
    ensures r.numRows == Some(numRows) && r.features == m.features
    ensures NewMetadata(r.features) == NewMetadata(m.features)
  {
    m.(numRows := Some(numRows))
  }

  datatype ValidationError =
    | InvalidEntityIdentifier(message: string)
    | DataAccessError(message: string)
    | MetadataNotFound(entity: string)
    | CacheError(message: string)
    | InvalidInput(text: string)
    | ProcessingError(text: string)

  /** The `DataAccess` trait as a record of total functions: whatever backs
      the store (a mock, a directory tree, a remote service) is seen only
      through these answers, each of which may fail with a typed error. */
  datatype DataAccess = DataAccess(
    checkSuccessfulResponse: (string, EntityIdentifier) -> Result<bool, ValidationError>,
    getParquetMetadata: (string, string) -> Result<ParquetMetadata, ValidationError>,
    getSplitNames: (string, string) -> Result<seq<string>, ValidationError>,
    getConfigNames: string -> Result<seq<string>, ValidationError>,
    getCachedValidation: (string, EntityIdentifier) -> Result<CachedResponse, ValidationError>,
    hasIndexableColumns: map<string, string> -> bool)

  /** What `validate` returns on success: the capabilities and the fraction
      of children already resolved. */
  datatype Validated = Validated(result: ValidationResult, progress: real)

  type Outcome = Result<Validated, ValidationError>

  const ConfigHasViewer := "config-has-viewer"
  const SplitHasPreview := "split-has-preview"
  const SplitHasStatistics := "split-has-statistics"
  const SplitIsValid := "split-is-valid"
  const ConfigIsValid := "config-is-valid"

  // ---------------------------------------------------------------------------
  // Split level
  // ---------------------------------------------------------------------------

  /** A boolean probe whose failure reads as `false` (`unwrap_or(false)`). */
  predicate Probe(da: DataAccess, kind: string, e: EntityIdentifier) {
    da.checkSuccessfulResponse(kind, e).UnwrapOr(false)
  }

  /** `validate_split`: four probes and a metadata lookup; progress 1. */
  function ValidateSplit(da: DataAccess, e: EntityIdentifier): (r: Outcome)
    ensures r.Failure? <==> e.config.None? || e.split.None?
    ensures r.Failure? ==> r.error.InvalidEntityIdentifier?
    ensures r.Success? ==> r.value.progress == 1.0
    ensures r.Success? ==>
      var v := r.value.result;
      var meta := da.getParquetMetadata(e.dataset, e.config.value);
      && (v.viewer <==> da.checkSuccessfulResponse(ConfigHasViewer, NewConfig(e.dataset, e.config.value)) == Success(true))
      && (v.preview <==> da.checkSuccessfulResponse(SplitHasPreview, e) == Success(true))
      && (v.statistics <==> da.checkSuccessfulResponse(SplitHasStatistics, e) == Success(true))
      && (v.filter <==> meta.Success?)
      && (v.search <==> meta.Success? && da.hasIndexableColumns(meta.value.features))
  {
    if e.config.None? then
      Failure(InvalidEntityIdentifier("Config required for split validation"))
    else if e.split.None? then
      Failure(InvalidEntityIdentifier("Split required for split validation"))
    else
      var config := e.config.value;
      var viewer := Probe(da, ConfigHasViewer, NewConfig(e.dataset, config));
      var preview := Probe(da, SplitHasPreview, e);
      var filterSearch :=
        match da.getParquetMetadata(e.dataset, config)
        case Success(metadata) => (true, da.hasIndexableColumns(metadata.features))
        case Failure(_) => (false, false);
      var statistics := Probe(da, SplitHasStatistics, e);
      Success(Validated(ValidationResult(viewer, preview, filterSearch.1, filterSearch.0, statistics), 1.0))
  }

  // ---------------------------------------------------------------------------
  // Config and dataset level: one aggregation over children
  // ---------------------------------------------------------------------------

  /** How one child's cached lookup affects the parent: its content is merged
      (status 200), it is pending (a cache miss), or it is ignored. */
  datatype ChildStatus = Contributes(content: ValidationResult) | Pending | Ignored

  function Classify(o: Result<CachedResponse, ValidationError>): (s: ChildStatus)
    ensures s.Contributes? <==> o.Success? && IsSuccess(o.value)
    ensures s.Contributes? ==> s.content == o.value.content
    ensures s.Pending? <==> o.Failure? && o.error.CacheError?
  {
    match o
    case Success(response) => if IsSuccess(response) then Contributes(response.content) else Ignored
    case Failure(CacheError(_)) => Pending
    case Failure(_) => Ignored
  }

  /** The running state of the loop: merged result, children seen, children pending. */
  datatype Tally = Tally(result: ValidationResult, total: nat, pending: nat)

  function EmptyTally(): Tally {
    Tally(NewResult(), 0, 0)
  }

  /** One loop iteration. */
  function Step(t: Tally, s: ChildStatus): Tally {
    match s
    case Contributes(content) => Tally(Merge(t.result, content), t.total + 1, t.pending)
    case Pending => Tally(t.result, t.total + 1, t.pending + 1)
    case Ignored => Tally(t.result, t.total + 1, t.pending)
  }

  ghost predicate Supplies(s: ChildStatus, c: ValidationCapability) {
    s.Contributes? && s.content.Has(c)
  }

  /** The loop over `children`, in order, with `lookup` giving each child's
      status; `TallyMeaning` states what the tally means. */
  function TallyChildren(children: seq<string>, lookup: string -> ChildStatus): (t: Tally)
    ensures t.total == |children| && t.pending <= t.total
  {
    if |children| == 0 then EmptyTally()
    else Step(TallyChildren(children[..|children| - 1], lookup), lookup(children[|children| - 1]))
  }

  /** The number of pending children, counted from the front. */
  function PendingCount(children: seq<string>, lookup: string -> ChildStatus): (n: nat)
    ensures n <= |children|
  {
    if |children| == 0 then 0
    else (if lookup(children[0]).Pending? then 1 else 0) + PendingCount(children[1..], lookup)
  }

  /** Counting a child appended at the back. */
  lemma {:induction false} PendingCountSnoc(children: seq<string>, x: string, lookup: string -> ChildStatus)
    ensures PendingCount(children + [x], lookup)
         == PendingCount(children, lookup) + (if lookup(x).Pending? then 1 else 0)
  {
    if |children| > 0 {
      assert (children + [x])[1..] == children[1..] + [x];
      PendingCountSnoc(children[1..], x, lookup);
    }
  }

  /** The aggregate has a capability exactly when some contributing child
      has it; `pending` is the number of pending children (cache misses),
      so it is 0 exactly when no child is pending and equals the total
      exactly when every child is. */
  lemma {:induction false} TallyMeaning(children: seq<string>, lookup: string -> ChildStatus)
    ensures var t := TallyChildren(children, lookup);
      && (forall c :: t.result.Has(c) <==>
            exists i :: 0 <= i < |children| && Supplies(lookup(children[i]), c))
      && t.pending == PendingCount(children, lookup)
      && (t.pending == 0 <==> forall i :: 0 <= i < |children| ==> !lookup(children[i]).Pending?)
      && (t.pending == t.total <==> forall i :: 0 <= i < |children| ==> lookup(children[i]).Pending?)
  {
    if |children| > 0 {
      var n := |children| - 1;
      var init, last := children[..n], children[n];
      assert forall i :: 0 <= i < n ==> init[i] == children[i];
      TallyMeaning(init, lookup);
      var t0 := TallyChildren(init, lookup);
      var t := TallyChildren(children, lookup);
      assert t == Step(t0, lookup(last));
      assert children == init + [last];
      PendingCountSnoc(init, last, lookup);
      forall c ensures t.result.Has(c) <==> exists i :: 0 <= i < |children| && Supplies(lookup(children[i]), c) {
        if exists i :: 0 <= i < |children| && Supplies(lookup(children[i]), c) {
          var i :| 0 <= i < |children| && Supplies(lookup(children[i]), c);
          if i < n {
            assert Supplies(lookup(init[i]), c);
          }
        }
      }
    }
  }

  /** A fraction with a positive denominator no smaller than its numerator. */
  lemma Fraction(n: real, d: real)
    requires 0.0 <= n <= d && d > 0.0
    ensures 0.0 <= n / d <= 1.0
    ensures n / d == 1.0 <==> n == d
    ensures n / d == 0.0 <==> n == 0.0
  {
    var q := n / d;
    assert q * d == n;
  }

  /** `(total - pending) / total`, or 1 when there are no children. */
  function Progress(total: nat, pending: nat): (p: real)
    requires pending <= total
    ensures 0.0 <= p <= 1.0
    ensures p == 1.0 <==> pending == 0
    ensures p == 0.0 <==> total > 0 && pending == total
  {
    if total > 0 then
      Fraction((total - pending) as real, total as real);
      (total - pending) as real / total as real
    else 1.0
  }

  function SplitLookup(da: DataAccess, dataset: string, config: string): string -> ChildStatus {
    split => Classify(da.getCachedValidation(SplitIsValid, NewSplit(dataset, config, split)))
  }

  function ConfigLookup(da: DataAccess, dataset: string): string -> ChildStatus {
    config => Classify(da.getCachedValidation(ConfigIsValid, NewConfig(dataset, config)))
  }

  function Summarize(t: Tally): Validated
    requires t.pending <= t.total
  {
    Validated(t.result, Progress(t.total, t.pending))
  }

  /** `validate_config`: aggregate the cached "split-is-valid" results of the
      config's splits. Fails only when the config is missing or the split
      names cannot be enumerated, and then with that error. */
  function ValidateConfig(da: DataAccess, e: EntityIdentifier): (r: Outcome)
    ensures r.Failure? <==> e.config.None? || da.getSplitNames(e.dataset, e.config.value).Failure?
    ensures e.config.None? ==> r.Failure? && r.error.InvalidEntityIdentifier?
    ensures e.config.Some? && da.getSplitNames(e.dataset, e.config.value).Failure? ==>
      r == Failure(da.getSplitNames(e.dataset, e.config.value).error)
    ensures r.Success? ==> 0.0 <= r.value.progress <= 1.0
    ensures r.Success? ==>
      var splits := da.getSplitNames(e.dataset, e.config.value).value;
      var lookup := SplitLookup(da, e.dataset, e.config.value);
      && (forall c :: r.value.result.Has(c) <==>
            exists i :: 0 <= i < |splits| && Supplies(lookup(splits[i]), c))
      && r.value.progress == Progress(|splits|, PendingCount(splits, lookup))
  {
    if e.config.None? then
      Failure(InvalidEntityIdentifier("Config required for config validation"))
    else
      var config := e.config.value;
      match da.getSplitNames(e.dataset, config)
      case Failure(err) => Failure(err)
      case Success(splits) =>
        var lookup := SplitLookup(da, e.dataset, config);
        TallyMeaning(splits, lookup);
        Success(Summarize(TallyChildren(splits, lookup)))
  }

  /** `validate_dataset`: the same aggregation over the dataset's configs and
      their cached "config-is-valid" results. Only the dataset name is read. */
  function ValidateDataset(da: DataAccess, e: EntityIdentifier): (r: Outcome)
    ensures r.Failure? <==> da.getConfigNames(e.dataset).Failure?
    ensures r.Failure? ==> r == Failure(da.getConfigNames(e.dataset).error)
    ensures r.Success? ==> 0.0 <= r.value.progress <= 1.0
    ensures r.Success? ==>
      var configs := da.getConfigNames(e.dataset).value;
      var lookup := ConfigLookup(da, e.dataset);
      && (forall c :: r.value.result.Has(c) <==>
            exists i :: 0 <= i < |configs| && Supplies(lookup(configs[i]), c))
      && r.value.progress == Progress(|configs|, PendingCount(configs, lookup))
  {
    match da.getConfigNames(e.dataset)
    case Failure(err) => Failure(err)
    case Success(configs) =>
      var lookup := ConfigLookup(da, e.dataset);
      TallyMeaning(configs, lookup);
      Success(Summarize(TallyChildren(configs, lookup)))
  }

  /** `validate`: dispatch on the level the caller supplies, never on the
      level the identifier's shape suggests. */
  function Validate(da: DataAccess, e: EntityIdentifier, level: ValidationLevel): Outcome {
    match level
    case Split => ValidateSplit(da, e)
    case Config => ValidateConfig(da, e)
    case Dataset => ValidateDataset(da, e)
  }

  // ---------------------------------------------------------------------------
  // Convenience entry points
  // ---------------------------------------------------------------------------

  /** `validate_split(dataset, config, split, access)`: never an identifier
      error, always progress 1. */
  function ValidateSplitOf(dataset: string, config: string, split: string, da: DataAccess): (r: Outcome)
    ensures r.Success? && r.value.progress == 1.0
  {
    Validate(da, NewSplit(dataset, config, split), Split)
  }

  /** `validate_config(dataset, config, access)`: fails exactly when the split
      names cannot be enumerated. */
  function ValidateConfigOf(dataset: string, config: string, da: DataAccess): (r: Outcome)
    ensures r.Failure? <==> da.getSplitNames(dataset, config).Failure?
  {
    Validate(da, NewConfig(dataset, config), Config)
  }

  /** `validate_dataset(dataset, access)`: fails exactly when the config
      names cannot be enumerated. */
  function ValidateDatasetOf(dataset: string, da: DataAccess): (r: Outcome)
    ensures r.Failure? <==> da.getConfigNames(dataset).Failure?
  {
    Validate(da, NewDataset(dataset), Dataset)
  }
}
