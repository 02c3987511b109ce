/** Validation run against the seeded mock store: what the crate's default
    store makes `validate_split`, `validate_config` and `validate_dataset`
    report, and what they would report with the viewer answers keyed by
    config. */
module MockScenarios {
  import opened Wrappers
  import opened Capabilities
  import opened Entity
  import opened Validator
  import opened MockStore
  import opened MockProperties

  function Seeded(ds: seq<string>, cs: seq<string>, ss: seq<string>, configKeyed: bool): DataAccess {
    AsDataAccess(SeedDatasets(EmptyMock(), ds, cs, ss, configKeyed))
  }

  /** Split validation of any seeded split: preview, search and filter hold,
      statistics holds outside "validation", and the viewer flag holds exactly
      when the viewer answers are keyed by config. */
  lemma SeededSplitValidation(ds: seq<string>, cs: seq<string>, ss: seq<string>, configKeyed: bool, d: string, c: string, s: string)
    requires ListsOk(ds, cs, ss) && d in ds && c in cs && s in ss
    ensures ValidateSplit(Seeded(ds, cs, ss, configKeyed), NewSplit(d, c, s))
         == Success(Validated(ValidationResult(configKeyed, true, true, true, s != "validation"), 1.0))
  {
    var m := SeedDatasets(EmptyMock(), ds, cs, ss, configKeyed);
    SeededAnswers(ds, cs, ss, configKeyed, d, c, s);
    DefaultFeaturesIndexable();
    if !configKeyed {
      assert NoColon(d) && NameOk(c);
      SeedDatasetsSkipConfigViewer(EmptyMock(), ds, cs, ss, d, c);
      assert CheckSuccessfulResponse(m, ConfigHasViewer, NewConfig(d, c)).Failure?;
    }
  }

  /** The crate's default store: split validation never reports the viewer
      capability, so a fully seeded split shows four capabilities. */
  lemma DefaultMockSplitLacksViewer()
    ensures ValidateSplit(AsDataAccess(DefaultMock()), NewSplit("mock/dataset", "default", "train"))
         == Success(Validated(ValidationResult(false, true, true, true, true), 1.0))
    ensures CapabilityCount(ValidationResult(false, true, true, true, true)) == 4
  {
    DefaultListsOk();
    SeededSplitValidation(DefaultDatasets, DefaultConfigs, DefaultSplits, false, "mock/dataset", "default", "train");
  }

  /** With the viewer answers keyed by config the same split shows all five. */
  lemma CorrectedMockSplitHasAll()
    ensures ValidateSplit(AsDataAccess(CorrectedDefaultMock()), NewSplit("mock/dataset", "default", "train"))
         == Success(Validated(FullResult, 1.0))
    ensures CapabilityCount(FullResult) == 5
  {
    DefaultListsOk();
    SeededSplitValidation(DefaultDatasets, DefaultConfigs, DefaultSplits, true, "mock/dataset", "default", "train");
  }

  /** When every child contributes, nothing is pending and a capability is
      merged exactly when some child's content has it. */
  lemma AllContribute(children: seq<string>, lookup: string -> ChildStatus, contents: seq<ValidationResult>)
    requires |contents| == |children|
    requires forall i :: 0 <= i < |children| ==> lookup(children[i]) == Contributes(contents[i])
    ensures var t := TallyChildren(children, lookup);
      && t.pending == 0
      && forall cap :: t.result.Has(cap) <==> exists i :: 0 <= i < |contents| && contents[i].Has(cap)
  {
    var t := TallyChildren(children, lookup);
    TallyMeaning(children, lookup);
    forall cap
      ensures t.result.Has(cap) <==> exists i :: 0 <= i < |contents| && contents[i].Has(cap)
    {
      if t.result.Has(cap) {
        var i :| 0 <= i < |children| && Supplies(lookup(children[i]), cap);
        assert contents[i].Has(cap);
      }
      if exists i :: 0 <= i < |contents| && contents[i].Has(cap) {
        var i :| 0 <= i < |contents| && contents[i].Has(cap);
        assert Supplies(lookup(children[i]), cap);
      }
    }
  }

  function SplitResults(ss: seq<string>): (r: seq<ValidationResult>)
    ensures |r| == |ss| && forall i :: 0 <= i < |ss| ==> r[i] == SplitResult(ss[i])
  {
    seq(|ss|, i requires 0 <= i < |ss| => SplitResult(ss[i]))
  }

  function Repeat(v: ValidationResult, n: nat): (r: seq<ValidationResult>)
    ensures |r| == n && forall i :: 0 <= i < n ==> r[i] == v
  {
    if n == 0 then [] else [v] + Repeat(v, n - 1)
  }

  /** Config validation of a seeded config: every split's cached result is
      present, so progress is 1 and a capability holds exactly when some
      split's cached result has it. */
  lemma SeededConfigValidation(ds: seq<string>, cs: seq<string>, ss: seq<string>, configKeyed: bool, d: string, c: string)
    requires ListsOk(ds, cs, ss) && d in ds && c in cs
    ensures var r := ValidateConfig(Seeded(ds, cs, ss, configKeyed), NewConfig(d, c));
      && r.Success? && r.value.progress == 1.0
      && forall cap :: r.value.result.Has(cap) <==> exists i :: 0 <= i < |ss| && SplitResult(ss[i]).Has(cap)
  {
    var da := Seeded(ds, cs, ss, configKeyed);
    var lookup := SplitLookup(da, d, c);
    SeededConfigAnswers(ds, cs, ss, configKeyed, d, c);
    assert da.getSplitNames(d, c) == Success(ss);
    var contents := SplitResults(ss);
    forall i | 0 <= i < |ss|
      ensures lookup(ss[i]) == Contributes(contents[i])
    {
      assert ss[i] in ss;
      SeededAnswers(ds, cs, ss, configKeyed, d, c, ss[i]);
      assert da.getCachedValidation(SplitIsValid, NewSplit(d, c, ss[i]))
          == Success(CachedResponse(200, SplitResult(ss[i]), 1.0));
      assert contents[i] == SplitResult(ss[i]);
    }
    AllContribute(ss, lookup, contents);
  }

  /** Dataset validation of a seeded dataset: every config's cached result is
      the full one, so with at least one config the dataset shows all five. */
  lemma SeededDatasetValidation(ds: seq<string>, cs: seq<string>, ss: seq<string>, configKeyed: bool, d: string)
    requires ListsOk(ds, cs, ss) && d in ds && |cs| > 0
    ensures ValidateDataset(Seeded(ds, cs, ss, configKeyed), NewDataset(d)) == Success(Validated(FullResult, 1.0))
  {
    var da := Seeded(ds, cs, ss, configKeyed);
    var lookup := ConfigLookup(da, d);
    SeededConfigAnswers(ds, cs, ss, configKeyed, d, cs[0]);
    assert da.getConfigNames(d) == Success(cs);
    var contents := Repeat(FullResult, |cs|);
    forall i | 0 <= i < |cs|
      ensures lookup(cs[i]) == Contributes(contents[i])
    {
      SeededConfigAnswers(ds, cs, ss, configKeyed, d, cs[i]);
      assert da.getCachedValidation(ConfigIsValid, NewConfig(d, cs[i])) == Success(CachedResponse(200, FullResult, 1.0));
    }
    AllContribute(cs, lookup, contents);
    var t := TallyChildren(cs, lookup);
    forall cap
      ensures t.result.Has(cap) <==> FullResult.Has(cap)
    {
      assert contents[0] == FullResult;
    }
    HasExtensional(t.result, FullResult);
    assert Progress(t.total, t.pending) == 1.0;
    assert ValidateDataset(da, NewDataset(d)) == Success(Summarize(t));
  }

  /** The default store's config "default" of "mock/dataset" aggregates to
      all five capabilities: "train" supplies statistics. */
  lemma DefaultMockConfig()
    ensures ValidateConfig(AsDataAccess(DefaultMock()), NewConfig("mock/dataset", "default"))
         == Success(Validated(FullResult, 1.0))
  {
    DefaultListsOk();
    SeededConfigValidation(DefaultDatasets, DefaultConfigs, DefaultSplits, false, "mock/dataset", "default");
    var r := ValidateConfig(AsDataAccess(DefaultMock()), NewConfig("mock/dataset", "default"));
    assert SplitResult(DefaultSplits[0]) == FullResult;
    forall cap ensures r.value.result.Has(cap) <==> FullResult.Has(cap) {
      assert SplitResult(DefaultSplits[0]).Has(cap) == FullResult.Has(cap);
    }
    HasExtensional(r.value.result, FullResult);
  }

  lemma DefaultMockDataset()
    ensures ValidateDataset(AsDataAccess(DefaultMock()), NewDataset("mock/dataset"))
         == Success(Validated(FullResult, 1.0))
  {
    DefaultListsOk();
    SeededDatasetValidation(DefaultDatasets, DefaultConfigs, DefaultSplits, false, "mock/dataset");
  }

  /** A dataset the store was not seeded with fails with a data-access error. */
  lemma UnseededDatasetFails(ds: seq<string>, cs: seq<string>, ss: seq<string>, configKeyed: bool, d: string)
    requires d !in ds
    ensures var r := ValidateDataset(Seeded(ds, cs, ss, configKeyed), NewDataset(d));
      r.Failure? && r.error.DataAccessError?
  {
    SeedDatasetsOnlyListed(EmptyMock(), ds, cs, ss, configKeyed, d);
  }

  lemma DefaultMockUnknownDataset()
    ensures ValidateDataset(AsDataAccess(DefaultMock()), NewDataset("unknown/dataset")).Failure?
  {
    UnseededDatasetFails(DefaultDatasets, DefaultConfigs, DefaultSplits, false, "unknown/dataset");
  }
}
