/** What the seeded mock store answers, proved from the seeding loops: in
    particular that the crate's seeding stores the viewer answers under split
    keys, where split validation never looks for them. */
module MockProperties {
  import opened Wrappers
  import opened Strings
  import opened Capabilities
  import opened Entity
  import opened Validator
  import opened MockStore

  predicate NameOk(s: string) {
    s != "" && NoColon(s)
  }

  predicate NamesOk(ns: seq<string>) {
    forall i :: 0 <= i < |ns| ==> NameOk(ns[i])
  }

  /** The seeded lists are non-empty names without ':' (dataset names only
      need to avoid ':'). */
  predicate ListsOk(ds: seq<string>, cs: seq<string>, ss: seq<string>) {
    (forall i :: 0 <= i < |ds| ==> NoColon(ds[i])) && NamesOk(cs) && NamesOk(ss)
  }

  lemma KindsHaveNoColon()
    ensures NoColon(ConfigHasViewer) && NoColon(SplitHasPreview) && NoColon(SplitHasStatistics)
    ensures NoColon(SplitIsValid) && NoColon(ConfigIsValid)
  {
  }

  lemma DefaultListsOk()
    ensures ListsOk(DefaultDatasets, DefaultConfigs, DefaultSplits)
  {
  }

  /** The answer seeding stores for a probe key, read off the key's parts. */
  function ExpectedResponse(t: EntityIdentifier, kind: string): bool {
    !(kind == SplitHasStatistics && t.split == Some("validation"))
  }

  /** The cached response seeding stores for a split or config key. */
  function ExpectedCached(t: EntityIdentifier): CachedResponse {
    if t.split.Some? then CachedResponse(200, SplitResult(t.split.value), 1.0)
    else CachedResponse(200, FullResult, 1.0)
  }

  /** Whatever is stored under the key of (`t`, `kind`) is the expected value. */
  predicate StoredAsExpected(m: MockDataAccess, t: EntityIdentifier, kind: string) {
    && (CacheKey(t, kind) in m.successfulResponses ==>
          m.successfulResponses[CacheKey(t, kind)] == ExpectedResponse(t, kind))
    && (CacheKey(t, kind) in m.cachedValidations ==>
          m.cachedValidations[CacheKey(t, kind)] == ExpectedCached(t))
  }

  /** Every value of the three maps keyed by names is the seeded one. */
  predicate UniformOk(m: MockDataAccess, cs: seq<string>, ss: seq<string>) {
    && (forall k :: k in m.parquetMetadata ==> m.parquetMetadata[k] == NewMetadata(DefaultFeatures))
    && (forall k :: k in m.splitNames ==> m.splitNames[k] == ss)
    && (forall k :: k in m.configNames ==> m.configNames[k] == cs)
  }

  // ---------------------------------------------------------------------------
  // Stored values agree with the key, layer by layer
  // ---------------------------------------------------------------------------

  /** A write under key(`e`, `k`) of the value expected for (`e`, `k`) keeps
      every key's value as expected: by injectivity of the cache key, it can
      only overwrite the same request. */
  lemma SameKeySameRequest(e: EntityIdentifier, k: string, t: EntityIdentifier, kind: string)
    requires WellFormed(e) && WellFormed(t) && NoColon(k) && NoColon(kind)
    ensures CacheKey(e, k) == CacheKey(t, kind) ==> e == t && k == kind
  {
    if CacheKey(e, k) == CacheKey(t, kind) {
      CacheKeyInjective(e, k, t, kind);
    }
  }

  lemma SeedSplitKeeps(m: MockDataAccess, d: string, c: string, s: string, fix: bool, t: EntityIdentifier, kind: string)
    requires NoColon(d) && NameOk(c) && NameOk(s) && WellFormed(t) && NoColon(kind)
    requires StoredAsExpected(m, t, kind)
    ensures StoredAsExpected(SeedSplit(m, d, c, s, fix), t, kind)
  {
    KindsHaveNoColon();
    var e := NewSplit(d, c, s);
    SameKeySameRequest(ViewerEntity(d, c, s, fix), ConfigHasViewer, t, kind);
    SameKeySameRequest(e, SplitHasPreview, t, kind);
    SameKeySameRequest(e, SplitHasStatistics, t, kind);
    SameKeySameRequest(e, SplitIsValid, t, kind);
  }

  lemma {:induction false} SeedSplitsKeeps(m: MockDataAccess, d: string, c: string, ss: seq<string>, fix: bool, t: EntityIdentifier, kind: string)
    requires NoColon(d) && NameOk(c) && NamesOk(ss) && WellFormed(t) && NoColon(kind)
    requires StoredAsExpected(m, t, kind)
    ensures StoredAsExpected(SeedSplits(m, d, c, ss, fix), t, kind)
    decreases |ss|
  {
    if |ss| > 0 {
      SeedSplitKeeps(m, d, c, ss[0], fix, t, kind);
      SeedSplitsKeeps(SeedSplit(m, d, c, ss[0], fix), d, c, ss[1..], fix, t, kind);
    }
  }

  lemma SeedConfigKeeps(m: MockDataAccess, d: string, c: string, ss: seq<string>, fix: bool, t: EntityIdentifier, kind: string)
    requires NoColon(d) && NameOk(c) && NamesOk(ss) && WellFormed(t) && NoColon(kind)
    requires StoredAsExpected(m, t, kind)
    ensures StoredAsExpected(SeedConfig(m, d, c, ss, fix), t, kind)
  {
    KindsHaveNoColon();
    var m1 := m.(splitNames := m.splitNames[PairKey(d, c) := ss],
                 parquetMetadata := m.parquetMetadata[PairKey(d, c) := NewMetadata(DefaultFeatures)]);
    SeedSplitsKeeps(m1, d, c, ss, fix, t, kind);
    SameKeySameRequest(NewConfig(d, c), ConfigIsValid, t, kind);
  }

  lemma {:induction false} SeedConfigsKeeps(m: MockDataAccess, d: string, cs: seq<string>, ss: seq<string>, fix: bool, t: EntityIdentifier, kind: string)
    requires NoColon(d) && NamesOk(cs) && NamesOk(ss) && WellFormed(t) && NoColon(kind)
    requires StoredAsExpected(m, t, kind)
    ensures StoredAsExpected(SeedConfigs(m, d, cs, ss, fix), t, kind)
    decreases |cs|
  {
    if |cs| > 0 {
      SeedConfigKeeps(m, d, cs[0], ss, fix, t, kind);
      SeedConfigsKeeps(SeedConfig(m, d, cs[0], ss, fix), d, cs[1..], ss, fix, t, kind);
    }
  }

  lemma {:induction false} SeedDatasetsKeeps(m: MockDataAccess, ds: seq<string>, cs: seq<string>, ss: seq<string>, fix: bool, t: EntityIdentifier, kind: string)
    requires ListsOk(ds, cs, ss) && WellFormed(t) && NoColon(kind)
    requires StoredAsExpected(m, t, kind)
    ensures StoredAsExpected(SeedDatasets(m, ds, cs, ss, fix), t, kind)
    decreases |ds|
  {
    if |ds| > 0 {
      var m1 := m.(configNames := m.configNames[ds[0] := cs]);
      SeedConfigsKeeps(m1, ds[0], cs, ss, fix, t, kind);
      SeedDatasetsKeeps(SeedDataset(m, ds[0], cs, ss, fix), ds[1..], cs, ss, fix, t, kind);
    }
  }

  lemma {:induction false} SeedSplitsUniform(m: MockDataAccess, d: string, c: string, ss: seq<string>, fix: bool, cs: seq<string>)
    requires UniformOk(m, cs, ss)
    ensures UniformOk(SeedSplits(m, d, c, ss, fix), cs, ss)
  {
  }

  lemma {:induction false} SeedConfigsUniform(m: MockDataAccess, d: string, cs: seq<string>, ss: seq<string>, fix: bool, cs': seq<string>)
    requires UniformOk(m, cs', ss)
    ensures UniformOk(SeedConfigs(m, d, cs, ss, fix), cs', ss)
    decreases |cs|
  {
    if |cs| > 0 {
      var m1 := m.(splitNames := m.splitNames[PairKey(d, cs[0]) := ss],
                   parquetMetadata := m.parquetMetadata[PairKey(d, cs[0]) := NewMetadata(DefaultFeatures)]);
      SeedSplitsUniform(m1, d, cs[0], ss, fix, cs');
      SeedConfigsUniform(SeedConfig(m, d, cs[0], ss, fix), d, cs[1..], ss, fix, cs');
    }
  }

  lemma {:induction false} SeedDatasetsUniform(m: MockDataAccess, ds: seq<string>, cs: seq<string>, ss: seq<string>, fix: bool)
    requires UniformOk(m, cs, ss)
    ensures UniformOk(SeedDatasets(m, ds, cs, ss, fix), cs, ss)
    decreases |ds|
  {
    if |ds| > 0 {
      SeedConfigsUniform(m.(configNames := m.configNames[ds[0] := cs]), ds[0], cs, ss, fix, cs);
      SeedDatasetsUniform(SeedDataset(m, ds[0], cs, ss, fix), ds[1..], cs, ss, fix);
    }
  }

  // ---------------------------------------------------------------------------
  // Which keys the seeding writes
  // ---------------------------------------------------------------------------

  /** The keys the body of the split loop writes, as (entity, kind) pairs. */
  predicate WrittenForSplit(d: string, c: string, s: string, fix: bool, t: EntityIdentifier, kind: string) {
    || (kind == ConfigHasViewer && t == ViewerEntity(d, c, s, fix))
    || ((kind == SplitHasPreview || kind == SplitHasStatistics || kind == SplitIsValid) && t == NewSplit(d, c, s))
  }

  predicate HasKey(m: MockDataAccess, t: EntityIdentifier, kind: string) {
    if kind == SplitIsValid || kind == ConfigIsValid then CacheKey(t, kind) in m.cachedValidations
    else CacheKey(t, kind) in m.successfulResponses
  }

  lemma GrowsKeepsKey(m: MockDataAccess, r: MockDataAccess, t: EntityIdentifier, kind: string)
    requires Grows(m, r) && HasKey(m, t, kind)
    ensures HasKey(r, t, kind)
  {
  }

  lemma {:induction false} SeedSplitsAdds(m: MockDataAccess, d: string, c: string, ss: seq<string>, fix: bool, s: string, t: EntityIdentifier, kind: string)
    requires s in ss && WrittenForSplit(d, c, s, fix, t, kind)
    ensures HasKey(SeedSplits(m, d, c, ss, fix), t, kind)
    decreases |ss|
  {
    var m1 := SeedSplit(m, d, c, ss[0], fix);
    if ss[0] == s {
      assert HasKey(m1, t, kind);
      GrowsKeepsKey(m1, SeedSplits(m1, d, c, ss[1..], fix), t, kind);
    } else {
      assert s in ss[1..];
      SeedSplitsAdds(m1, d, c, ss[1..], fix, s, t, kind);
    }
  }

  /** The keys the body of the config loop writes, including its splits' keys. */
  predicate WrittenForConfig(d: string, c: string, ss: seq<string>, fix: bool, s: string, t: EntityIdentifier, kind: string) {
    || (kind == ConfigIsValid && t == NewConfig(d, c))
    || (s in ss && WrittenForSplit(d, c, s, fix, t, kind))
  }

  lemma SeedConfigAdds(m: MockDataAccess, d: string, c: string, ss: seq<string>, fix: bool, s: string, t: EntityIdentifier, kind: string)
    requires WrittenForConfig(d, c, ss, fix, s, t, kind)
    ensures HasKey(SeedConfig(m, d, c, ss, fix), t, kind)
    ensures PairKey(d, c) in SeedConfig(m, d, c, ss, fix).parquetMetadata
    ensures PairKey(d, c) in SeedConfig(m, d, c, ss, fix).splitNames
  {
    var m1 := m.(splitNames := m.splitNames[PairKey(d, c) := ss],
                 parquetMetadata := m.parquetMetadata[PairKey(d, c) := NewMetadata(DefaultFeatures)]);
    if !(kind == ConfigIsValid && t == NewConfig(d, c)) {
      SeedSplitsAdds(m1, d, c, ss, fix, s, t, kind);
    }
  }

  lemma {:induction false} SeedConfigsAdds(m: MockDataAccess, d: string, cs: seq<string>, ss: seq<string>, fix: bool, c: string, s: string, t: EntityIdentifier, kind: string)
    requires c in cs && WrittenForConfig(d, c, ss, fix, s, t, kind)
    ensures HasKey(SeedConfigs(m, d, cs, ss, fix), t, kind)
    ensures PairKey(d, c) in SeedConfigs(m, d, cs, ss, fix).parquetMetadata
    ensures PairKey(d, c) in SeedConfigs(m, d, cs, ss, fix).splitNames
    decreases |cs|
  {
    var m1 := SeedConfig(m, d, cs[0], ss, fix);
    if cs[0] == c {
      SeedConfigAdds(m, d, c, ss, fix, s, t, kind);
      GrowsKeepsKey(m1, SeedConfigs(m1, d, cs[1..], ss, fix), t, kind);
    } else {
      assert c in cs[1..];
      SeedConfigsAdds(m1, d, cs[1..], ss, fix, c, s, t, kind);
    }
  }

  lemma {:induction false} SeedDatasetsAdds(m: MockDataAccess, ds: seq<string>, cs: seq<string>, ss: seq<string>, fix: bool, d: string, c: string, s: string, t: EntityIdentifier, kind: string)
    requires d in ds && c in cs && WrittenForConfig(d, c, ss, fix, s, t, kind)
    ensures HasKey(SeedDatasets(m, ds, cs, ss, fix), t, kind)
    ensures PairKey(d, c) in SeedDatasets(m, ds, cs, ss, fix).parquetMetadata
    ensures PairKey(d, c) in SeedDatasets(m, ds, cs, ss, fix).splitNames
    ensures d in SeedDatasets(m, ds, cs, ss, fix).configNames
    decreases |ds|
  {
    var m0 := m.(configNames := m.configNames[ds[0] := cs]);
    var m1 := SeedDataset(m, ds[0], cs, ss, fix);
    if ds[0] == d {
      SeedConfigsAdds(m0, d, cs, ss, fix, c, s, t, kind);
      GrowsKeepsKey(m1, SeedDatasets(m1, ds[1..], cs, ss, fix), t, kind);
    } else {
      assert d in ds[1..];
      SeedDatasetsAdds(m1, ds[1..], cs, ss, fix, d, c, s, t, kind);
    }
  }

  lemma {:induction false} SeedDatasetsOnlyListed(m: MockDataAccess, ds: seq<string>, cs: seq<string>, ss: seq<string>, fix: bool, d: string)
    requires d !in ds && d !in m.configNames
    ensures d !in SeedDatasets(m, ds, cs, ss, fix).configNames
    decreases |ds|
  {
    if |ds| > 0 {
      SeedDatasetsOnlyListed(SeedDataset(m, ds[0], cs, ss, fix), ds[1..], cs, ss, fix, d);
    }
  }

  // ---------------------------------------------------------------------------
  // The crate's seeding never answers a config-level viewer probe
  // ---------------------------------------------------------------------------

  predicate ConfigViewerAbsent(m: MockDataAccess, d: string, c: string) {
    CacheKey(NewConfig(d, c), ConfigHasViewer) !in m.successfulResponses
  }

  lemma SeedSplitSkipsConfigViewer(m: MockDataAccess, d: string, c: string, d': string, c': string, s: string)
    requires NoColon(d) && NoColon(d') && NameOk(c) && NameOk(c') && NameOk(s)
    requires ConfigViewerAbsent(m, d', c')
    ensures ConfigViewerAbsent(SeedSplit(m, d, c, s, false), d', c')
  {
    KindsHaveNoColon();
    var e := NewSplit(d, c, s);
    SameKeySameRequest(e, ConfigHasViewer, NewConfig(d', c'), ConfigHasViewer);
    SameKeySameRequest(e, SplitHasPreview, NewConfig(d', c'), ConfigHasViewer);
    SameKeySameRequest(e, SplitHasStatistics, NewConfig(d', c'), ConfigHasViewer);
  }

  lemma {:induction false} SeedSplitsSkipConfigViewer(m: MockDataAccess, d: string, c: string, ss: seq<string>, d': string, c': string)
    requires NoColon(d) && NoColon(d') && NameOk(c) && NameOk(c') && NamesOk(ss)
    requires ConfigViewerAbsent(m, d', c')
    ensures ConfigViewerAbsent(SeedSplits(m, d, c, ss, false), d', c')
    decreases |ss|
  {
    if |ss| > 0 {
      SeedSplitSkipsConfigViewer(m, d, c, d', c', ss[0]);
      SeedSplitsSkipConfigViewer(SeedSplit(m, d, c, ss[0], false), d, c, ss[1..], d', c');
    }
  }

  lemma {:induction false} SeedConfigsSkipConfigViewer(m: MockDataAccess, d: string, cs: seq<string>, ss: seq<string>, d': string, c': string)
    requires NoColon(d) && NoColon(d') && NamesOk(cs) && NameOk(c') && NamesOk(ss)
    requires ConfigViewerAbsent(m, d', c')
    ensures ConfigViewerAbsent(SeedConfigs(m, d, cs, ss, false), d', c')
    decreases |cs|
  {
    if |cs| > 0 {
      var m1 := m.(splitNames := m.splitNames[PairKey(d, cs[0]) := ss],
                   parquetMetadata := m.parquetMetadata[PairKey(d, cs[0]) := NewMetadata(DefaultFeatures)]);
      SeedSplitsSkipConfigViewer(m1, d, cs[0], ss, d', c');
      SeedConfigsSkipConfigViewer(SeedConfig(m, d, cs[0], ss, false), d, cs[1..], ss, d', c');
    }
  }

  /** With the crate's seeding, no config-level viewer answer exists, for
      any well-formed dataset and config name. */
  lemma {:induction false} SeedDatasetsSkipConfigViewer(m: MockDataAccess, ds: seq<string>, cs: seq<string>, ss: seq<string>, d': string, c': string)
    requires ListsOk(ds, cs, ss) && NoColon(d') && NameOk(c')
    requires ConfigViewerAbsent(m, d', c')
    ensures ConfigViewerAbsent(SeedDatasets(m, ds, cs, ss, false), d', c')
    decreases |ds|
  {
    if |ds| > 0 {
      SeedConfigsSkipConfigViewer(m.(configNames := m.configNames[ds[0] := cs]), ds[0], cs, ss, d', c');
      SeedDatasetsSkipConfigViewer(SeedDataset(m, ds[0], cs, ss, false), ds[1..], cs, ss, d', c');
    }
  }

  // ---------------------------------------------------------------------------
  // What the seeded store answers
  // ---------------------------------------------------------------------------

  lemma DefaultFeaturesIndexable()
    ensures HasIndexableColumns(DefaultFeatures)
  {
    assert DefaultFeatures["text"] == "string";
    assert OccursAt("string", "string", 0);
    ContainsAt("string", "string", 0);
  }

  /** Every seeded (dataset, config) is answered as seeded. */
  lemma SeededConfigAnswers(ds: seq<string>, cs: seq<string>, ss: seq<string>, fix: bool, d: string, c: string)
    requires ListsOk(ds, cs, ss) && d in ds && c in cs
    ensures var m := SeedDatasets(EmptyMock(), ds, cs, ss, fix);
      && GetParquetMetadata(m, d, c) == Success(NewMetadata(DefaultFeatures))
      && GetSplitNames(m, d, c) == Success(ss)
      && GetConfigNames(m, d) == Success(cs)
      && GetCachedValidation(m, ConfigIsValid, NewConfig(d, c)) == Success(CachedResponse(200, FullResult, 1.0))
  {
    KindsHaveNoColon();
    assert NoColon(d) && NameOk(c);
    SeedDatasetsUniform(EmptyMock(), ds, cs, ss, fix);
    SeedDatasetsAdds(EmptyMock(), ds, cs, ss, fix, d, c, "", NewConfig(d, c), ConfigIsValid);
    SeedDatasetsKeeps(EmptyMock(), ds, cs, ss, fix, NewConfig(d, c), ConfigIsValid);
  }

  /** Every seeded (dataset, config, split) is answered as seeded. */
  lemma SeededAnswers(ds: seq<string>, cs: seq<string>, ss: seq<string>, fix: bool, d: string, c: string, s: string)
    requires ListsOk(ds, cs, ss) && d in ds && c in cs && s in ss
    ensures var m := SeedDatasets(EmptyMock(), ds, cs, ss, fix);
      && GetParquetMetadata(m, d, c) == Success(NewMetadata(DefaultFeatures))
      && GetSplitNames(m, d, c) == Success(ss)
      && GetConfigNames(m, d) == Success(cs)
      && CheckSuccessfulResponse(m, ConfigHasViewer, ViewerEntity(d, c, s, fix)) == Success(true)
      && CheckSuccessfulResponse(m, SplitHasPreview, NewSplit(d, c, s)) == Success(true)
      && CheckSuccessfulResponse(m, SplitHasStatistics, NewSplit(d, c, s)) == Success(s != "validation")
      && GetCachedValidation(m, SplitIsValid, NewSplit(d, c, s)) == Success(CachedResponse(200, SplitResult(s), 1.0))
      && GetCachedValidation(m, ConfigIsValid, NewConfig(d, c)) == Success(CachedResponse(200, FullResult, 1.0))
  {
    var m := SeedDatasets(EmptyMock(), ds, cs, ss, fix);
    KindsHaveNoColon();
    assert NoColon(d) && NameOk(c) && NameOk(s);
    SeedDatasetsUniform(EmptyMock(), ds, cs, ss, fix);
    var e := NewSplit(d, c, s);
    var v := ViewerEntity(d, c, s, fix);
    SeedDatasetsAdds(EmptyMock(), ds, cs, ss, fix, d, c, s, v, ConfigHasViewer);
    SeedDatasetsAdds(EmptyMock(), ds, cs, ss, fix, d, c, s, e, SplitHasPreview);
    SeedDatasetsAdds(EmptyMock(), ds, cs, ss, fix, d, c, s, e, SplitHasStatistics);
    SeedDatasetsAdds(EmptyMock(), ds, cs, ss, fix, d, c, s, e, SplitIsValid);
    SeedDatasetsAdds(EmptyMock(), ds, cs, ss, fix, d, c, s, NewConfig(d, c), ConfigIsValid);
    SeedDatasetsKeeps(EmptyMock(), ds, cs, ss, fix, v, ConfigHasViewer);
    SeedDatasetsKeeps(EmptyMock(), ds, cs, ss, fix, e, SplitHasPreview);
    SeedDatasetsKeeps(EmptyMock(), ds, cs, ss, fix, e, SplitHasStatistics);
    SeedDatasetsKeeps(EmptyMock(), ds, cs, ss, fix, e, SplitIsValid);
    SeedDatasetsKeeps(EmptyMock(), ds, cs, ss, fix, NewConfig(d, c), ConfigIsValid);
  }
}
