/** Properties of the validation engine that relate several calls: order
    independence of aggregation, inheritance of the viewer flag, dispatch on
    the supplied level, and the documented scenarios. */
module ValidatorProperties {
  import opened Wrappers
  import opened Capabilities
  import opened Entity
  import opened Validator

  /** Two tallies of disjoint runs of children, put together. */
  function Combine(a: Tally, b: Tally): Tally {
    Tally(Merge(a.result, b.result), a.total + b.total, a.pending + b.pending)
  }

  lemma CombineAlgebra(a: Tally, b: Tally, c: Tally)
    ensures Combine(a, b) == Combine(b, a)
    ensures Combine(Combine(a, b), c) == Combine(a, Combine(b, c))
    ensures Combine(EmptyTally(), a) == a
  {
    MergeAlgebra(a.result, b.result, c.result);
  }

  /** One more child after a combined tally is one more child of the second part. */
  lemma StepCombine(a: Tally, b: Tally, s: ChildStatus)
    ensures Step(Combine(a, b), s) == Combine(a, Step(b, s))
  {
    if s.Contributes? {
      MergeAlgebra(a.result, b.result, s.content);
    }
  }

  /** Splitting the child list splits the tally. */
  lemma {:induction false} TallyAppend(a: seq<string>, b: seq<string>, lookup: string -> ChildStatus)
    ensures TallyChildren(a + b, lookup) == Combine(TallyChildren(a, lookup), TallyChildren(b, lookup))
    decreases |b|
  {
    var ta := TallyChildren(a, lookup);
    if |b| == 0 {
      assert a + b == a;
      MergeAlgebra(ta.result, NewResult(), NewResult());
    } else {
      var b', last := b[..|b| - 1], b[|b| - 1];
      var ab := a + b;
      assert ab[..|ab| - 1] == a + b';
      assert ab[|ab| - 1] == last;
      assert TallyChildren(ab, lookup) == Step(TallyChildren(a + b', lookup), lookup(last));
      assert TallyChildren(b, lookup) == Step(TallyChildren(b', lookup), lookup(last));
      TallyAppend(a, b', lookup);
      StepCombine(ta, TallyChildren(b', lookup), lookup(last));
    }
  }

  /** Removing one occurrence of the same element from two permutations of
      each other leaves two permutations of each other. */
  lemma MultisetRemove(a: seq<string>, b: seq<string>, k: nat)
    requires multiset(a) == multiset(b) && |a| > 0 && k < |b| && b[k] == a[0]
    ensures multiset(a[1..]) == multiset(b[..k] + b[k + 1..])
  {
    var one := multiset{a[0]};
    var rest := multiset(b[..k]) + multiset(b[k + 1..]);
    assert a == [a[0]] + a[1..];
    assert b == b[..k] + [b[k]] + b[k + 1..];
    assert multiset(b) == one + rest;
    assert multiset(a) == one + multiset(a[1..]);
    assert multiset(a[1..]) == multiset(a) - one;
    assert rest == multiset(b) - one;
    assert multiset(b[..k] + b[k + 1..]) == rest;
  }

  /** A child in the middle of the list can be tallied first. */
  lemma TallyMoveToFront(left: seq<string>, x: string, right: seq<string>, lookup: string -> ChildStatus)
    ensures TallyChildren(left + [x] + right, lookup)
         == Combine(TallyChildren([x], lookup), TallyChildren(left + right, lookup))
  {
    var tx, tl, tr := TallyChildren([x], lookup), TallyChildren(left, lookup), TallyChildren(right, lookup);
    TallyAppend(left + [x], right, lookup);
    TallyAppend(left, [x], lookup);
    TallyAppend(left, right, lookup);
    CombineAlgebra(tl, tx, tr);
    CombineAlgebra(tx, tl, tr);
  }

  /** The aggregate does not depend on the order in which the children are
      enumerated: any permutation of the child list gives the same tally. */
  lemma {:induction false} TallyPermutation(a: seq<string>, b: seq<string>, lookup: string -> ChildStatus)
    requires multiset(a) == multiset(b)
    ensures TallyChildren(a, lookup) == TallyChildren(b, lookup)
    decreases |a|
  {
    if |a| == 0 {
      assert |multiset(b)| == 0;
      assert b == [];
    } else {
      var x := a[0];
      assert x in multiset(b);
      var k :| 0 <= k < |b| && b[k] == x;
      var left, right := b[..k], b[k + 1..];
      MultisetRemove(a, b, k);
      var tx := TallyChildren([x], lookup);
      calc {
        TallyChildren(a, lookup);
        { assert a == [x] + a[1..]; }
        TallyChildren([x] + a[1..], lookup);
        { TallyAppend([x], a[1..], lookup); }
        Combine(tx, TallyChildren(a[1..], lookup));
        { TallyPermutation(a[1..], left + right, lookup); }
        Combine(tx, TallyChildren(left + right, lookup));
        { TallyMoveToFront(left, x, right, lookup); }
        TallyChildren(left + [x] + right, lookup);
        { assert b == left + [x] + right; }
        TallyChildren(b, lookup);
      }
    }
  }

  /** Pointwise-equal lookups give equal tallies. */
  lemma {:induction false} TallyCongruent(s: seq<string>, f: string -> ChildStatus, g: string -> ChildStatus)
    requires forall i :: 0 <= i < |s| ==> f(s[i]) == g(s[i])
    ensures TallyChildren(s, f) == TallyChildren(s, g)
  {
    if |s| > 0 {
      var init := s[..|s| - 1];
      assert forall i :: 0 <= i < |init| ==> init[i] == s[i];
      TallyCongruent(init, f, g);
    }
  }

  /** Two stores that agree on the cached "config-is-valid" answers and list
      the same configs in different orders validate the dataset identically. */
  lemma DatasetOrderIndependent(da1: DataAccess, da2: DataAccess, e: EntityIdentifier, a: seq<string>, b: seq<string>)
    requires da1.getConfigNames(e.dataset) == Success(a)
    requires da2.getConfigNames(e.dataset) == Success(b)
    requires multiset(a) == multiset(b)
    requires forall c :: da1.getCachedValidation(ConfigIsValid, NewConfig(e.dataset, c))
                      == da2.getCachedValidation(ConfigIsValid, NewConfig(e.dataset, c))
    ensures ValidateDataset(da1, e) == ValidateDataset(da2, e)
  {
    var f, g := ConfigLookup(da1, e.dataset), ConfigLookup(da2, e.dataset);
    TallyPermutation(a, b, f);
    assert forall i :: 0 <= i < |b| ==> f(b[i]) == g(b[i]) by {
      forall i | 0 <= i < |b| ensures f(b[i]) == g(b[i]) {
        assert da1.getCachedValidation(ConfigIsValid, NewConfig(e.dataset, b[i]))
            == da2.getCachedValidation(ConfigIsValid, NewConfig(e.dataset, b[i]));
      }
    }
    TallyCongruent(b, f, g);
  }

  /** The same for a config and its splits. */
  lemma ConfigOrderIndependent(da1: DataAccess, da2: DataAccess, d: string, c: string, a: seq<string>, b: seq<string>)
    requires da1.getSplitNames(d, c) == Success(a)
    requires da2.getSplitNames(d, c) == Success(b)
    requires multiset(a) == multiset(b)
    requires forall s :: da1.getCachedValidation(SplitIsValid, NewSplit(d, c, s))
                      == da2.getCachedValidation(SplitIsValid, NewSplit(d, c, s))
    ensures ValidateConfig(da1, NewConfig(d, c)) == ValidateConfig(da2, NewConfig(d, c))
  {
    var f, g := SplitLookup(da1, d, c), SplitLookup(da2, d, c);
    TallyPermutation(a, b, f);
    assert forall i :: 0 <= i < |b| ==> f(b[i]) == g(b[i]) by {
      forall i | 0 <= i < |b| ensures f(b[i]) == g(b[i]) {
        assert da1.getCachedValidation(SplitIsValid, NewSplit(d, c, b[i]))
            == da2.getCachedValidation(SplitIsValid, NewSplit(d, c, b[i]));
      }
    }
    TallyCongruent(b, f, g);
  }

  /** Progress of an aggregate: exactly the resolved fraction of the children. */
  lemma ProgressIsResolvedFraction(total: nat, pending: nat)
    requires pending <= total
    ensures total == 0 ==> Progress(total, pending) == 1.0
    ensures total > 0 ==> Progress(total, pending) * total as real == (total - pending) as real
  {
  }

  /** The viewer flag of a split is the parent config's answer: every split of
      one config gets the same viewer flag, whatever its own answers are. */
  lemma SplitViewerInherited(da: DataAccess, d: string, c: string, s1: string, s2: string)
    ensures ValidateSplit(da, NewSplit(d, c, s1)).Success?
    ensures ValidateSplit(da, NewSplit(d, c, s1)).value.result.viewer
         == ValidateSplit(da, NewSplit(d, c, s2)).value.result.viewer
  {
  }

  /** A missing schema switches off filter and search, whatever the probes say. */
  lemma MissingMetadataDisablesFilterAndSearch(da: DataAccess, d: string, c: string, s: string)
    requires da.getParquetMetadata(d, c).Failure?
    ensures !ValidateSplit(da, NewSplit(d, c, s)).value.result.filter
    ensures !ValidateSplit(da, NewSplit(d, c, s)).value.result.search
  {
  }

  /** When every probe answers true and the schema has a text column, a split
      scores 5 with progress 1. */
  lemma SplitAllChecksPass(da: DataAccess, d: string, c: string, s: string)
    requires forall k, e :: da.checkSuccessfulResponse(k, e) == Success(true)
    requires da.getParquetMetadata(d, c).Success?
    requires da.hasIndexableColumns(da.getParquetMetadata(d, c).value.features)
    ensures ValidateSplit(da, NewSplit(d, c, s)) == Success(Validated(ValidationResult(true, true, true, true, true), 1.0))
    ensures CapabilityCount(ValidateSplit(da, NewSplit(d, c, s)).value.result) == 5
  {
  }

  /** `validate` uses the level it is given: a config identifier validated at
      split level is an identifier error, and dataset validation reads only
      the dataset name. */
  lemma DispatchOnSuppliedLevel(da: DataAccess, e: EntityIdentifier)
    ensures InferLevel(e) == Config ==>
      Validate(da, e, Split).Failure? && Validate(da, e, Split).error.InvalidEntityIdentifier?
    ensures Validate(da, e, Dataset) == Validate(da, NewDataset(e.dataset), Dataset)
    ensures e.config.Some? ==>
      Validate(da, e, Config) == Validate(da, NewConfig(e.dataset, e.config.value), Config)
  {
  }

  /** A config with three splits, two cached as fully capable and one not
      cached yet: all five capabilities, progress 2/3. */
  lemma ConfigWithOnePendingSplit(da: DataAccess, d: string, c: string)
    requires da.getSplitNames(d, c) == Success(["train", "test", "validation"])
    requires forall s :: s != "validation" ==>
      da.getCachedValidation(SplitIsValid, NewSplit(d, c, s))
        == Success(CachedResponse(200, ValidationResult(true, true, true, true, true), 1.0))
    requires da.getCachedValidation(SplitIsValid, NewSplit(d, c, "validation")).Failure?
    requires da.getCachedValidation(SplitIsValid, NewSplit(d, c, "validation")).error.CacheError?
    ensures ValidateConfig(da, NewConfig(d, c))
         == Success(Validated(ValidationResult(true, true, true, true, true), 2.0 / 3.0))
  {
    var children := ["train", "test", "validation"];
    var f := SplitLookup(da, d, c);
    assert f("train") == Contributes(ValidationResult(true, true, true, true, true));
    assert f("test") == Contributes(ValidationResult(true, true, true, true, true));
    assert f("validation") == Pending;
    var full := ValidationResult(true, true, true, true, true);
    assert children[..1][..0] == [];
    assert TallyChildren(children[..1], f) == Tally(full, 1, 0);
    assert children[..2][..1] == children[..1];
    assert TallyChildren(children[..2], f) == Tally(full, 2, 0);
    assert TallyChildren(children, f) == Tally(full, 3, 1);
  }

  /** A dataset with no configs: nothing proven, nothing pending. */
  lemma DatasetWithoutConfigs(da: DataAccess, d: string)
    requires da.getConfigNames(d) == Success([])
    ensures ValidateDataset(da, NewDataset(d)) == Success(Validated(NewResult(), 1.0))
  {
  }
}
