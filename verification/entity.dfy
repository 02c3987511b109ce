/** Entity addressing of `src/validator.rs`: a dataset, a config inside a
    dataset, or a split inside a config; its level, cache key and display form. */
module Entity {
  import opened Wrappers

  datatype ValidationLevel = Split | Config | Dataset

  datatype EntityIdentifier = EntityIdentifier(
    dataset: string,
    config: Option<string>,
    split: Option<string>)

  /** The named constructors: each yields an identifier of its own level,
      displayed as its parts joined with '/'. */
  function NewDataset(dataset: string): (e: EntityIdentifier)
    ensures InferLevel(e) == Dataset && Display(e) == dataset
  {
    EntityIdentifier(dataset, None, None)
  }

  function NewConfig(dataset: string, config: string): (e: EntityIdentifier)
    ensures InferLevel(e) == Config && Display(e) == dataset + "/" + config
  {
    EntityIdentifier(dataset, Some(config), None)
  }

  function NewSplit(dataset: string, config: string, split: string): (e: EntityIdentifier)
    ensures InferLevel(e) == Split && Display(e) == dataset + "/" + config + "/" + split
  {
    EntityIdentifier(dataset, Some(config), Some(split))
  }

  /** `infer_level`: total over the four presence combinations; a split
      without a config counts as a dataset. */
  function InferLevel(e: EntityIdentifier): (l: ValidationLevel)
    ensures l == Split <==> e.config.Some? && e.split.Some?
    ensures l == Config <==> e.config.Some? && e.split.None?
    ensures l == Dataset <==> e.config.None?
  {
    match (e.config, e.split)
    case (Some(_), Some(_)) => Split
    case (Some(_), None) => Config
    case (None, None) => Dataset
    case (None, Some(_)) => Dataset
  }

  /** `cache_key(kind)`: `kind:dataset:config:split`, absent parts empty. */
  function CacheKey(e: EntityIdentifier, kind: string): string {
    kind + ":" + e.dataset + ":" + e.config.UnwrapOr("") + ":" + e.split.UnwrapOr("")
  }

  /** Display: the present parts joined with '/'. */
  function Display(e: EntityIdentifier): string {
    match (e.config, e.split)
    case (Some(c), Some(s)) => e.dataset + "/" + c + "/" + s
    case (Some(c), None) => e.dataset + "/" + c
    case _ => e.dataset
  }

  predicate NoColon(s: string) {
    ':' !in s
  }

  /** The shapes under which the cache key identifies its entity: no field
      contains the delimiter and a present config or split name is non-empty. */
  predicate WellFormed(e: EntityIdentifier) {
    && NoColon(e.dataset)
    && (e.config.Some? ==> e.config.value != "" && NoColon(e.config.value))
    && (e.split.Some? ==> e.split.value != "" && NoColon(e.split.value))
  }

  /** Splitting at the first ':' recovers both halves. */
  lemma SplitAtFirstColon(a: string, b: string, c: string, d: string)
    requires NoColon(a) && NoColon(c)
    requires a + ":" + b == c + ":" + d
    ensures a == c && b == d
  {
    var s := a + ":" + b;
    assert s[|a|] == ':' && s[|c|] == ':';
    assert forall i :: 0 <= i < |a| ==> s[i] == a[i] != ':';
    assert forall i :: 0 <= i < |c| ==> s[i] == c[i] != ':';
    assert |a| == |c|;
    assert a == s[..|a|] && c == s[..|c|];
    assert b == s[|a| + 1..] && d == s[|c| + 1..];
  }

  /** Under `WellFormed`, the cache key determines both the check kind and the
      entity: two requests share a key only if they are the same request. */
  lemma CacheKeyInjective(e1: EntityIdentifier, k1: string, e2: EntityIdentifier, k2: string)
    requires WellFormed(e1) && WellFormed(e2) && NoColon(k1) && NoColon(k2)
    requires CacheKey(e1, k1) == CacheKey(e2, k2)
    ensures e1 == e2 && k1 == k2
  {
    var c1, s1 := e1.config.UnwrapOr(""), e1.split.UnwrapOr("");
    var c2, s2 := e2.config.UnwrapOr(""), e2.split.UnwrapOr("");
    assert CacheKey(e1, k1) == k1 + ":" + (e1.dataset + ":" + (c1 + ":" + s1));
    assert CacheKey(e2, k2) == k2 + ":" + (e2.dataset + ":" + (c2 + ":" + s2));
    SplitAtFirstColon(k1, e1.dataset + ":" + (c1 + ":" + s1), k2, e2.dataset + ":" + (c2 + ":" + s2));
    SplitAtFirstColon(e1.dataset, c1 + ":" + s1, e2.dataset, c2 + ":" + s2);
    SplitAtFirstColon(c1, s1, c2, s2);
  }

  /** Without the precondition the key is ambiguous: a config and the split of
      that config named "" share a key, and so do a dataset and its config "". */
  lemma CacheKeyCollisions(d: string, c: string, k: string)
    ensures NewConfig(d, c) != NewSplit(d, c, "")
    ensures CacheKey(NewConfig(d, c), k) == CacheKey(NewSplit(d, c, ""), k)
    ensures NewDataset(d) != NewConfig(d, "")
    ensures CacheKey(NewDataset(d), k) == CacheKey(NewConfig(d, ""), k)
  {
  }

  /** The display forms of the three constructors (the crate's own examples),
      and a case showing that the display form is not an identity: a dataset
      name may itself contain '/'. */
  lemma DisplayExamples()
    ensures Display(NewSplit("t", "c", "s")) == "t/c/s"
    ensures Display(NewConfig("t", "c")) == "t/c"
    ensures Display(NewDataset("t")) == "t"
    ensures Display(NewSplit("test", "config", "split")) == "test/config/split"
    ensures Display(NewConfig("user", "repo")) == Display(NewDataset("user/repo"))
  {
  }

  /** The display form of any identifier begins with its dataset name, and a
      present config is rendered after a '/'. */
  lemma DisplayStructure(e: EntityIdentifier)
    ensures |Display(e)| >= |e.dataset| && Display(e)[..|e.dataset|] == e.dataset
    ensures e.config.Some? ==> Display(e)[|e.dataset|] == '/'
    ensures e.config.None? ==> Display(e) == e.dataset
  {
  }
}
