/** The five-flag capability record of `src/validator.rs` and its OR-merge. */
module Capabilities {

  datatype ValidationCapability = Viewer | Preview | Search | Filter | Statistics

  /** One boolean per capability. */
  datatype ValidationResult = ValidationResult(
    viewer: bool,
    preview: bool,
    search: bool,
    filter: bool,
    statistics: bool)
  {
    /** The flag that records capability `c`. */
    predicate Has(c: ValidationCapability) {
      match c
      case Viewer => viewer
      case Preview => preview
      case Search => search
      case Filter => filter
      case Statistics => statistics
    }
  }

  /** `ValidationResult::new()` / `Default`: no capability proven. */
  function NewResult(): (r: ValidationResult)
    ensures forall c :: !r.Has(c)
  {
    ValidationResult(false, false, false, false, false)
  }

  /** `merge`: the result has a capability exactly when either input has it. */
  function Merge(a: ValidationResult, b: ValidationResult): (r: ValidationResult)
    ensures forall c :: r.Has(c) <==> a.Has(c) || b.Has(c)
  {
    ValidationResult(
      a.viewer || b.viewer,
      a.preview || b.preview,
      a.search || b.search,
      a.filter || b.filter,
      a.statistics || b.statistics)
  }

  function Flag(b: bool): nat {
    if b then 1 else 0
  }

  /** The capabilities `r` has. */
  function Held(r: ValidationResult): set<ValidationCapability> {
    set c: ValidationCapability | r.Has(c)
  }

  /** The singleton `{c}` when `b` holds, else the empty set. */
  function When(b: bool, c: ValidationCapability): set<ValidationCapability> {
    if b then {c} else {}
  }

  /** Adding an optional singleton whose element is not yet present adds its flag. */
  lemma AddWhen(a: set<ValidationCapability>, b: bool, c: ValidationCapability)
    requires c !in a
    ensures |a + When(b, c)| == |a| + Flag(b)
  {
    assert a * When(b, c) == {};
  }

  /** The held capabilities, one optional singleton per flag. */
  function Union(r: ValidationResult): set<ValidationCapability> {
    When(r.viewer, Viewer) + When(r.preview, Preview) + When(r.search, Search)
      + When(r.filter, Filter) + When(r.statistics, Statistics)
  }

  lemma HeldIsUnion(r: ValidationResult)
    ensures Held(r) == Union(r)
  {
    forall c ensures c in Held(r) <==> c in Union(r) {
      match c
      case Viewer =>
      case Preview =>
      case Search =>
      case Filter =>
      case Statistics =>
    }
  }

  /** The union of the first two singletons has the sum of their flags as size. */
  lemma UnionSize2(a: bool, b: bool)
    ensures |When(a, Viewer) + When(b, Preview)| == Flag(a) + Flag(b)
  {
    AddWhen(When(a, Viewer), b, Preview);
  }

  lemma UnionSize3(a: bool, b: bool, c: bool)
    ensures |When(a, Viewer) + When(b, Preview) + When(c, Search)| == Flag(a) + Flag(b) + Flag(c)
  {
    UnionSize2(a, b);
    AddWhen(When(a, Viewer) + When(b, Preview), c, Search);
  }

  lemma UnionSize4(a: bool, b: bool, c: bool, d: bool)
    ensures |When(a, Viewer) + When(b, Preview) + When(c, Search) + When(d, Filter)|
         == Flag(a) + Flag(b) + Flag(c) + Flag(d)
  {
    UnionSize3(a, b, c);
    AddWhen(When(a, Viewer) + When(b, Preview) + When(c, Search), d, Filter);
  }

  /** Those singletons are disjoint, so the size of their union is the sum
      of the flags. */
  lemma UnionSize(r: ValidationResult)
    ensures |Union(r)| == Flag(r.viewer) + Flag(r.preview) + Flag(r.search) + Flag(r.filter) + Flag(r.statistics)
  {
    UnionSize4(r.viewer, r.preview, r.search, r.filter);
    AddWhen(When(r.viewer, Viewer) + When(r.preview, Preview) + When(r.search, Search) + When(r.filter, Filter),
      r.statistics, Statistics);
  }

  /** `capability_count`: the number of flags that are set. */
  function CapabilityCount(r: ValidationResult): (n: nat)
    ensures n == |Held(r)|
    ensures n <= 5
    ensures n == 0 <==> forall c :: !r.Has(c)
    ensures n == 5 <==> forall c :: r.Has(c)
  {
    assert r.Has(Viewer) && r.Has(Preview) && r.Has(Search) && r.Has(Filter) && r.Has(Statistics)
      ==> forall c :: r.Has(c);
    assert !r.Has(Viewer) && !r.Has(Preview) && !r.Has(Search) && !r.Has(Filter) && !r.Has(Statistics)
      ==> forall c :: !r.Has(c);
    HeldIsUnion(r);
    UnionSize(r);
    Flag(r.viewer) + Flag(r.preview) + Flag(r.search) + Flag(r.filter) + Flag(r.statistics)
  }

  /** Two results with the same capabilities are the same result. */
  lemma HasExtensional(a: ValidationResult, b: ValidationResult)
    requires forall c :: a.Has(c) <==> b.Has(c)
    ensures a == b
  {
    assert a.Has(Viewer) == b.Has(Viewer);
    assert a.Has(Preview) == b.Has(Preview);
    assert a.Has(Search) == b.Has(Search);
    assert a.Has(Filter) == b.Has(Filter);
    assert a.Has(Statistics) == b.Has(Statistics);
  }

  /** Merge is a join: commutative, associative, idempotent, with the
      all-false result as its unit; hence aggregation is order-independent. */
  lemma MergeAlgebra(a: ValidationResult, b: ValidationResult, c: ValidationResult)
    ensures Merge(a, b) == Merge(b, a)
    ensures Merge(Merge(a, b), c) == Merge(a, Merge(b, c))
    ensures Merge(a, a) == a
    ensures Merge(NewResult(), a) == a && Merge(a, NewResult()) == a
  {
  }

  /** The capabilities of a merge are the union of the inputs' capabilities. */
  lemma MergeHeld(a: ValidationResult, b: ValidationResult)
    ensures Held(Merge(a, b)) == Held(a) + Held(b)
  {
    forall c ensures c in Held(Merge(a, b)) <==> c in Held(a) + Held(b) {
      assert c in Held(Merge(a, b)) <==> Merge(a, b).Has(c);
      assert c in Held(a) <==> a.Has(c);
      assert c in Held(b) <==> b.Has(c);
    }
  }

  /** Merging never loses a capability and never lowers the count; the
      count of a merge is at most the sum of the counts. */
  lemma MergeCount(a: ValidationResult, b: ValidationResult)
    ensures CapabilityCount(Merge(a, b)) >= CapabilityCount(a)
    ensures CapabilityCount(Merge(a, b)) >= CapabilityCount(b)
    ensures CapabilityCount(Merge(a, b)) <= CapabilityCount(a) + CapabilityCount(b)
  {
  }

  /** Two results that together cover every capability merge to a full score
      of 5, as the complementary pair in the crate's own test does. */
  lemma ComplementaryMerge(a: ValidationResult, b: ValidationResult)
    requires forall c :: a.Has(c) || b.Has(c)
    ensures CapabilityCount(Merge(a, b)) == 5
  {
  }

  lemma ComplementaryPairExample()
    ensures Merge(ValidationResult(true, false, true, false, true),
                  ValidationResult(false, true, false, true, false))
            == ValidationResult(true, true, true, true, true)
    ensures CapabilityCount(Merge(ValidationResult(true, false, true, false, true),
                                  ValidationResult(false, true, false, true, false))) == 5
  {
  }
}
