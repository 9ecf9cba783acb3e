/** Version ordering and version specifiers of PEP 440, restricted to final releases (release
    segments only: no epoch, pre-, post-, dev- or local part) and to the six simple comparison
    operators. */
module Pep440 {

  /** A final release, by its release segments: 2.17.0 is [2, 17, 0]. */
  type Release = seq<nat>

  /** Segment i of v; missing segments read as 0 (the zero padding of PEP 440 "Final releases"). */
  function Segment(v: Release, i: nat): nat {
    if i < |v| then v[i] else 0
  }

  function Max(a: nat, b: nat): nat { if a < b then b else a }

  /** Compares segments i..n-1 of a and b: -1, 0 or 1. */
  function CompareUpTo(a: Release, b: Release, i: nat, n: nat): (r: int)
    ensures -1 <= r <= 1
    decreases n - i
  {
    if i >= n then 0
    else if Segment(a, i) < Segment(b, i) then -1
    else if Segment(a, i) > Segment(b, i) then 1
    else CompareUpTo(a, b, i + 1, n)
  }

  /** The PEP 440 order of two final releases, after padding the shorter with zeros. */
  function Compare(a: Release, b: Release): int {
    CompareUpTo(a, b, 0, Max(|a|, |b|))
  }

  predicate Less(a: Release, b: Release) { Compare(a, b) < 0 }

  /** Equal after zero padding: 2.17 and 2.17.0 are the same version. */
  predicate Equivalent(a: Release, b: Release) { Compare(a, b) == 0 }

  lemma {:induction false} CompareUpToPadding(a: Release, b: Release, i: nat, n: nat, m: nat)
    requires |a| <= n && |b| <= n && n <= m
    ensures CompareUpTo(a, b, i, m) == CompareUpTo(a, b, i, n)
    decreases m - i
  {
    if i < m {
      CompareUpToPadding(a, b, i + 1, n, m);
    }
  }

  lemma {:induction false} CompareUpToAntisymmetric(a: Release, b: Release, i: nat, n: nat)
    ensures CompareUpTo(b, a, i, n) == -CompareUpTo(a, b, i, n)
    decreases n - i
  {
    if i < n {
      CompareUpToAntisymmetric(a, b, i + 1, n);
    }
  }

  lemma {:induction false} CompareUpToTransitive(a: Release, b: Release, c: Release, i: nat, n: nat)
    requires CompareUpTo(a, b, i, n) <= 0 && CompareUpTo(b, c, i, n) <= 0
    ensures CompareUpTo(a, c, i, n) <= 0
    ensures CompareUpTo(a, b, i, n) < 0 || CompareUpTo(b, c, i, n) < 0 ==> CompareUpTo(a, c, i, n) < 0
    decreases n - i
  {
    if i < n && Segment(a, i) == Segment(b, i) && Segment(b, i) == Segment(c, i) {
      CompareUpToTransitive(a, b, c, i + 1, n);
    }
  }

  /** Reading the comparison of two versions at a common padded length. */
  lemma CompareAt(a: Release, b: Release, n: nat)
    requires |a| <= n && |b| <= n
    ensures Compare(a, b) == CompareUpTo(a, b, 0, n)
  {
    CompareUpToPadding(a, b, 0, Max(|a|, |b|), n);
  }

  /** Swapping the arguments negates the comparison. */
  lemma CompareAntisymmetric(a: Release, b: Release)
    ensures Compare(b, a) == -Compare(a, b)
  {
    CompareAt(b, a, Max(|a|, |b|));
    CompareUpToAntisymmetric(a, b, 0, Max(|a|, |b|));
  }

  /** The order is transitive, strictly so as soon as one step is strict. */
  lemma CompareTransitive(a: Release, b: Release, c: Release)
    requires Compare(a, b) <= 0 && Compare(b, c) <= 0
    ensures Compare(a, c) <= 0
    ensures Compare(a, b) < 0 || Compare(b, c) < 0 ==> Compare(a, c) < 0
  {
    var n := Max(Max(|a|, |b|), |c|);
    CompareAt(a, b, n);
    CompareAt(b, c, n);
    CompareAt(a, c, n);
    CompareUpToTransitive(a, b, c, 0, n);
  }

  /** Equivalent versions compare alike with every third version. */
  lemma EquivalentCompareAlike(a: Release, b: Release, x: Release)
    requires Equivalent(a, b)
    ensures Compare(a, x) == Compare(b, x)
  {
    CompareAntisymmetric(a, b);
    CompareAntisymmetric(a, x);
    CompareAntisymmetric(b, x);
    if Compare(a, x) <= 0 { CompareTransitive(b, a, x); }
    if Compare(x, a) <= 0 { CompareTransitive(x, a, b); }
    if Compare(b, x) <= 0 { CompareTransitive(a, b, x); }
    if Compare(x, b) <= 0 { CompareTransitive(x, b, a); }
  }

  datatype Op = Lt | Le | Gt | Ge | Eq | Ne

  /** One clause of a specifier, such as <2.17 or >=2.16.14. */
  datatype Clause = Clause(op: Op, version: Release)

  /** A specifier set: a comma-separated list of clauses, all of which must hold. */
  type SpecifierSet = seq<Clause>

  /** Whether version v satisfies one clause. For final releases the exclusive ordered
      comparisons < and > of PEP 440 are the strict orders, and == and != compare after zero
      padding. */
  predicate Admits(c: Clause, v: Release) {
    match c.op
    case Lt => Less(v, c.version)
    case Le => !Less(c.version, v)
    case Gt => Less(c.version, v)
    case Ge => !Less(v, c.version)
    case Eq => Equivalent(v, c.version)
    case Ne => !Equivalent(v, c.version)
  }

  /** `v in spec`: v satisfies every clause of the set (an empty set admits every version). */
  predicate Contains(spec: SpecifierSet, v: Release) {
    forall i :: 0 <= i < |spec| ==> Admits(spec[i], v)
  }

  /** Equivalent versions are admitted by exactly the same specifier sets. */
  lemma ContainsRespectsEquivalence(spec: SpecifierSet, a: Release, b: Release)
    requires Equivalent(a, b)
    ensures Contains(spec, a) <==> Contains(spec, b)
  {
    forall i | 0 <= i < |spec| ensures Admits(spec[i], a) <==> Admits(spec[i], b) {
      var w := spec[i].version;
      EquivalentCompareAlike(a, b, w);
      CompareAntisymmetric(a, w);
      CompareAntisymmetric(b, w);
    }
  }

  /** The boundary case of an exclusive bound: 2.17.0 is the version 2.17 itself, so <2.17
      rejects it, while it admits 2.16.14. */
  lemma ExclusiveBoundary()
    ensures !Contains([Clause(Lt, [2, 17])], [2, 17, 0])
    ensures !Contains([Clause(Lt, [2, 17])], [2, 17, 10])
    ensures Contains([Clause(Lt, [2, 17])], [2, 16, 14])
  {
    var bound: Release := [2, 17];
    assert CompareUpTo([2, 17, 0], bound, 2, 3) == 0;
    assert CompareUpTo([2, 17, 0], bound, 0, 3) == 0;
    assert CompareUpTo([2, 17, 10], bound, 2, 3) == 1;
    assert CompareUpTo([2, 17, 10], bound, 0, 3) == 1;
    assert CompareUpTo([2, 16, 14], bound, 1, 3) == -1;
    assert CompareUpTo([2, 16, 14], bound, 0, 3) == -1;
    var spec := [Clause(Lt, bound)];
    assert !Admits(spec[0], [2, 17, 0]) && !Admits(spec[0], [2, 17, 10]);
  }
}
