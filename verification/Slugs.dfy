/** The search for an unused organization slug. */
module Slugs {
  import opened Base

  /** The slug tried with this suffix; suffix 1 is the bare name. */
  function Candidate(base: string, suffix: nat): string {
    if suffix <= 1 then base else base + "-" + Decimal(suffix)
  }

  lemma CandidatesDiffer(base: string, i: nat, j: nat)
    requires 1 <= i < j
    ensures Candidate(base, i) != Candidate(base, j)
  {
    var x, y := Candidate(base, i), Candidate(base, j);
    assert y[|base| + 1..] == Decimal(j);
    if i > 1 && x == y {
      assert x[|base| + 1..] == Decimal(i);
      DecimalIsInjective(i, j);
    }
  }

  /** `_unique_slug` after slugify. It stops after at most one more try than there are slugs, at the
      first candidate that is not taken. */
  method UniqueSlug(slugified: string, existing: set<string>) returns (slug: string, suffix: nat)
    ensures slug !in existing
    ensures 1 <= suffix <= |existing| + 1
    ensures var base := if slugified == "" then "organization" else slugified;
            && slug == (if suffix == 1 then base else base + "-" + Decimal(suffix))
            && (suffix > 1 ==> base in existing)
            && forall k | 2 <= k < suffix :: base + "-" + Decimal(k) in existing
  {
    var base := if slugified == "" then "organization" else slugified;
    slug := base;
    suffix := 1;
    ghost var tried := {};
    while slug in existing
      invariant suffix >= 1 && slug == Candidate(base, suffix)
      invariant forall k | 1 <= k < suffix :: Candidate(base, k) in existing
      invariant tried <= existing && |tried| == suffix - 1
      invariant forall s | s in tried :: exists k :: 1 <= k < suffix && s == Candidate(base, k)
      decreases |existing| - |tried|
    {
      if slug in tried {
        var k :| 1 <= k < suffix && slug == Candidate(base, k);
        CandidatesDiffer(base, k, suffix);
      }
      tried := tried + {slug};
      SubsetIsNotLarger(tried, existing);
      suffix := suffix + 1;
      slug := base + "-" + Decimal(suffix);
    }
    SubsetIsNotLarger(tried, existing);
    TriedAreTaken(base, suffix, existing);
  }

  lemma TriedAreTaken(base: string, suffix: nat, existing: set<string>)
    requires forall k | 1 <= k < suffix :: Candidate(base, k) in existing
    ensures suffix > 1 ==> base in existing
    ensures forall k | 2 <= k < suffix :: base + "-" + Decimal(k) in existing
  {
    assert suffix > 1 ==> Candidate(base, 1) in existing;
    forall k | 2 <= k < suffix ensures base + "-" + Decimal(k) in existing {
      assert Candidate(base, k) in existing;
    }
  }

  lemma SubsetIsNotLarger<T>(a: set<T>, b: set<T>)
    requires a <= b
    ensures |a| <= |b|
  {
    assert |b| == |a| + |b - a| by {
      assert b == a + (b - a);
    }
  }
}
