/** Which identifiers a details run has to fetch: those the upstream index lists, minus those
    already stored, minus those already marked invalid. Python computes this as
    `list(set(all_ids) - set(existing_ids) - set(invalid_ids))`, whose order is whatever the
    set's iteration order is; the model leaves that order unspecified. */
module Reconcile {
  import opened Wrappers

  function ElemSet(s: seq<int>): set<int>
  {
    set x | x in s
  }

  lemma EmptyElemSet(s: seq<int>)
    ensures ElemSet(s) == {} <==> s == []
  {
    if s != [] {
      assert s[0] in ElemSet(s);
    }
  }

  predicate Distinct(s: seq<int>)
  {
    forall i, j :: 0 <= i < j < |s| ==> s[i] != s[j]
  }

  /** The identifiers still to fetch. */
  function MissingSet(allIds: seq<int>, existing: seq<int>, invalid: seq<int>): (m: set<int>)
    ensures forall x :: x in m <==> x in allIds && x !in existing && x !in invalid
  {
    ElemSet(allIds) - ElemSet(existing) - ElemSet(invalid)
  }

  /** `k` elements drawn without replacement from `population`, in an order the caller
      cannot rely on. This is `random.sample(population, k)`, and with `k == |population|`
      it is also the iteration order of a Python set built from a list without repetitions.
      Python raises ValueError when `k` is negative or larger than the population. */
  method Draw(population: seq<int>, k: int) returns (r: Option<seq<int>>)
    ensures r.None? <==> k < 0 || k > |population|
    ensures r.Some? ==> |r.value| == k && multiset(r.value) <= multiset(population)
  {
    if k < 0 || k > |population| {
      return None;
    }
    var drawn: seq<int> := [];
    var rest := population;
    while |drawn| < k
      invariant |drawn| + |rest| == |population| && |drawn| <= k
      invariant multiset(drawn) + multiset(rest) == multiset(population)
      decreases k - |drawn|
    {
      var j :| 0 <= j < |rest|;
      assert rest == rest[..j] + [rest[j]] + rest[j + 1..];
      drawn := drawn + [rest[j]];
      rest := rest[..j] + rest[j + 1..];
    }
    return Some(drawn);
  }

  /** The missing identifiers in the order of their first listing, each once. */
  function FirstListed(allIds: seq<int>, existing: seq<int>, invalid: seq<int>): (c: seq<int>)
    ensures Distinct(c)
    ensures ElemSet(c) == MissingSet(allIds, existing, invalid)
    decreases |allIds|
  {
    if |allIds| == 0 then []
    else
      var c := FirstListed(allIds[..|allIds| - 1], existing, invalid);
      var x := allIds[|allIds| - 1];
      assert allIds == allIds[..|allIds| - 1] + [x];
      assert ElemSet(allIds) == ElemSet(allIds[..|allIds| - 1]) + {x};
      if x in existing || x in invalid || x in c then c
      else
        assert ElemSet(c + [x]) == ElemSet(c) + {x};
        c + [x]
  }

  /** `list(set(all_ids) - set(existing_ids) - set(invalid_ids))`: each missing identifier
      exactly once, in an order the caller cannot rely on. */
  method MissingIds(allIds: seq<int>, existing: seq<int>, invalid: seq<int>) returns (missing: seq<int>)
    ensures Distinct(missing)
    ensures ElemSet(missing) == MissingSet(allIds, existing, invalid)
  {
    var candidates := FirstListed(allIds, existing, invalid);
    var drawn := Draw(candidates, |candidates|);
    missing := drawn.value;
    SubMultisetOfDistinct(missing, candidates);
    assert multiset(missing) == multiset(candidates) by {
      SameSizeSubMultiset(missing, candidates);
    }
    forall x ensures x in missing <==> x in candidates {
      assert x in missing <==> x in multiset(missing);
      assert x in candidates <==> x in multiset(candidates);
    }
  }

  /** A sub-multiset of the same size is the whole multiset. */
  lemma SameSizeSubMultiset(a: seq<int>, b: seq<int>)
    requires multiset(a) <= multiset(b) && |a| == |b|
    ensures multiset(a) == multiset(b)
  {
    var d := multiset(b) - multiset(a);
    assert multiset(b) == multiset(a) + d;
    assert |multiset(b)| == |multiset(a)| + |d|;
    assert d == multiset{};
  }

  /** Nothing is fetched again once every listed identifier is stored or known invalid, and
      conversely something is fetched while one of them is neither. */
  lemma NothingMissingIffCovered(allIds: seq<int>, existing: seq<int>, invalid: seq<int>)
    ensures MissingSet(allIds, existing, invalid) == {} <==>
      forall i :: 0 <= i < |allIds| ==> allIds[i] in existing || allIds[i] in invalid
  {
    if MissingSet(allIds, existing, invalid) == {} {
      forall i | 0 <= i < |allIds| ensures allIds[i] in existing || allIds[i] in invalid {
        assert allIds[i] !in MissingSet(allIds, existing, invalid);
      }
    }
  }

  /** In a sequence free of repetitions no element occurs twice in its multiset. */
  lemma {:induction false} DistinctHasSingleCounts(s: seq<int>)
    requires Distinct(s)
    ensures forall x :: multiset(s)[x] <= 1
    decreases |s|
  {
    if |s| > 0 {
      var t := s[1..];
      assert s == [s[0]] + t;
      assert Distinct(t) by {
        forall i, j | 0 <= i < j < |t| ensures t[i] != t[j] {
          assert t[i] == s[i + 1] && t[j] == s[j + 1];
        }
      }
      DistinctHasSingleCounts(t);
      assert forall j :: 0 <= j < |t| ==> t[j] == s[j + 1];
      assert s[0] !in t;
      assert forall x :: multiset(s)[x] == multiset(t)[x] + (if x == s[0] then 1 else 0);
    }
  }

  /** A sequence in whose multiset no element occurs twice is free of repetitions. */
  lemma SingleCountsAreDistinct(s: seq<int>)
    requires forall x :: multiset(s)[x] <= 1
    ensures Distinct(s)
  {
    forall i, j | 0 <= i < j < |s| ensures s[i] != s[j] {
      var front, back := s[..j], s[j..];
      assert s == front + back;
      assert s[i] == front[i] && s[j] == back[0];
      assert multiset(s) == multiset(front) + multiset(back);
      assert s[i] in multiset(front) && s[j] in multiset(back);
      assert multiset(s)[s[i]] == multiset(front)[s[i]] + multiset(back)[s[i]];
      assert multiset(s)[s[j]] == multiset(front)[s[j]] + multiset(back)[s[j]];
    }
  }

  /** Drawing elements without replacement from a list without repetitions gives a list
      without repetitions. */
  lemma SubMultisetOfDistinct(r: seq<int>, population: seq<int>)
    requires Distinct(population)
    requires multiset(r) <= multiset(population)
    ensures Distinct(r)
  {
    DistinctHasSingleCounts(population);
    forall x ensures multiset(r)[x] <= 1 {
      assert multiset(r)[x] <= multiset(population)[x];
    }
    SingleCountsAreDistinct(r);
  }
}
