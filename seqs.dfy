/**
 * Sequence facts shared by the backend's list-building loops: filtering in
 * order, order preservation, and absence of duplicates.
 */
module Seqs {

  /** The elements of `s` that satisfy `p`, in their order in `s`. Defined from the
      end, the way a loop that appends builds it. */
  function Filter<T>(s: seq<T>, p: T -> bool): seq<T>
  {
    if s == [] then []
    else Filter(s[..|s| - 1], p) + (if p(s[|s| - 1]) then [s[|s| - 1]] else [])
  }

  /** `a` is obtained from `b` by deleting elements: every element of `a` occurs in `b`,
      in the same relative order. */
  ghost predicate IsSubsequence<T>(a: seq<T>, b: seq<T>)
    decreases |b|
  {
    a == [] ||
    (b != [] &&
      ((a[|a| - 1] == b[|b| - 1] && IsSubsequence(a[..|a| - 1], b[..|b| - 1])) ||
       IsSubsequence(a, b[..|b| - 1])))
  }

  /** No element occurs twice. */
  ghost predicate NoDuplicates<T>(s: seq<T>)
  {
    forall i, j :: 0 <= i < j < |s| ==> s[i] != s[j]
  }

  /** Multiset of a filter, one element at a time (the filter is defined from the end). */
  lemma FilterStepMultiset<T>(s: seq<T>, p: T -> bool)
    requires s != []
    ensures multiset(Filter(s, p)) ==
      multiset(Filter(s[..|s| - 1], p)) + (if p(s[|s| - 1]) then multiset{s[|s| - 1]} else multiset{})
  {
  }

  /** Folding one more element into the filtered prefix: the step a loop makes. */
  lemma FilterSnoc<T>(s: seq<T>, x: T, p: T -> bool)
    ensures Filter(s + [x], p) == Filter(s, p) + (if p(x) then [x] else [])
  {
    assert (s + [x])[..|s + [x]| - 1] == s;
  }

  /** An element is kept exactly when it occurs in the input and satisfies the predicate. */
  lemma {:induction false} FilterMembership<T>(s: seq<T>, p: T -> bool, x: T)
    ensures x in Filter(s, p) <==> x in s && p(x)
  {
    if s != [] {
      var init := s[..|s| - 1];
      FilterMembership(init, p, x);
      assert s == init + [s[|s| - 1]];
    }
  }

  /** Filtering keeps the input's relative order. */
  lemma {:induction false} FilterIsSubsequence<T>(s: seq<T>, p: T -> bool)
    ensures IsSubsequence(Filter(s, p), s)
  {
    if s != [] {
      var init, last := s[..|s| - 1], s[|s| - 1];
      FilterIsSubsequence(init, p);
      var f := Filter(s, p);
      if p(last) {
        assert f[..|f| - 1] == Filter(init, p);
      } else {
        assert f == Filter(init, p);
      }
    }
  }

  /** A subsequence is never longer than the sequence it comes from. */
  lemma {:induction false} SubsequenceLength<T>(a: seq<T>, b: seq<T>)
    requires IsSubsequence(a, b)
    ensures |a| <= |b|
    decreases |b|
  {
    if a != [] {
      if a[|a| - 1] == b[|b| - 1] && IsSubsequence(a[..|a| - 1], b[..|b| - 1]) {
        SubsequenceLength(a[..|a| - 1], b[..|b| - 1]);
      } else {
        SubsequenceLength(a, b[..|b| - 1]);
      }
    }
  }

  /** Filtering never lengthens. */
  lemma FilterLength<T>(s: seq<T>, p: T -> bool)
    ensures |Filter(s, p)| <= |s|
  {
    FilterIsSubsequence(s, p);
    SubsequenceLength(Filter(s, p), s);
  }

  /** Filtering a sequence without duplicates yields one without duplicates. */
  lemma {:induction false} FilterNoDuplicates<T>(s: seq<T>, p: T -> bool)
    requires NoDuplicates(s)
    ensures NoDuplicates(Filter(s, p))
  {
    if s != [] {
      var init, last := s[..|s| - 1], s[|s| - 1];
      assert NoDuplicates(init) by {
        forall i, j | 0 <= i < j < |init| ensures init[i] != init[j] {
          assert init[i] == s[i] && init[j] == s[j];
        }
      }
      FilterNoDuplicates(init, p);
      if p(last) {
        assert last !in init by {
          forall i | 0 <= i < |init| ensures init[i] != last {
            assert init[i] == s[i];
          }
        }
        FilterMembership(init, p, last);
      }
    }
  }

  /** Exactly one of three conditions holds. */
  predicate ExactlyOne(a: bool, b: bool, c: bool)
  {
    (a && !b && !c) || (!a && b && !c) || (!a && !b && c)
  }

  /** The three filters' elements, counted together. */
  ghost function Filters3<T>(s: seq<T>, p: T -> bool, q: T -> bool, r: T -> bool): multiset<T>
  {
    multiset(Filter(s, p)) + multiset(Filter(s, q)) + multiset(Filter(s, r))
  }

  /** One more element lands in exactly one of the three filters. */
  lemma Filters3Step<T>(s: seq<T>, p: T -> bool, q: T -> bool, r: T -> bool)
    requires s != [] && ExactlyOne(p(s[|s| - 1]), q(s[|s| - 1]), r(s[|s| - 1]))
    ensures Filters3(s, p, q, r) == Filters3(s[..|s| - 1], p, q, r) + multiset{s[|s| - 1]}
  {
    FilterStepMultiset(s, p);
    FilterStepMultiset(s, q);
    FilterStepMultiset(s, r);
  }

  /** The classification condition holds for every element of the prefix, and for the
      last element. */
  lemma ExactlyOneInit<T>(s: seq<T>, init: seq<T>, p: T -> bool, q: T -> bool, r: T -> bool)
    requires s != [] && init == s[..|s| - 1]
    requires forall i :: 0 <= i < |s| ==> ExactlyOne(p(s[i]), q(s[i]), r(s[i]))
    ensures forall i :: 0 <= i < |init| ==> ExactlyOne(p(init[i]), q(init[i]), r(init[i]))
    ensures ExactlyOne(p(s[|s| - 1]), q(s[|s| - 1]), r(s[|s| - 1]))
  {
    assert forall i :: 0 <= i < |init| ==> init[i] == s[i];
  }

  lemma MultisetSnoc<T>(s: seq<T>)
    requires s != []
    ensures multiset(s) == multiset(s[..|s| - 1]) + multiset{s[|s| - 1]}
  {
    assert s == s[..|s| - 1] + [s[|s| - 1]];
  }

  /** When every element satisfies exactly one of three predicates, the three filters
      together hold the input's elements, each as often as the input does. */
  lemma {:induction false} Filters3Whole<T>(s: seq<T>, p: T -> bool, q: T -> bool, r: T -> bool)
    requires forall i :: 0 <= i < |s| ==> ExactlyOne(p(s[i]), q(s[i]), r(s[i]))
    ensures Filters3(s, p, q, r) == multiset(s)
  {
    if s != [] {
      var init := s[..|s| - 1];
      ExactlyOneInit(s, init, p, q, r);
      Filters3Whole(init, p, q, r);
      Filters3Step(s, p, q, r);
      MultisetSnoc(s);
    }
  }

  /** The same partition counted by length. */
  lemma {:induction false} Filters3Length<T>(s: seq<T>, p: T -> bool, q: T -> bool, r: T -> bool)
    requires forall i :: 0 <= i < |s| ==> ExactlyOne(p(s[i]), q(s[i]), r(s[i]))
    ensures |Filter(s, p)| + |Filter(s, q)| + |Filter(s, r)| == |s|
  {
    if s != [] {
      var init := s[..|s| - 1];
      ExactlyOneInit(s, init, p, q, r);
      Filters3Length(init, p, q, r);
    }
  }

  /** The partition as multisets and as lengths. */
  lemma FilterPartition3<T>(s: seq<T>, p: T -> bool, q: T -> bool, r: T -> bool)
    requires forall i :: 0 <= i < |s| ==> ExactlyOne(p(s[i]), q(s[i]), r(s[i]))
    ensures multiset(Filter(s, p)) + multiset(Filter(s, q)) + multiset(Filter(s, r)) == multiset(s)
    ensures |Filter(s, p)| + |Filter(s, q)| + |Filter(s, r)| == |s|
  {
    Filters3Whole(s, p, q, r);
    Filters3Length(s, p, q, r);
  }
}
