/**
 * Facts about insertion by adjacent swaps, shared by the two `usort` calls of
 * `Application::run` (items, then boxes). They are stated for any comparison
 * that is a total preorder, which both comparators are.
 */
module Sorting {

  /** Every two elements compare, and the comparison is transitive. */
  ghost predicate TotalPreorder<T(!new)>(leq: (T, T) -> bool) {
    && (forall a, b :: leq(a, b) || leq(b, a))
    && (forall a, b, c :: leq(a, b) && leq(b, c) ==> leq(a, c))
  }

  /** The first `n` elements ascend. */
  ghost predicate SortedPrefixBy<T>(leq: (T, T) -> bool, vs: seq<T>, n: nat)
    requires n <= |vs|
  {
    forall a, b :: 0 <= a < b < n ==> leq(vs[a], vs[b])
  }

  /** The whole sequence ascends. */
  ghost predicate SortedBy<T>(leq: (T, T) -> bool, vs: seq<T>) {
    SortedPrefixBy(leq, vs, |vs|)
  }

  /** The state inside the insertion loop: the prefix up to `i` is in order except for the element at `j`, which is below everything after it. */
  ghost predicate InsertionState<T>(leq: (T, T) -> bool, vs: seq<T>, i: nat, j: nat)
    requires j <= i < |vs|
  {
    && (forall a, b :: 0 <= a < b <= i && a != j && b != j ==> leq(vs[a], vs[b]))
    && (forall b :: j < b <= i ==> leq(vs[j], vs[b]))
  }

  lemma SwapPreservesMultiset<T>(s: seq<T>, a: nat, b: nat)
    requires a < |s| && b < |s|
    ensures multiset(s[a := s[b]][b := s[a]]) == multiset(s)
  {
  }

  /** Entering the insertion loop with a sorted prefix. */
  lemma InsertionStart<T>(leq: (T, T) -> bool, vs: seq<T>, i: nat)
    requires i < |vs| && SortedPrefixBy(leq, vs, i)
    ensures InsertionState(leq, vs, i, i)
  {
  }

  /** Swapping `j - 1` and `j` when they are out of order keeps the loop state, one position lower. */
  lemma SwapDown<T(!new)>(leq: (T, T) -> bool, vs: seq<T>, i: nat, j: nat)
    requires TotalPreorder(leq)
    requires 0 < j <= i < |vs|
    requires !leq(vs[j - 1], vs[j])
    requires InsertionState(leq, vs, i, j)
    ensures InsertionState(leq, vs[j - 1 := vs[j]][j := vs[j - 1]], i, j - 1)
  {
  }

  /** Where the insertion loop stops, the prefix up to `i` is in order. */
  lemma InsertionDone<T(!new)>(leq: (T, T) -> bool, vs: seq<T>, i: nat, j: nat)
    requires TotalPreorder(leq)
    requires j <= i < |vs|
    requires j > 0 ==> leq(vs[j - 1], vs[j])
    requires InsertionState(leq, vs, i, j)
    ensures SortedPrefixBy(leq, vs, i + 1)
  {
    forall a, b | 0 <= a < b <= i
      ensures leq(vs[a], vs[b])
    {
      if b == j && a < j - 1 {
        assert leq(vs[a], vs[j - 1]);
      }
    }
  }
}
