/**
 * The three-step compare-and-swap network that both `Application::sortDimensions`
 * (on an item) and `Packaging::sortDimensions` (on a box) run over the fields
 * `width`, `height` and `length`.
 *
 * The network is written out step by step, exactly as the source's three `if`
 * blocks. It does NOT sort the triple ascending: the second step moves the
 * maximum into `height`, so what it guarantees is that `height` ends up the
 * largest of the three values.
 */
module Dimensions {

  datatype Triple = Triple(width: real, height: real, length: real)

  function Max(a: real, b: real): real { if a >= b then a else b }
  function Min(a: real, b: real): real { if a <= b then a else b }

  /** The multiset of the three dimension values. */
  function AsMultiset(t: Triple): multiset<real> {
    multiset{t.width, t.height, t.length}
  }

  /** `if (width > height) swap(width, height)` */
  function SwapWidthHeight(t: Triple): Triple {
    if t.width > t.height then Triple(t.height, t.width, t.length) else t
  }

  /** `if (length > height) swap(height, length)` */
  function SwapLengthHeight(t: Triple): Triple {
    if t.length > t.height then Triple(t.width, t.length, t.height) else t
  }

  /**
   * The whole network: the first swap, the second swap, then the first swap
   * again. Its `height` is the largest value; `NetworkPermutes` shows that it
   * only rearranges the values.
   */
  function Network(t: Triple): (r: Triple)
    ensures r.height >= r.width && r.height >= r.length
  {
    SwapWidthHeight(SwapLengthHeight(SwapWidthHeight(t)))
  }

  /** The network only swaps: its result holds the same three values as its input. */
  lemma NetworkPermutes(t: Triple)
    ensures AsMultiset(Network(t)) == AsMultiset(t)
  {
  }

  /** The ascending order that the comment above the normalisation loop asks for. */
  predicate Ascending(t: Triple) {
    t.width <= t.height <= t.length
  }

  /**
   * What the network computes, stated independently of its steps:
   * the smaller of the first two values, the largest of all three, and the
   * smaller of the third value and the larger of the first two.
   */
  lemma NetworkClosedForm(t: Triple)
    ensures Network(t) == Triple(Min(t.width, t.height),
                                 Max(Max(t.width, t.height), t.length),
                                 Min(t.length, Max(t.width, t.height)))
  {
  }

  /** The repeated first swap (the third step) never changes anything. */
  lemma ThirdStepNeverFires(t: Triple)
    ensures SwapWidthHeight(SwapLengthHeight(SwapWidthHeight(t)))
         == SwapLengthHeight(SwapWidthHeight(t))
  {
  }

  /** Normalising twice leaves the same triple as normalising once. */
  lemma NetworkIdempotent(t: Triple)
    ensures Network(Network(t)) == Network(t)
  {
  }

  /** `(3, 2, 1)` becomes `(2, 3, 1)`: the result need not be ascending. */
  lemma NetworkNotAscending()
    ensures Network(Triple(3.0, 2.0, 1.0)) == Triple(2.0, 3.0, 1.0)
    ensures !Ascending(Network(Triple(3.0, 2.0, 1.0)))
  {
  }

  /**
   * Two rotations of the same box normalise to different triples, so the
   * normalisation does not make the cache key independent of item rotation.
   */
  lemma NetworkNotRotationInvariant()
    ensures AsMultiset(Triple(1.0, 2.0, 3.0)) == AsMultiset(Triple(3.0, 2.0, 1.0))
    ensures Network(Triple(1.0, 2.0, 3.0)) == Triple(1.0, 3.0, 2.0)
    ensures Network(Triple(1.0, 2.0, 3.0)) != Network(Triple(3.0, 2.0, 1.0))
  {
  }

  /** The network fixes exactly the triples whose height is already the largest and whose width does not exceed it. */
  lemma NetworkFixedPoints(t: Triple)
    ensures Network(t) == t <==> t.height >= t.width && t.height >= t.length
  {
  }

  /**
   * The lexicographic order on `(width, height, length)` that both `usort`
   * comparators start with.
   */
  predicate LexLeq(a: Triple, b: Triple) {
    a.width < b.width
    || (a.width == b.width && a.height < b.height)
    || (a.width == b.width && a.height == b.height && a.length <= b.length)
  }

  /** `LexLeq` is a total order: total, antisymmetric and transitive. */
  lemma LexLeqTotalOrder(a: Triple, b: Triple, c: Triple)
    ensures LexLeq(a, b) || LexLeq(b, a)
    ensures LexLeq(a, b) && LexLeq(b, a) ==> a == b
    ensures LexLeq(a, b) && LexLeq(b, c) ==> LexLeq(a, c)
  {
  }
}
