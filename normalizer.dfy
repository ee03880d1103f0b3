/**
 * The item side of the pipeline before the cache key is built
 * (`Application::run`, steps before "[2] Fetch backend configuration"):
 * every item's dimensions go through `Application::sortDimensions`, then the
 * list is `usort`ed by `(width, height, length)`.
 */
module Normalizer {
  import opened Wrappers
  import opened Dimensions
  import opened Items
  import opened Sorting

  /** One compare-and-swap block: `if (width > height) { swap width and height }`. */
  method SwapWidthHeight(item: Item)
    modifies item
    ensures item.Value().Dims() == Dimensions.SwapWidthHeight(old(item.Value().Dims()))
    ensures item.weight == old(item.weight) && item.id == old(item.id)
  {
    if item.width > item.height {
      var tmp := item.width;
      item.width := item.height;
      item.height := tmp;
    }
  }

  /**
   * `Application::sortDimensions`: three compare-and-swap blocks on the
   * item's fields, the first one repeated at the end. The dimensions go
   * through the network; the weight and the id stay with the item.
   */
  method SortDimensions(item: Item)
    modifies item
    ensures item.Value().Dims() == Network(old(item.Value().Dims()))
    ensures item.weight == old(item.weight) && item.id == old(item.id)
    ensures item.Value() == Normalized(old(item.Value()))
  {
    SwapWidthHeight(item);
    if item.length > item.height {
      var tmp := item.height;
      item.height := item.length;
      item.length := tmp;
    }
    SwapWidthHeight(item);
  }

  /** Normalising a snapshot twice is normalising it once. */
  lemma NormalizedIdempotent(v: ItemValue)
    ensures Normalized(Normalized(v)) == Normalized(v)
  {
    NetworkIdempotent(v.Dims());
  }

  /**
   * The `foreach ($items as $item) self::sortDimensions($item);` loop.
   * Each listed object is normalised; an object listed twice is normalised
   * twice, which leaves the same state because the network is idempotent.
   */
  method NormalizeItems(items: seq<Item>)
    modifies items
    ensures forall i :: 0 <= i < |items| ==> items[i].Value() == Normalized(old(items[i].Value()))
  {
    for n := 0 to |items|
      invariant forall i :: 0 <= i < |items| ==>
        items[i].Value() == if items[i] in items[..n] then Normalized(old(items[i].Value()))
                            else old(items[i].Value())
    {
      var item := items[n];
      label before:
      SortDimensions(item);
      NormalizedIdempotent(old(item.Value()));
      assert items[..n + 1] == items[..n] + [item];
      forall i | 0 <= i < |items|
        ensures items[i].Value() == if items[i] in items[..n + 1] then Normalized(old(items[i].Value()))
                                    else old(items[i].Value())
      {
        if items[i] != item {
          assert items[i].Value() == old@before(items[i].Value());
        }
      }
    }
  }

  /** PHP's `<=>` on two numbers. */
  function Spaceship(a: real, b: real): (r: int)
    ensures -1 <= r <= 1
    ensures r < 0 <==> a < b
    ensures r == 0 <==> a == b
  {
    if a < b then -1 else if a == b then 0 else 1
  }

  /**
   * The item comparator passed to `usort`: compare the widths, on a tie the
   * heights, on a tie the lengths. Negative, zero or positive exactly when
   * the first item comes before, ties with, or comes after the second in the
   * lexicographic order on `(width, height, length)`; weight and id are not
   * compared.
   */
  function CompareItems(a: ItemValue, b: ItemValue): (r: int)
    ensures -1 <= r <= 1
    ensures r <= 0 <==> LexLeq(a.Dims(), b.Dims())
    ensures r == 0 <==> a.Dims() == b.Dims()
  {
    var byWidth := Spaceship(a.width, b.width);
    if byWidth != 0 then byWidth
    else
      var byHeight := Spaceship(a.height, b.height);
      if byHeight != 0 then byHeight
      else Spaceship(a.length, b.length)
  }

  /** Swapping the comparator's arguments negates its result. */
  lemma CompareItemsAntisymmetric(a: ItemValue, b: ItemValue)
    ensures CompareItems(a, b) == -CompareItems(b, a)
  {
  }

  /** The order the item comparator sorts by: lexicographic on `(width, height, length)`. */
  predicate ItemLeq(a: ItemValue, b: ItemValue) {
    LexLeq(a.Dims(), b.Dims())
  }

  lemma ItemLeqTotalPreorder()
    ensures TotalPreorder(ItemLeq)
  {
    forall a: ItemValue, b: ItemValue, c: ItemValue
      ensures (ItemLeq(a, b) || ItemLeq(b, a)) && (ItemLeq(a, b) && ItemLeq(b, c) ==> ItemLeq(a, c))
    {
      LexLeqTotalOrder(a.Dims(), b.Dims(), c.Dims());
    }
  }

  /** Ascending by `(width, height, length)`. */
  ghost predicate SortedByDims(vs: seq<ItemValue>) {
    SortedBy(ItemLeq, vs)
  }

  lemma SnapshotsSwap(r: seq<Item>, a: nat, b: nat)
    requires a < |r| && b < |r|
    ensures Snapshots(r[a := r[b]][b := r[a]]) == Snapshots(r)[a := Snapshots(r)[b]][b := Snapshots(r)[a]]
  {
  }

  /**
   * One pass of the insertion sort: moves the item at position `i` down past
   * every item that the comparator puts after it.
   */
  method InsertItem(s: seq<Item>, i: nat) returns (r: seq<Item>)
    requires i < |s| && SortedPrefixBy(ItemLeq, Snapshots(s), i)
    ensures |r| == |s| && SortedPrefixBy(ItemLeq, Snapshots(r), i + 1)
    ensures multiset(r) == multiset(s)
    ensures multiset(Snapshots(r)) == multiset(Snapshots(s))
  {
    ItemLeqTotalPreorder();
    r := s;
    ghost var vs := Snapshots(s);
    InsertionStart(ItemLeq, vs, i);
    var j := i;
    while j > 0 && CompareItems(r[j - 1].Value(), r[j].Value()) > 0
      invariant 0 <= j <= i
      invariant |r| == |s| && vs == Snapshots(r)
      invariant multiset(r) == multiset(s)
      invariant multiset(vs) == multiset(Snapshots(s))
      invariant InsertionState(ItemLeq, vs, i, j)
    {
      SwapDown(ItemLeq, vs, i, j);
      SwapPreservesMultiset(r, j - 1, j);
      SwapPreservesMultiset(vs, j - 1, j);
      SnapshotsSwap(r, j - 1, j);
      r := r[j - 1 := r[j]][j := r[j - 1]];
      vs := vs[j - 1 := vs[j]][j := vs[j - 1]];
      j := j - 1;
    }
    InsertionDone(ItemLeq, vs, i, j);
  }

  /**
   * `usort($items, ...)`: the result holds the same objects as the input,
   * rearranged so that their snapshots ascend by `(width, height, length)`.
   * The objects themselves are not changed, so each weight and id travels
   * with its item. (An insertion sort; PHP's own sort routine is not modelled,
   * only its contract.)
   */
  method UsortItems(items: seq<Item>) returns (sorted: seq<Item>)
    ensures multiset(sorted) == multiset(items)
    ensures multiset(Snapshots(sorted)) == multiset(Snapshots(items))
    ensures SortedByDims(Snapshots(sorted))
  {
    sorted := items;
    for i := 0 to |items|
      invariant |sorted| == |items|
      invariant multiset(sorted) == multiset(items)
      invariant multiset(Snapshots(sorted)) == multiset(Snapshots(items))
      invariant SortedPrefixBy(ItemLeq, Snapshots(sorted), i)
    {
      sorted := InsertItem(sorted, i);
    }
  }

  /** The items never tie on all three dimensions unless they are equal snapshots. */
  ghost predicate DimsDetermineItems(vs: seq<ItemValue>) {
    forall i, j :: 0 <= i < |vs| && 0 <= j < |vs| && vs[i].Dims() == vs[j].Dims() ==> vs[i] == vs[j]
  }

  /**
   * Two sorted rearrangements of one multiset are the same list, provided no
   * two different snapshots tie on `(width, height, length)`.
   */
  lemma {:induction false} SortedPermutationsEqual(s: seq<ItemValue>, t: seq<ItemValue>)
    requires multiset(s) == multiset(t)
    requires SortedByDims(s) && SortedByDims(t)
    requires DimsDetermineItems(s)
    ensures s == t
    decreases |s|
  {
    assert |s| == |multiset(s)| == |multiset(t)| == |t|;
    if s != [] {
      assert t[0] in multiset(s);
      var m :| 0 <= m < |s| && s[m] == t[0];
      assert s[0] in multiset(t);
      var k :| 0 <= k < |t| && t[k] == s[0];
      LexLeqTotalOrder(s[0].Dims(), s[m].Dims(), s[0].Dims());
      assert s[0] == t[0];
      assert s == [s[0]] + s[1..];
      assert t == [t[0]] + t[1..];
      assert multiset(s[1..]) == multiset(s) - multiset{s[0]};
      assert multiset(t[1..]) == multiset(t) - multiset{t[0]};
      SortedPermutationsEqual(s[1..], t[1..]);
    }
  }

  /** A list whose every entry is the normalisation of the same entry before is the mapped list. */
  lemma NormalizedSnapshots(before: seq<ItemValue>, after: seq<ItemValue>)
    requires |after| == |before|
    requires forall i :: 0 <= i < |before| ==> after[i] == Normalized(before[i])
    ensures after == MapSeq(Normalized, before)
  {
    forall i | 0 <= i < |before|
      ensures after[i] == MapSeq(Normalized, before)[i]
    {
      MapSeqAt(Normalized, before, i);
    }
  }

  /**
   * What the item list is once the normalisation loop and the `usort` are
   * done: the normalised input, rearranged into ascending order.
   */
  ghost predicate IsCanonicalOrder(input: seq<ItemValue>, output: seq<ItemValue>) {
    multiset(output) == multiset(MapSeq(Normalized, input)) && SortedByDims(output)
  }

  /**
   * Two carts that list the same items in different orders reach the same
   * canonical list, provided no two different normalised items tie on all
   * three dimensions.
   */
  lemma CanonicalOrderUnique(in1: seq<ItemValue>, in2: seq<ItemValue>, out1: seq<ItemValue>, out2: seq<ItemValue>)
    requires multiset(in1) == multiset(in2)
    requires IsCanonicalOrder(in1, out1) && IsCanonicalOrder(in2, out2)
    requires DimsDetermineItems(out1)
    ensures out1 == out2
  {
    MapPreservesPermutation(Normalized, in1, in2);
    SortedPermutationsEqual(out1, out2);
  }

  /**
   * Without that proviso the canonical list is not unique: two items that tie
   * on every dimension but differ in weight may come out in either order, and
   * a stable sort keeps whichever order the cart listed them in.
   */
  lemma TiedItemsHaveTwoCanonicalOrders()
    ensures var light, heavy := ItemValue(1.0, 1.0, 1.0, 5.0, None), ItemValue(1.0, 1.0, 1.0, 7.0, None);
      && IsCanonicalOrder([light, heavy], [light, heavy])
      && IsCanonicalOrder([heavy, light], [heavy, light])
      && [light, heavy] != [heavy, light]
  {
    var light, heavy := ItemValue(1.0, 1.0, 1.0, 5.0, None), ItemValue(1.0, 1.0, 1.0, 7.0, None);
    assert Normalized(light) == light && Normalized(heavy) == heavy;
    assert MapSeq(Normalized, [light, heavy]) == [light, heavy];
    assert MapSeq(Normalized, [heavy, light]) == [heavy, light];
  }
}
