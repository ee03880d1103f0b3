/**
 * The local fallback of `Application::run` ("[5] Fallback to internal
 * computation"), taken when the external packer cannot be used: all items
 * are folded into one aggregate item, the catalog boxes are normalised and
 * sorted, and the first box that holds the aggregate is chosen.
 */
module Fallback {
  import opened Wrappers
  import opened Dimensions
  import opened Items
  import opened Entity
  import opened Normalizer
  import opened Sorting
  import opened Results

  /* ---------- the aggregate item ---------- */

  /** `new Item(0, 0, 0, 0)`. */
  const Empty := ItemValue(0.0, 0.0, 0.0, 0.0, None)

  /**
   * One turn of the aggregate loop: widths add up, heights and lengths take
   * the maximum, weights add up, and then the aggregate goes through
   * `sortDimensions` again.
   */
  function AccumulateStep(total: ItemValue, item: ItemValue): (r: ItemValue)
    ensures r.weight == total.weight + item.weight && r.id == total.id
    ensures r.width <= r.height && r.length <= r.height
  {
    Normalized(ItemValue(total.width + item.width, Max(item.height, total.height),
                         Max(item.length, total.length), total.weight + item.weight, total.id))
  }

  /** The sum of the weights, first to last. */
  function SumWeights(vs: seq<ItemValue>): real {
    if vs == [] then 0.0 else vs[0].weight + SumWeights(vs[1..])
  }

  lemma {:induction false} SumWeightsSnoc(vs: seq<ItemValue>, v: ItemValue)
    ensures SumWeights(vs + [v]) == SumWeights(vs) + v.weight
  {
    if vs != [] {
      assert (vs + [v])[1..] == vs[1..] + [v];
      SumWeightsSnoc(vs[1..], v);
    } else {
      assert vs + [v] == [v];
    }
  }

  /**
   * The aggregate after the loop has run over `vs`: its weight is the total
   * weight, it carries no id, and its height is its largest dimension.
   */
  function Aggregate(vs: seq<ItemValue>): (total: ItemValue)
    ensures total.weight == SumWeights(vs)
    ensures total.height >= total.width && total.height >= total.length
    ensures total.id == None
  {
    if vs == [] then Empty
    else
      var init, last := vs[..|vs| - 1], vs[|vs| - 1];
      SumWeightsSnoc(init, last);
      assert init + [last] == vs;
      AccumulateStep(Aggregate(init), last)
  }

  /** The aggregate of one more item is one more turn of the loop. */
  lemma AggregatePrefix(vs: seq<ItemValue>, n: nat)
    requires n < |vs|
    ensures Aggregate(vs[..n + 1]) == AccumulateStep(Aggregate(vs[..n]), vs[n])
  {
    assert vs[..n + 1][..n] == vs[..n];
  }

  /** The body of the aggregate loop: adds one item into `$total` field by field, then normalises `$total`. */
  method AddItem(total: Item, item: Item)
    requires total != item
    modifies total
    ensures total.Value() == AccumulateStep(old(total.Value()), item.Value())
  {
    ghost var sum := ItemValue(total.width + item.width, Max(item.height, total.height),
                               Max(item.length, total.length), total.weight + item.weight, total.id);
    total.width := total.width + item.width;
    total.height := Max(item.height, total.height);
    total.length := Max(item.length, total.length);
    total.weight := total.weight + item.weight;
    assert total.Value() == sum;
    SortDimensions(total);
    assert item.Value() == old(item.Value());
    assert sum == ItemValue(old(total.Value()).width + item.Value().width, Max(item.Value().height, old(total.Value()).height),
                            Max(item.Value().length, old(total.Value()).length), old(total.Value()).weight + item.Value().weight,
                            old(total.Value()).id);
  }

  /**
   * The `foreach ($items as $item)` loop that builds `$total`. A fresh item
   * is updated on every turn; the items are only read.
   */
  method AccumulateTotal(items: seq<Item>) returns (total: Item)
    ensures fresh(total)
    ensures total.Value() == Aggregate(Snapshots(items))
  {
    total := new Item(0.0, 0.0, 0.0, 0.0, None);
    ghost var vs := Snapshots(items);
    for n := 0 to |items|
      invariant total !in items
      invariant forall i :: 0 <= i < |items| ==> items[i].Value() == vs[i]
      invariant total.Value() == Aggregate(vs[..n])
    {
      AddItem(total, items[n]);
      AggregatePrefix(vs, n);
    }
    assert vs[..|items|] == vs;
  }

  /**
   * Three unit cubes do not aggregate to a 3 x 1 x 1 block: the
   * re-normalisation inside the loop moves the growing width into the
   * height, so the widths are not simply summed.
   */
  lemma AggregateWidthNotSum()
    ensures var cube := ItemValue(1.0, 1.0, 1.0, 1.0, None);
      Aggregate([cube, cube, cube]) == ItemValue(2.0, 2.0, 1.0, 3.0, None)
  {
    var cube := ItemValue(1.0, 1.0, 1.0, 1.0, None);
    assert [cube, cube, cube][..2] == [cube, cube];
    assert [cube, cube][..1] == [cube];
    assert [cube][..0] == [];
    assert Aggregate([cube]) == cube;
    assert Aggregate([cube, cube]) == ItemValue(1.0, 2.0, 1.0, 2.0, None);
  }

  /** No dimension and no weight of `small` exceeds that of `big`. */
  predicate Dominates(big: ItemValue, small: ItemValue) {
    && small.width <= big.width && small.height <= big.height && small.length <= big.length
    && small.weight <= big.weight
  }

  /** An item after `sortDimensions` that has no negative dimension or weight. */
  predicate IsNormalizedNonNegative(v: ItemValue) {
    Normalized(v) == v && v.width >= 0.0 && v.height >= 0.0 && v.length >= 0.0 && v.weight >= 0.0
  }

  /** The network never lets a dimension shrink when the input grows. */
  lemma NetworkMonotone(a: Triple, b: Triple)
    requires a.width <= b.width && a.height <= b.height && a.length <= b.length
    ensures Network(a).width <= Network(b).width
    ensures Network(a).height <= Network(b).height
    ensures Network(a).length <= Network(b).length
  {
    NetworkClosedForm(a);
    NetworkClosedForm(b);
  }

  /** One turn of the loop keeps the old aggregate and the new item inside the new aggregate. */
  lemma StepDominates(total: ItemValue, item: ItemValue)
    requires IsNormalizedNonNegative(total) && IsNormalizedNonNegative(item)
    ensures IsNormalizedNonNegative(AccumulateStep(total, item))
    ensures Dominates(AccumulateStep(total, item), total)
    ensures Dominates(AccumulateStep(total, item), item)
  {
    var pre := Triple(total.width + item.width, Max(item.height, total.height), Max(item.length, total.length));
    var next := AccumulateStep(total, item);
    assert next.Dims() == Network(pre) && next.weight == total.weight + item.weight;
    assert Network(total.Dims()) == total.Dims() && Network(item.Dims()) == item.Dims();
    assert Network(Triple(0.0, 0.0, 0.0)) == Triple(0.0, 0.0, 0.0);
    NetworkMonotone(total.Dims(), pre);
    NetworkMonotone(item.Dims(), pre);
    NetworkMonotone(Triple(0.0, 0.0, 0.0), pre);
    assert Normalized(next) == next by {
      NetworkIdempotent(pre);
    }
  }

  /**
   * Whatever the loop's re-normalisation does, the aggregate holds every
   * (normalised, non-negative) item it was built from: no dimension of an
   * item and no weight exceeds the aggregate's.
   */
  lemma {:induction false} AggregateCoversEachItem(vs: seq<ItemValue>)
    requires forall i :: 0 <= i < |vs| ==> IsNormalizedNonNegative(vs[i])
    ensures IsNormalizedNonNegative(Aggregate(vs))
    ensures forall i :: 0 <= i < |vs| ==> Dominates(Aggregate(vs), vs[i])
  {
    if vs != [] {
      var init, last := vs[..|vs| - 1], vs[|vs| - 1];
      AggregateCoversEachItem(init);
      StepDominates(Aggregate(init), last);
      assert Aggregate(vs) == AccumulateStep(Aggregate(init), last);
      forall i | 0 <= i < |vs| - 1
        ensures Dominates(Aggregate(vs), vs[i])
      {
        assert vs[i] == init[i];
      }
    }
  }

  /* ---------- normalising and ordering the boxes ---------- */

  lemma NormalizedBoxIdempotent(b: BoxValue)
    ensures NormalizedBox(NormalizedBox(b)) == NormalizedBox(b)
  {
    NetworkIdempotent(b.Dims());
  }

  /**
   * `Application::sortDimensions` on an item and `Packaging::sortDimensions`
   * on a box that start from the same dimensions end with the same ones.
   */
  method NormalizationsAgree(item: Item, box: Packaging)
    requires item.Value().Dims() == box.Value().Dims()
    modifies item, box
    ensures item.Value().Dims() == box.Value().Dims()
  {
    SortDimensions(item);
    box.SortDimensions();
  }

  /**
   * `foreach ($boxes as $box) $box->sortDimensions();`: every box of the
   * catalog is normalised in place.
   */
  method NormalizeBoxes(boxes: seq<Packaging>)
    modifies boxes
    ensures forall i :: 0 <= i < |boxes| ==> boxes[i].Value() == NormalizedBox(old(boxes[i].Value()))
  {
    for n := 0 to |boxes|
      invariant forall i :: 0 <= i < |boxes| ==>
        boxes[i].Value() == if boxes[i] in boxes[..n] then NormalizedBox(old(boxes[i].Value()))
                            else old(boxes[i].Value())
    {
      var box := boxes[n];
      label before:
      box.SortDimensions();
      NormalizedBoxIdempotent(old(box.Value()));
      assert boxes[..n + 1] == boxes[..n] + [box];
      forall i | 0 <= i < |boxes|
        ensures boxes[i].Value() == if boxes[i] in boxes[..n + 1] then NormalizedBox(old(boxes[i].Value()))
                                    else old(boxes[i].Value())
      {
        if boxes[i] != box {
          assert boxes[i].Value() == old@before(boxes[i].Value());
        }
      }
    }
  }

  /**
   * The box comparator passed to `usort`: width, then height, then length,
   * then capacity. Negative, zero or positive exactly when the first box
   * comes before, ties with, or comes after the second in the lexicographic
   * order on those four keys; the id is not compared.
   */
  function CompareBoxes(a: BoxValue, b: BoxValue): (r: int)
    ensures -1 <= r <= 1
    ensures r <= 0 <==> BoxLeq(a, b)
    ensures r == 0 <==> (a.Dims() == b.Dims() && a.maxWeight == b.maxWeight)
  {
    var byWidth := Spaceship(a.width, b.width);
    if byWidth != 0 then byWidth
    else
      var byHeight := Spaceship(a.height, b.height);
      if byHeight != 0 then byHeight
      else
        var byLength := Spaceship(a.length, b.length);
        if byLength != 0 then byLength
        else Spaceship(a.maxWeight, b.maxWeight)
  }

  /** The order of the box comparator: lexicographic on `(width, height, length, maxWeight)`. */
  predicate BoxLeq(a: BoxValue, b: BoxValue) {
    LexLeq(a.Dims(), b.Dims()) && (a.Dims() == b.Dims() ==> a.maxWeight <= b.maxWeight)
  }

  lemma BoxLeqTotalPreorder()
    ensures TotalPreorder(BoxLeq)
  {
    forall a: BoxValue, b: BoxValue, c: BoxValue
      ensures (BoxLeq(a, b) || BoxLeq(b, a)) && (BoxLeq(a, b) && BoxLeq(b, c) ==> BoxLeq(a, c))
    {
      LexLeqTotalOrder(a.Dims(), b.Dims(), c.Dims());
      LexLeqTotalOrder(b.Dims(), c.Dims(), a.Dims());
    }
  }

  lemma BoxSnapshotsSwap(r: seq<Packaging>, a: nat, b: nat)
    requires a < |r| && b < |r|
    ensures BoxSnapshots(r[a := r[b]][b := r[a]]) == BoxSnapshots(r)[a := BoxSnapshots(r)[b]][b := BoxSnapshots(r)[a]]
  {
  }

  /** One pass of the insertion sort over the boxes. */
  method InsertBox(s: seq<Packaging>, i: nat) returns (r: seq<Packaging>)
    requires i < |s| && SortedPrefixBy(BoxLeq, BoxSnapshots(s), i)
    ensures |r| == |s| && SortedPrefixBy(BoxLeq, BoxSnapshots(r), i + 1)
    ensures multiset(r) == multiset(s)
    ensures multiset(BoxSnapshots(r)) == multiset(BoxSnapshots(s))
  {
    BoxLeqTotalPreorder();
    r := s;
    ghost var vs := BoxSnapshots(s);
    InsertionStart(BoxLeq, vs, i);
    var j := i;
    while j > 0 && CompareBoxes(r[j - 1].Value(), r[j].Value()) > 0
      invariant 0 <= j <= i
      invariant |r| == |s| && vs == BoxSnapshots(r)
      invariant multiset(r) == multiset(s)
      invariant multiset(vs) == multiset(BoxSnapshots(s))
      invariant InsertionState(BoxLeq, vs, i, j)
    {
      SwapDown(BoxLeq, vs, i, j);
      SwapPreservesMultiset(r, j - 1, j);
      SwapPreservesMultiset(vs, j - 1, j);
      BoxSnapshotsSwap(r, j - 1, j);
      r := r[j - 1 := r[j]][j := r[j - 1]];
      vs := vs[j - 1 := vs[j]][j := vs[j - 1]];
      j := j - 1;
    }
    InsertionDone(BoxLeq, vs, i, j);
  }

  /**
   * `usort($boxes, ...)`: the same box objects, rearranged so that they
   * ascend by `(width, height, length, maxWeight)`.
   */
  method UsortBoxes(boxes: seq<Packaging>) returns (sorted: seq<Packaging>)
    ensures multiset(sorted) == multiset(boxes)
    ensures multiset(BoxSnapshots(sorted)) == multiset(BoxSnapshots(boxes))
    ensures SortedBy(BoxLeq, BoxSnapshots(sorted))
  {
    sorted := boxes;
    for i := 0 to |boxes|
      invariant |sorted| == |boxes|
      invariant multiset(sorted) == multiset(boxes)
      invariant multiset(BoxSnapshots(sorted)) == multiset(BoxSnapshots(boxes))
      invariant SortedPrefixBy(BoxLeq, BoxSnapshots(sorted), i)
    {
      sorted := InsertBox(sorted, i);
    }
  }

  /* ---------- choosing the box ---------- */

  /** The condition of the `if` in the box loop: the box holds the aggregate and its weight. */
  predicate Fits(total: ItemValue, box: BoxValue) {
    total.width <= box.width && total.height <= box.height && total.length <= box.length
    && total.weight <= box.maxWeight
  }

  /** The position of the first box that holds the aggregate, if any. */
  function FirstFitIndex(total: ItemValue, vs: seq<BoxValue>): (r: Option<nat>)
    ensures r.None? <==> forall i :: 0 <= i < |vs| ==> !Fits(total, vs[i])
    ensures r.Some? ==> r.value < |vs| && Fits(total, vs[r.value])
    ensures r.Some? ==> forall i :: 0 <= i < r.value ==> !Fits(total, vs[i])
  {
    if vs == [] then None
    else if Fits(total, vs[0]) then Some(0)
    else match FirstFitIndex(total, vs[1..])
      case None => None
      case Some(k) => Some(k + 1)
  }

  /**
   * What `$result` holds after the box loop: the id of the first box that
   * fits, or, when none does, whatever `$result` held before.
   */
  function Selection(total: ItemValue, vs: seq<BoxValue>, prior: BoxIdValue): BoxIdValue {
    match FirstFitIndex(total, vs)
    case Some(k) => FromCatalogId(vs[k].id)
    case None => prior
  }

  /**
   * The selected box is the first one in the sorted order that fits, so every
   * box before it, being no larger in the comparator's order, is too small or
   * too weak.
   */
  lemma SelectionIsFirstFit(total: ItemValue, vs: seq<BoxValue>, prior: BoxIdValue, k: nat)
    requires k < |vs| && Fits(total, vs[k])
    requires forall i :: 0 <= i < k ==> !Fits(total, vs[i])
    ensures Selection(total, vs, prior) == FromCatalogId(vs[k].id)
  {
    var r := FirstFitIndex(total, vs);
    assert r == Some(k);
  }

  /** When no box fits, `$result` keeps its earlier value, `null` on a plain cache miss, not `false`. */
  lemma NothingFitsKeepsPrior(total: ItemValue, vs: seq<BoxValue>, prior: BoxIdValue)
    requires forall i :: 0 <= i < |vs| ==> !Fits(total, vs[i])
    ensures Selection(total, vs, prior) == prior
  {
  }

  /**
   * A box chosen for the aggregate holds each item on its own, in the
   * orientation `sortDimensions` gave it.
   */
  lemma ChosenBoxHoldsEachItem(vs: seq<ItemValue>, boxes: seq<BoxValue>, i: nat)
    requires forall j :: 0 <= j < |vs| ==> IsNormalizedNonNegative(vs[j])
    requires i < |vs| && FirstFitIndex(Aggregate(vs), boxes).Some?
    ensures Fits(vs[i], boxes[FirstFitIndex(Aggregate(vs), boxes).value])
  {
    AggregateCoversEachItem(vs);
  }

  /**
   * The box loop with its `break`: scans the sorted boxes and, at the first
   * one that holds `$total`, sets the result to that box's id and stops.
   * Nothing is changed.
   */
  method FirstFit(total: Item, boxes: seq<Packaging>, prior: BoxIdValue) returns (result: BoxIdValue)
    ensures result == Selection(total.Value(), BoxSnapshots(boxes), prior)
  {
    ghost var vs := BoxSnapshots(boxes);
    result := prior;
    var n := 0;
    while n < |boxes|
      invariant 0 <= n <= |boxes|
      invariant forall i :: 0 <= i < n ==> !Fits(total.Value(), vs[i])
      invariant result == prior
    {
      var box := boxes[n];
      if total.width <= box.GetWidth() && total.height <= box.GetHeight() && total.length <= box.GetLength()
         && total.weight <= box.GetMaxWeight() {
        result := FromCatalogId(box.GetId());
        SelectionIsFirstFit(total.Value(), vs, prior, n);
        return;
      }
      n := n + 1;
    }
  }

  /**
   * The whole fallback: builds the aggregate of the (already normalised and
   * sorted) items, normalises every catalog box in place, sorts the boxes and
   * picks the first that holds the aggregate; `prior` is `$result` on entry.
   */
  method RunFallback(items: seq<Item>, boxes: seq<Packaging>, prior: BoxIdValue)
      returns (result: BoxIdValue, ghost sortedBoxes: seq<Packaging>)
    modifies boxes
    ensures forall i :: 0 <= i < |boxes| ==> boxes[i].Value() == NormalizedBox(old(boxes[i].Value()))
    ensures multiset(sortedBoxes) == multiset(boxes)
    ensures SortedBy(BoxLeq, BoxSnapshots(sortedBoxes))
    ensures result == Selection(Aggregate(old(Snapshots(items))), BoxSnapshots(sortedBoxes), prior)
  {
    var total := AccumulateTotal(items);
    NormalizeBoxes(boxes);
    var sorted := UsortBoxes(boxes);
    sortedBoxes := sorted;
    result := FirstFit(total, sorted, prior);
  }
}
