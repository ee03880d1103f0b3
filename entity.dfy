/**
 * `App\Entity\Packaging`: a box of the catalog, with a database-assigned id,
 * three interior dimensions and a weight capacity.
 */
module Entity {
  import opened Wrappers
  import opened Dimensions

  /** A snapshot of a box's fields. */
  datatype BoxValue = BoxValue(id: Option<int>, width: real, height: real, length: real, maxWeight: real)
  {
    function Dims(): Triple { Triple(width, height, length) }
  }

  class Packaging {
    /** Assigned by the persistence layer; `None` (PHP `null`) until then. */
    var id: Option<int>
    var width: real
    var height: real
    var length: real
    var maxWeight: real

    constructor (width: real, height: real, length: real, maxWeight: real)
      ensures GetId() == None
      ensures GetWidth() == width && GetHeight() == height
      ensures GetLength() == length && GetMaxWeight() == maxWeight
    {
      this.id := None;
      this.width := width;
      this.height := height;
      this.length := length;
      this.maxWeight := maxWeight;
    }

    function GetId(): Option<int> reads this { id }
    function GetWidth(): real reads this { width }
    function GetHeight(): real reads this { height }
    function GetLength(): real reads this { length }
    function GetMaxWeight(): real reads this { maxWeight }

    function Value(): BoxValue
      reads this
    {
      BoxValue(id, width, height, length, maxWeight)
    }

    /** One compare-and-swap block: `if (width > height) { swap width and height }`. */
    method SwapWidthHeight()
      modifies this
      ensures Value().Dims() == Dimensions.SwapWidthHeight(old(Value().Dims()))
      ensures id == old(id) && maxWeight == old(maxWeight)
    {
      if width > height {
        var tmp := width;
        width := height;
        height := tmp;
      }
    }

    /**
     * Three in-place compare-and-swap blocks through a temporary, the first
     * one repeated at the end. The new dimensions are the network applied to
     * the old ones (a rearrangement with the largest value in `height`); the
     * capacity and the id are untouched.
     */
    method SortDimensions()
      modifies this
      ensures Value().Dims() == Network(old(Value().Dims()))
      ensures GetHeight() >= GetWidth() && GetHeight() >= GetLength()
      ensures id == old(id) && maxWeight == old(maxWeight)
    {
      SwapWidthHeight();
      if length > height {
        var tmp := height;
        height := length;
        length := tmp;
      }
      SwapWidthHeight();
    }
  }

  /** The snapshots of a list of boxes, position by position. */
  function BoxSnapshots(boxes: seq<Packaging>): (vs: seq<BoxValue>)
    reads boxes
    ensures |vs| == |boxes|
    ensures forall i :: 0 <= i < |boxes| ==> vs[i] == boxes[i].Value()
  {
    seq(|boxes|, i requires 0 <= i < |boxes| reads boxes => boxes[i].Value())
  }

  /** `sortDimensions` applied to a snapshot. */
  function NormalizedBox(b: BoxValue): BoxValue {
    var t := Network(b.Dims());
    BoxValue(b.id, t.width, t.height, t.length, b.maxWeight)
  }
}
