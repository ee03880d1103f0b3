/**
 * The item record the pipeline mutates (`App\Item`): four public numeric
 * fields and an optional id. Floats are modelled as `real`.
 */
module Items {
  import opened Wrappers
  import opened Dimensions

  /** A snapshot of an item's fields; this is also what `json_encode` serialises. */
  datatype ItemValue = ItemValue(width: real, height: real, length: real, weight: real, id: Option<int>)
  {
    function Dims(): Triple { Triple(width, height, length) }
  }

  class Item {
    var width: real
    var height: real
    var length: real
    var weight: real
    var id: Option<int>

    constructor (width: real, height: real, length: real, weight: real, id: Option<int>)
      ensures Value() == ItemValue(width, height, length, weight, id)
    {
      this.width := width;
      this.height := height;
      this.length := length;
      this.weight := weight;
      this.id := id;
    }

    function Value(): ItemValue
      reads this
    {
      ItemValue(width, height, length, weight, id)
    }
  }

  /** The snapshots of a list of items, position by position. */
  function Snapshots(items: seq<Item>): (vs: seq<ItemValue>)
    reads items
    ensures |vs| == |items|
    ensures forall i :: 0 <= i < |items| ==> vs[i] == items[i].Value()
  {
    seq(|items|, i requires 0 <= i < |items| reads items => items[i].Value())
  }

  /** `sortDimensions` applied to a snapshot: the dimensions go through the network, weight and id stay. */
  function Normalized(v: ItemValue): ItemValue {
    var t := Network(v.Dims());
    ItemValue(t.width, t.height, t.length, v.weight, v.id)
  }

  /** Applies a function to every element of a sequence. */
  function MapSeq<A, B>(f: A -> B, s: seq<A>): (r: seq<B>)
    ensures |r| == |s|
  {
    if s == [] then [] else [f(s[0])] + MapSeq(f, s[1..])
  }

  lemma {:induction false} MapSeqAt<A, B>(f: A -> B, s: seq<A>, i: nat)
    requires i < |s|
    ensures MapSeq(f, s)[i] == f(s[i])
  {
    if i > 0 {
      MapSeqAt(f, s[1..], i - 1);
    }
  }

  lemma {:induction false} MapSeqConcat<A, B>(f: A -> B, a: seq<A>, b: seq<A>)
    ensures MapSeq(f, a + b) == MapSeq(f, a) + MapSeq(f, b)
  {
    if a != [] {
      assert (a + b)[1..] == a[1..] + b;
      MapSeqConcat(f, a[1..], b);
    } else {
      assert a + b == b;
    }
  }

  /** Removing the element at position `k` leaves the rest of the multiset. */
  lemma RemoveAt<A>(t: seq<A>, k: nat)
    requires k < |t|
    ensures multiset(t[..k] + t[k + 1..]) == multiset(t) - multiset{t[k]}
  {
    assert t == t[..k] + [t[k]] + t[k + 1..];
  }

  /** Taking one element out before or after mapping gives the same multiset. */
  lemma MapSeqRemoveAt<A, B>(f: A -> B, t: seq<A>, k: nat)
    requires k < |t|
    ensures multiset(MapSeq(f, t)) == multiset{f(t[k])} + multiset(MapSeq(f, t[..k] + t[k + 1..]))
  {
    var left, right := t[..k], t[k + 1..];
    assert t[k..] == [t[k]] + right;
    assert t == left + t[k..];
    MapSeqConcat(f, left, [t[k]] + right);
    MapSeqConcat(f, [t[k]], right);
    MapSeqConcat(f, left, right);
  }

  /** Mapping a function over two rearrangements of one multiset gives two rearrangements of one multiset. */
  lemma {:induction false} MapPreservesPermutation<A, B>(f: A -> B, s: seq<A>, t: seq<A>)
    requires multiset(s) == multiset(t)
    ensures multiset(MapSeq(f, s)) == multiset(MapSeq(f, t))
    decreases |s|
  {
    if s != [] {
      assert s[0] in multiset(t);
      var k :| 0 <= k < |t| && t[k] == s[0];
      var s', t' := s[..0] + s[1..], t[..k] + t[k + 1..];
      var ms, mt := MapSeq(f, s'), MapSeq(f, t');
      assert multiset(ms) == multiset(mt) by {
        RemoveAt(t, k);
        RemoveAt(s, 0);
        MapPreservesPermutation(f, s', t');
      }
      assert multiset(MapSeq(f, s)) == multiset{f(s[0])} + multiset(ms) by {
        MapSeqRemoveAt(f, s, 0);
      }
      assert multiset(MapSeq(f, t)) == multiset{f(t[k])} + multiset(mt) by {
        MapSeqRemoveAt(f, t, k);
      }
    }
  }
}
