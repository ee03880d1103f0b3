/**
 * `Application::run`: the packing decision for a cart. The request body is
 * assumed already decoded and mapped into items; the catalog is the list the
 * repository returns, ordered by id. The cache, the external packer and the
 * credentials are the application's collaborators.
 */
module App {
  import opened Wrappers
  import opened JsonValues
  import opened Items
  import opened Entity
  import opened Normalizer
  import opened Sorting
  import opened Results
  import opened PackedSchema
  import opened CacheKey
  import opened Fallback

  /* ---------- collaborators ---------- */

  /**
   * The PSR-16 cache. Only decisions are ever stored in it; `Get` answers
   * `None` (PHP `null`) for a missing key.
   */
  class Cache {
    var entries: map<string, Decision>

    constructor ()
      ensures entries == map[]
    {
      entries := map[];
    }

    method Get(key: string) returns (r: Option<Decision>)
      ensures r.Some? <==> key in entries
      ensures r.Some? ==> r.value == entries[key]
    {
      r := if key in entries then Some(entries[key]) else None;
    }

    method Set(key: string, value: Decision)
      modifies this
      ensures entries == old(entries)[key := value]
    {
      entries := entries[key := value];
    }
  }

  /**
   * What the external call yields: the decoded body of a 2xx answer, or
   * `Unavailable` for every way of not getting one (transport error, a status
   * outside 200..299, a body that is not JSON).
   */
  datatype ExternalOutcome = Answer(body: Json) | Unavailable

  /**
   * The external packer (`packIntoMany`). Its answer to a payload is given by
   * `respond`; `sent` records the payloads posted so far.
   */
  class Packer {
    const respond: Json -> ExternalOutcome
    var sent: seq<Json>

    constructor (respond: Json -> ExternalOutcome)
      ensures this.respond == respond && sent == []
    {
      this.respond := respond;
      sent := [];
    }

    method PackIntoMany(payload: Json) returns (outcome: ExternalOutcome)
      modifies this
      ensures sent == old(sent) + [payload]
      ensures outcome == respond(payload)
    {
      sent := sent + [payload];
      outcome := respond(payload);
    }
  }

  /* ---------- the request payload ---------- */

  /** `convertBoxForApi`: the box as the packer's bin object; the packer says `d` (depth) for length. */
  function ConvertBoxForApi(b: BoxValue): (j: Json)
    ensures j.JObject? && j.fields.Keys == {"id", "w", "h", "d", "max_wg"}
  {
    JObject(map["id" := IdJson(b.id), "w" := JNumber(b.width), "h" := JNumber(b.height),
                "d" := JNumber(b.length), "max_wg" := JNumber(b.maxWeight)])
  }

  /** Reads a bin object back. */
  function BoxFromApi(j: Json): Option<BoxValue> {
    if j.JObject? && forall k :: k in {"id", "w", "h", "d", "max_wg"} ==> k in j.fields then
      var f := j.fields;
      if f["w"].JNumber? && f["h"].JNumber? && f["d"].JNumber? && f["max_wg"].JNumber? then
        match f["id"]
        case JNull => Some(BoxValue(None, f["w"].n, f["h"].n, f["d"].n, f["max_wg"].n))
        case JNumber(n) => Some(BoxValue(Some(n.Floor), f["w"].n, f["h"].n, f["d"].n, f["max_wg"].n))
        case _ => None
      else None
    else None
  }

  /** Every field of a box, id included, reaches the packer under its own name. */
  lemma ConvertBoxRoundTrip(b: BoxValue)
    ensures BoxFromApi(ConvertBoxForApi(b)) == Some(b)
  {
    var j := ConvertBoxForApi(b);
    assert forall k :: k in {"id", "w", "h", "d", "max_wg"} ==> k in j.fields;
  }

  /**
   * `convertItemForApi`: the item as the packer's item object, with vertical
   * rotation allowed and quantity one. The random `id` is left out.
   */
  function ConvertItemForApi(v: ItemValue): (j: Json)
    ensures j.JObject? && j.fields.Keys == {"w", "h", "d", "wg", "vr", "q"}
  {
    JObject(map["w" := JNumber(v.width), "h" := JNumber(v.height), "d" := JNumber(v.length),
                "wg" := JNumber(v.weight), "vr" := JNumber(1.0), "q" := JNumber(1.0)])
  }

  /** Reads the dimensions and the weight back from an item object. */
  function ItemFromApi(j: Json): Option<(Dimensions.Triple, real)> {
    if j.JObject? && forall k :: k in {"w", "h", "d", "wg"} ==> k in j.fields then
      var f := j.fields;
      if f["w"].JNumber? && f["h"].JNumber? && f["d"].JNumber? && f["wg"].JNumber? then
        Some((Dimensions.Triple(f["w"].n, f["h"].n, f["d"].n), f["wg"].n))
      else None
    else None
  }

  /** The packer receives each item's dimensions and weight unchanged, one unit, rotatable. */
  lemma ConvertItemRoundTrip(v: ItemValue)
    ensures ItemFromApi(ConvertItemForApi(v)) == Some((v.Dims(), v.weight))
    ensures ConvertItemForApi(v).fields["vr"] == JNumber(1.0) && ConvertItemForApi(v).fields["q"] == JNumber(1.0)
  {
    var j := ConvertItemForApi(v);
    assert forall k :: k in {"w", "h", "d", "wg"} ==> k in j.fields;
  }

  /** The body posted to the packer. */
  function Payload(username: string, apiKey: string, boxes: seq<BoxValue>, items: seq<ItemValue>): Json {
    JObject(map["username" := JString(username), "api_key" := JString(apiKey),
                "bins" := JArray(MapSeq(ConvertBoxForApi, boxes)),
                "items" := JArray(MapSeq(ConvertItemForApi, items)),
                "params" := JObject(map["optimization_mode" := JString("bins_number")])])
  }

  /** The request carries the credentials, one bin per catalog box and one item per product. */
  lemma PayloadShape(username: string, apiKey: string, boxes: seq<BoxValue>, items: seq<ItemValue>)
    ensures var j := Payload(username, apiKey, boxes, items);
      && j.JObject? && j.fields.Keys == {"username", "api_key", "bins", "items", "params"}
      && j.fields["username"] == JString(username) && j.fields["api_key"] == JString(apiKey)
      && j.fields["bins"].JArray? && |j.fields["bins"].elems| == |boxes|
      && j.fields["items"].JArray? && |j.fields["items"].elems| == |items|
  {
  }

  /* ---------- the response ---------- */

  /** The two responses `run` produces here: 200 with `{box_id}` and 400 with `{message}`. */
  datatype Response = Ok(boxId: BoxIdValue) | BadRequest(message: string)
  {
    function StatusCode(): int {
      if Ok? then 200 else 400
    }
  }

  /** What the cache lookup and the external call decide on a miss. */
  function ExternalDecision(outcome: ExternalOutcome): (r: Option<Decision>)
    ensures outcome.Unavailable? ==> r.None?
    ensures r.Some? ==> outcome.Answer? && HasPackedList(outcome.body)
    ensures r.Some? && r.value.BoxId? ==> |PackedList(outcome.body)| == 1
  {
    if outcome.Answer? && ValidatePackedSchema(outcome.body).Success? then Some(ValidatePackedSchema(outcome.body).value)
    else None
  }

  /** Only a validated answer of the packer yields a decision; anything else means the fallback. */
  lemma ExternalDecisionCases(outcome: ExternalOutcome)
    ensures ExternalDecision(outcome).Some? <==>
      outcome.Answer? && HasPackedList(outcome.body) && CheckEntries(PackedList(outcome.body))
    ensures ExternalDecision(outcome).Some? ==>
      (ExternalDecision(outcome).value.BoxId? <==> |PackedList(outcome.body)| == 1)
  {
  }

  /**
   * Steps [1] and [2] of `run`: every product is normalised in place, then the
   * list is sorted by dimensions. The result is the canonical order of the cart.
   */
  method PrepareItems(products: seq<Item>) returns (items: seq<Item>)
    modifies products
    ensures forall i :: 0 <= i < |products| ==> products[i].Value() == Normalized(old(products[i].Value()))
    ensures multiset(items) == multiset(products)
    ensures SortedByDims(Snapshots(items))
    ensures IsCanonicalOrder(old(Snapshots(products)), Snapshots(items))
  {
    ghost var before := Snapshots(products);
    NormalizeItems(products);
    NormalizedSnapshots(before, Snapshots(products));
    items := UsortItems(products);
  }

  class Application {
    const cache: Cache
    const packer: Packer
    const username: string
    const apiKey: string
    /** `json_encode`, text of a JSON value. */
    const jsonEncode: Json -> string
    /** `hash('sha384', ..., true)`. */
    const sha384: string -> Digest

    constructor (cache: Cache, packer: Packer, username: string, apiKey: string,
                 jsonEncode: Json -> string, sha384: string -> Digest)
      ensures this.cache == cache && this.packer == packer
      ensures this.username == username && this.apiKey == apiKey
      ensures this.jsonEncode == jsonEncode && this.sha384 == sha384
    {
      this.cache := cache;
      this.packer := packer;
      this.username := username;
      this.apiKey := apiKey;
      this.jsonEncode := jsonEncode;
      this.sha384 := sha384;
    }

    /** The cache key of a sorted item list against a catalog of `boxCount` boxes. */
    function KeyFor(boxCount: nat, sortedItems: seq<ItemValue>): (key: string)
      reads this
      ensures IsLegalCacheKey(key)
    {
      ComputeKeyIsLegal(ArrayKeys(boxCount), sortedItems, jsonEncode, sha384);
      ComputeKey(ArrayKeys(boxCount), sortedItems, jsonEncode, sha384)
    }

    /**
     * Step [4]: one request to the packer with the catalog and the items as
     * they are; the decision is the validated answer, if any.
     */
    method Consult(items: seq<Item>, boxes: seq<Packaging>) returns (decision: Option<Decision>)
      modifies packer
      ensures packer.sent == old(packer.sent) + [Payload(username, apiKey, BoxSnapshots(boxes), Snapshots(items))]
      ensures decision == ExternalDecision(packer.respond(packer.sent[|packer.sent| - 1]))
    {
      var payload := Payload(username, apiKey, BoxSnapshots(boxes), Snapshots(items));
      var outcome := packer.PackIntoMany(payload);
      decision := ExternalDecision(outcome);
    }

    /**
     * Step [5] once the request is answered: a decision is stored under `key`
     * and returned; without one the cache is left alone and the local
     * computation runs, starting from `$result === null`.
     */
    method Conclude(key: string, decision: Option<Decision>, items: seq<Item>, boxes: seq<Packaging>)
        returns (result: BoxIdValue, ghost sortedBoxes: seq<Packaging>)
      modifies cache, boxes
      ensures Snapshots(items) == old(Snapshots(items))
      ensures decision.Some? ==>
        && cache.entries == old(cache.entries)[key := decision.value] && result == FromDecision(decision.value)
        && BoxSnapshots(boxes) == old(BoxSnapshots(boxes))
      ensures decision.None? ==>
        && cache.entries == old(cache.entries)
        && (forall i :: 0 <= i < |boxes| ==> boxes[i].Value() == NormalizedBox(old(boxes[i].Value())))
        && multiset(sortedBoxes) == multiset(boxes) && SortedBy(BoxLeq, BoxSnapshots(sortedBoxes))
        && result == Selection(Aggregate(old(Snapshots(items))), BoxSnapshots(sortedBoxes), NullValue)
    {
      sortedBoxes := boxes;
      if decision.Some? {
        result := FromDecision(decision.value);
        cache.Set(key, decision.value);
      } else {
        ghost var vs := Snapshots(items);
        result, sortedBoxes := RunFallback(items, boxes, NullValue);
        assert Snapshots(items) == vs;
      }
    }

    /**
     * Steps [4] and [5], on a cache miss: one request to the packer with the
     * catalog as fetched and the sorted items; a validated answer is stored
     * under `key` and returned, anything else leaves the cache alone and
     * falls back to the local computation, starting from `$result === null`.
     */
    method Miss(key: string, items: seq<Item>, boxes: seq<Packaging>)
        returns (result: BoxIdValue, ghost sortedBoxes: seq<Packaging>)
      modifies cache, packer, boxes
      ensures Snapshots(items) == old(Snapshots(items))
      ensures packer.sent == old(packer.sent) + [Payload(username, apiKey, old(BoxSnapshots(boxes)), old(Snapshots(items)))]
      ensures ExternalDecision(packer.respond(packer.sent[|packer.sent| - 1])).Some? ==>
        var d := ExternalDecision(packer.respond(packer.sent[|packer.sent| - 1])).value;
        && cache.entries == old(cache.entries)[key := d] && result == FromDecision(d)
        && BoxSnapshots(boxes) == old(BoxSnapshots(boxes))
      ensures ExternalDecision(packer.respond(packer.sent[|packer.sent| - 1])).None? ==>
        && cache.entries == old(cache.entries)
        && (forall i :: 0 <= i < |boxes| ==> boxes[i].Value() == NormalizedBox(old(boxes[i].Value())))
        && multiset(sortedBoxes) == multiset(boxes) && SortedBy(BoxLeq, BoxSnapshots(sortedBoxes))
        && result == Selection(Aggregate(old(Snapshots(items))), BoxSnapshots(sortedBoxes), NullValue)
    {
      ghost var vs, bs := Snapshots(items), BoxSnapshots(boxes);
      var decision := Consult(items, boxes);
      assert Snapshots(items) == vs && BoxSnapshots(boxes) == bs;
      label asked:
      result, sortedBoxes := Conclude(key, decision, items, boxes);
      assert packer.sent == old@asked(packer.sent);
      assert decision == ExternalDecision(packer.respond(packer.sent[|packer.sent| - 1]));
      assert forall i :: 0 <= i < |boxes| ==> old@asked(boxes[i].Value()) == old(boxes[i].Value());
    }

    /**
     * Steps [3] to [5] for a normalised and sorted item list: the cache
     * lookup and, on a miss, `Miss`. `key` is the cache key that was used.
     */
    method Decide(items: seq<Item>, boxes: seq<Packaging>)
        returns (result: BoxIdValue, ghost key: string, ghost sortedBoxes: seq<Packaging>)
      modifies cache, packer, boxes
      ensures key == KeyFor(|boxes|, old(Snapshots(items)))
      ensures Snapshots(items) == old(Snapshots(items))
      // a hit: the cached value, `false` included, with no request and no other change
      ensures key in old(cache.entries) ==>
        && result == FromDecision(old(cache.entries)[key])
        && cache.entries == old(cache.entries) && packer.sent == old(packer.sent)
        && BoxSnapshots(boxes) == old(BoxSnapshots(boxes))
      // a miss: exactly one request, with the catalog as fetched and the sorted items
      ensures key !in old(cache.entries) ==>
        packer.sent == old(packer.sent) + [Payload(username, apiKey, old(BoxSnapshots(boxes)), old(Snapshots(items)))]
      // ... whose validated answer is stored and returned
      ensures key !in old(cache.entries) && ExternalDecision(packer.respond(packer.sent[|packer.sent| - 1])).Some? ==>
        var d := ExternalDecision(packer.respond(packer.sent[|packer.sent| - 1])).value;
        && cache.entries == old(cache.entries)[key := d] && result == FromDecision(d)
        && BoxSnapshots(boxes) == old(BoxSnapshots(boxes))
      // ... or, failing that, the fallback's choice, with the cache untouched
      ensures key !in old(cache.entries) && ExternalDecision(packer.respond(packer.sent[|packer.sent| - 1])).None? ==>
        && cache.entries == old(cache.entries)
        && (forall i :: 0 <= i < |boxes| ==> boxes[i].Value() == NormalizedBox(old(boxes[i].Value())))
        && multiset(sortedBoxes) == multiset(boxes) && SortedBy(BoxLeq, BoxSnapshots(sortedBoxes))
        && result == Selection(Aggregate(old(Snapshots(items))), BoxSnapshots(sortedBoxes), NullValue)
    {
      var cacheKey := ComputeKey(ArrayKeys(|boxes|), Snapshots(items), jsonEncode, sha384);
      key, sortedBoxes := cacheKey, boxes;
      var cached := cache.Get(cacheKey);
      if cached.Some? {
        result := FromDecision(cached.value);
      } else {
        result, sortedBoxes := Miss(cacheKey, items, boxes);
      }
    }

    /**
     * `run`, from the mapped products on. An empty cart is answered with 400
     * before the catalog or the cache is touched. Otherwise every product is
     * normalised in place, the list is sorted, and the decision of `Decide`
     * is answered with 200.
     */
    method Run(products: seq<Item>, catalog: seq<Packaging>)
        returns (response: Response, ghost sortedItems: seq<Item>, ghost key: string, ghost sortedBoxes: seq<Packaging>)
      modifies products, catalog, cache, packer
      ensures products == [] ==>
        && response == BadRequest("Input contains no items")
        && cache.entries == old(cache.entries) && packer.sent == old(packer.sent)
        && BoxSnapshots(catalog) == old(BoxSnapshots(catalog))
      ensures products != [] ==>
        && response.Ok?
        && (forall i :: 0 <= i < |products| ==> products[i].Value() == Normalized(old(products[i].Value())))
        && multiset(sortedItems) == multiset(products)
        && SortedByDims(Snapshots(sortedItems))
        && IsCanonicalOrder(old(Snapshots(products)), Snapshots(sortedItems))
        && key == KeyFor(|catalog|, Snapshots(sortedItems))
      ensures products != [] && key in old(cache.entries) ==>
        && response == Ok(FromDecision(old(cache.entries)[key]))
        && cache.entries == old(cache.entries) && packer.sent == old(packer.sent)
        && BoxSnapshots(catalog) == old(BoxSnapshots(catalog))
      ensures products != [] && key !in old(cache.entries) ==>
        packer.sent == old(packer.sent) + [Payload(username, apiKey, old(BoxSnapshots(catalog)), Snapshots(sortedItems))]
      ensures products != [] && key !in old(cache.entries) && ExternalDecision(packer.respond(packer.sent[|packer.sent| - 1])).Some? ==>
        var d := ExternalDecision(packer.respond(packer.sent[|packer.sent| - 1])).value;
        && cache.entries == old(cache.entries)[key := d] && response == Ok(FromDecision(d))
        && BoxSnapshots(catalog) == old(BoxSnapshots(catalog))
      ensures products != [] && key !in old(cache.entries) && ExternalDecision(packer.respond(packer.sent[|packer.sent| - 1])).None? ==>
        && cache.entries == old(cache.entries)
        && (forall i :: 0 <= i < |catalog| ==> catalog[i].Value() == NormalizedBox(old(catalog[i].Value())))
        && multiset(sortedBoxes) == multiset(catalog) && SortedBy(BoxLeq, BoxSnapshots(sortedBoxes))
        && response == Ok(Selection(Aggregate(Snapshots(sortedItems)), BoxSnapshots(sortedBoxes), NullValue))
    {
      sortedItems, key, sortedBoxes := products, "", catalog;
      if products == [] {
        response := BadRequest("Input contains no items");
        return;
      }
      var items := PrepareItems(products);
      sortedItems := items;
      var result;
      result, key, sortedBoxes := Decide(items, catalog);
      response := Ok(result);
    }
  }
}
