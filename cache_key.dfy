/**
 * `Application::computeKey`: the cache key of a request. The pre-image is
 * `"X-Box-Ids: " . join(',', $sortedBoxIds) . "\n\n" . json_encode($sortedItems)`;
 * it is hashed with SHA-384 to 48 raw bytes, which are base64-encoded and
 * then have `+` replaced by `.` and `/` by `_`.
 *
 * `json_encode` (value to text) and `hash('sha384', ..., true)` are foreign
 * library calls; they are parameters here. The JSON value that `json_encode`
 * receives for the item list is modelled exactly.
 */
module CacheKey {
  import opened Wrappers
  import opened JsonValues
  import opened Items
  import opened Normalizer
  import opened Base64

  /** The raw output of `hash('sha384', ..., true)`: 48 bytes. */
  type Digest = d: seq<uint8> | |d| == 48 witness seq(48, i => 0)

  /* ---------- the box part of the pre-image ---------- */

  function DigitChar(d: nat): (c: char)
    requires d < 10
    ensures '0' <= c <= '9'
  {
    ('0' as int + d) as char
  }

  /** PHP's decimal rendering of a non-negative integer, as `join` produces it. */
  function NatToString(n: nat): (s: string)
    ensures |s| > 0 && forall i :: 0 <= i < |s| ==> '0' <= s[i] <= '9'
  {
    if n < 10 then [DigitChar(n)] else NatToString(n / 10) + [DigitChar(n % 10)]
  }

  /** Reads a string of decimal digits back as a number. */
  function ParseNat(s: string): nat
    requires forall i :: 0 <= i < |s| ==> '0' <= s[i] <= '9'
  {
    if s == [] then 0 else ParseNat(s[..|s| - 1]) * 10 + (s[|s| - 1] as int - '0' as int)
  }

  /** The decimal rendering is read back as the number it renders, so it is injective. */
  lemma {:induction false} NatToStringRoundTrip(n: nat)
    ensures ParseNat(NatToString(n)) == n
  {
    if n >= 10 {
      var s := NatToString(n);
      assert s[..|s| - 1] == NatToString(n / 10);
      NatToStringRoundTrip(n / 10);
    }
  }

  /** `join($sep, $parts)`. */
  function Join(sep: string, parts: seq<string>): (r: string)
    ensures |parts| == 0 ==> r == ""
    ensures |parts| > 0 ==> parts[0] <= r
  {
    if |parts| == 0 then ""
    else if |parts| == 1 then parts[0]
    else parts[0] + sep + Join(sep, parts[1..])
  }

  /** How many times `c` occurs in `s`. */
  function Occurrences(c: char, s: string): nat {
    if s == [] then 0 else (if s[0] == c then 1 else 0) + Occurrences(c, s[1..])
  }

  lemma {:induction false} OccurrencesConcat(c: char, a: string, b: string)
    ensures Occurrences(c, a + b) == Occurrences(c, a) + Occurrences(c, b)
  {
    if a != [] {
      assert (a + b)[1..] == a[1..] + b;
      OccurrencesConcat(c, a[1..], b);
    } else {
      assert a + b == b;
    }
  }

  lemma {:induction false} OccurrencesAbsent(c: char, s: string)
    requires forall i :: 0 <= i < |s| ==> s[i] != c
    ensures Occurrences(c, s) == 0
  {
    if s != [] {
      OccurrencesAbsent(c, s[1..]);
    }
  }

  /**
   * Joining `n > 0` parts, none of which contains a comma, with `","` puts
   * exactly `n - 1` commas in the text.
   */
  lemma {:induction false} JoinCommas(parts: seq<string>)
    requires |parts| > 0
    requires forall k, i :: 0 <= k < |parts| && 0 <= i < |parts[k]| ==> parts[k][i] != ','
    ensures Occurrences(',', Join(",", parts)) == |parts| - 1
  {
    OccurrencesAbsent(',', parts[0]);
    if |parts| > 1 {
      JoinCommas(parts[1..]);
      OccurrencesConcat(',', parts[0], ",");
      OccurrencesConcat(',', parts[0] + ",", Join(",", parts[1..]));
    }
  }

  /** `array_keys($boxes)` of the list that `findBy` returns: its positions `0 .. n-1`, not the box ids. */
  function ArrayKeys(n: nat): (keys: seq<nat>)
    ensures |keys| == n && forall i :: 0 <= i < n ==> keys[i] == i
  {
    seq(n, i requires 0 <= i < n => i as nat)
  }

  /** The decimal renderings of a list of numbers. */
  function Renderings(ids: seq<nat>): (parts: seq<string>)
    ensures |parts| == |ids| && forall k :: 0 <= k < |ids| ==> parts[k] == NatToString(ids[k])
  {
    seq(|ids|, k requires 0 <= k < |ids| => NatToString(ids[k]))
  }

  /** `join(',', $sortedBoxIds)`. */
  function BoxIdsPart(sortedBoxIds: seq<nat>): string {
    Join(",", Renderings(sortedBoxIds))
  }

  /** For three boxes the box part is `0,1,2`, whatever the boxes and their ids. */
  lemma BoxPartOfThreeBoxes()
    ensures BoxIdsPart(ArrayKeys(3)) == "0,1,2"
  {
    var parts := Renderings(ArrayKeys(3));
    assert parts == ["0", "1", "2"];
    assert Join(",", parts[2..]) == "2";
    assert Join(",", parts[1..]) == "1,2";
  }

  /**
   * The box part of the key tells catalog sizes apart: two catalogs give the
   * same box part exactly when they have the same number of boxes. (It tells
   * nothing else apart: neither the ids nor the dimensions enter it.)
   */
  lemma BoxPartDeterminesCount(n: nat, m: nat)
    ensures BoxIdsPart(ArrayKeys(n)) == BoxIdsPart(ArrayKeys(m)) <==> n == m
  {
    if n > 0 {
      JoinStartsWithFirst(Renderings(ArrayKeys(n)));
      JoinCommas(Renderings(ArrayKeys(n)));
    }
    if m > 0 {
      JoinStartsWithFirst(Renderings(ArrayKeys(m)));
      JoinCommas(Renderings(ArrayKeys(m)));
    }
  }

  lemma JoinStartsWithFirst(parts: seq<string>)
    requires |parts| > 0 && |parts[0]| > 0
    ensures |Join(",", parts)| > 0
  {
  }

  /* ---------- the item part of the pre-image ---------- */

  /** PHP's `json_encode` of an `?int`. */
  function IdJson(id: Option<int>): Json {
    match id
    case Some(n) => JNumber(n as real)
    case None => JNull
  }

  /** `json_encode` sees an `Item` as an object of its five public properties. */
  function ItemJson(v: ItemValue): Json {
    JObject(map["width" := JNumber(v.width), "height" := JNumber(v.height), "length" := JNumber(v.length),
                "weight" := JNumber(v.weight), "id" := IdJson(v.id)])
  }

  /** The JSON value of the sorted item list. */
  function ItemsJson(vs: seq<ItemValue>): (j: Json)
    ensures j.JArray? && |j.elems| == |vs|
  {
    JArray(MapSeq(ItemJson, vs))
  }

  /** Reads one item back from its JSON object. */
  function ItemOfJson(j: Json): Option<ItemValue> {
    if j.JObject? && forall k :: k in {"width", "height", "length", "weight", "id"} ==> k in j.fields then
      var f := j.fields;
      if f["width"].JNumber? && f["height"].JNumber? && f["length"].JNumber? && f["weight"].JNumber? then
        match f["id"]
        case JNull => Some(ItemValue(f["width"].n, f["height"].n, f["length"].n, f["weight"].n, None))
        case JNumber(n) => Some(ItemValue(f["width"].n, f["height"].n, f["length"].n, f["weight"].n, Some(n.Floor)))
        case _ => None
      else None
    else None
  }

  /** Every property of an item survives the JSON value, id included. */
  lemma ItemJsonRoundTrip(v: ItemValue)
    ensures ItemOfJson(ItemJson(v)) == Some(v)
  {
    var j := ItemJson(v);
    assert forall k :: k in {"width", "height", "length", "weight", "id"} ==> k in j.fields;
  }

  /** Different item lists have different JSON values: the item part loses nothing. */
  lemma {:induction false} ItemsJsonInjective(a: seq<ItemValue>, b: seq<ItemValue>)
    requires ItemsJson(a) == ItemsJson(b)
    ensures a == b
  {
    var ja, jb := MapSeq(ItemJson, a), MapSeq(ItemJson, b);
    assert |a| == |ja| == |jb| == |b|;
    forall i | 0 <= i < |a|
      ensures a[i] == b[i]
    {
      MapSeqAt(ItemJson, a, i);
      MapSeqAt(ItemJson, b, i);
      ItemJsonRoundTrip(a[i]);
      ItemJsonRoundTrip(b[i]);
    }
  }

  /** The text that is hashed. */
  function Preimage(sortedBoxIds: seq<nat>, sortedItems: seq<ItemValue>, jsonEncode: Json -> string): (r: string)
    ensures |r| >= 13 && r[..11] == "X-Box-Ids: "
  {
    "X-Box-Ids: " + BoxIdsPart(sortedBoxIds) + "\n\n" + jsonEncode(ItemsJson(sortedItems))
  }

  /* ---------- from digest to key ---------- */

  /** `str_replace(['+', '/'], ['.', '_'], ...)` on one character. */
  function KeyChar(c: char): char {
    if c == '+' then '.' else if c == '/' then '_' else c
  }

  /** The inverse replacement. */
  function UnkeyChar(c: char): char {
    if c == '.' then '+' else if c == '_' then '/' else c
  }

  /**
   * `str_replace(['+', '/'], ['.', '_'], $s)`. PHP replaces all `+` first and
   * then all `/`; since neither replacement introduces the other's search
   * character, that is the same as replacing character by character.
   */
  function ReplaceForKey(s: string): (r: string)
    ensures |r| == |s| && forall i :: 0 <= i < |s| ==> r[i] == KeyChar(s[i])
    ensures forall i :: 0 <= i < |r| ==> r[i] != '+' && r[i] != '/'
  {
    seq(|s|, i requires 0 <= i < |s| => KeyChar(s[i]))
  }

  function RestoreFromKey(s: string): (r: string)
    ensures |r| == |s| && forall i :: 0 <= i < |s| ==> r[i] == UnkeyChar(s[i])
  {
    seq(|s|, i requires 0 <= i < |s| => UnkeyChar(s[i]))
  }

  /** The characters a key is written in: letters, digits, `.` and `_`. */
  predicate IsKeyChar(c: char) {
    ('A' <= c <= 'Z') || ('a' <= c <= 'z') || ('0' <= c <= '9') || c == '.' || c == '_'
  }

  /**
   * The key of a 48-byte digest: 64 characters of letters, digits, `.` and
   * `_`, so no `=` padding and no `+` or `/`.
   */
  function KeyOfDigest(d: Digest): (key: string)
    ensures |key| == 64
    ensures forall i :: 0 <= i < |key| ==> IsKeyChar(key[i])
  {
    DigestEncoding(d);
    KeyCharsOfEncoding(Encode(d));
    ReplaceForKey(Encode(d))
  }

  /** A 48-byte digest encodes to 64 alphabet characters, none of them `=`. */
  lemma DigestEncoding(d: Digest)
    ensures |Encode(d)| == 64
    ensures forall i :: 0 <= i < |Encode(d)| ==> IsAlphabetChar(Encode(d)[i])
  {
    var s := Encode(d);
    EncodeLength(d);
    EncodeAlphabet(d);
    EncodeUnpadded(d);
    forall i | 0 <= i < |s|
      ensures IsAlphabetChar(s[i])
    {
    }
  }

  /** Replacing `+` and `/` in alphabet text leaves only key characters. */
  lemma KeyCharsOfEncoding(s: string)
    requires forall i :: 0 <= i < |s| ==> IsAlphabetChar(s[i])
    ensures forall i :: 0 <= i < |s| ==> IsKeyChar(ReplaceForKey(s)[i])
  {
    var r := ReplaceForKey(s);
    forall i | 0 <= i < |s|
      ensures IsKeyChar(r[i])
    {
      assert IsAlphabetChar(s[i]) && r[i] == KeyChar(s[i]);
    }
  }

  /** Reads a key back as the digest it encodes. */
  function DigestOfKey(key: string): Option<seq<uint8>> {
    Decode(RestoreFromKey(key))
  }

  /** The key determines the digest it was made from. */
  lemma KeyRoundTrip(d: Digest)
    ensures DigestOfKey(KeyOfDigest(d)) == Some(d)
  {
    var s := Encode(d);
    DigestEncoding(d);
    assert RestoreFromKey(ReplaceForKey(s)) == s;
    DecodeEncode(d);
  }

  /** Two digests share a key only when they are the same digest. */
  lemma KeyInjective(d1: Digest, d2: Digest)
    ensures KeyOfDigest(d1) == KeyOfDigest(d2) <==> d1 == d2
  {
    KeyRoundTrip(d1);
    KeyRoundTrip(d2);
  }

  /**
   * `computeKey($sortedBoxIds, $sortedItems)`: the key of the hashed
   * pre-image, 64 characters of letters, digits, `.` and `_`.
   */
  function ComputeKey(sortedBoxIds: seq<nat>, sortedItems: seq<ItemValue>,
                      jsonEncode: Json -> string, sha384: string -> Digest): (key: string)
    ensures |key| == 64 && forall i :: 0 <= i < |key| ==> IsKeyChar(key[i])
    ensures DigestOfKey(key) == Some(sha384(Preimage(sortedBoxIds, sortedItems, jsonEncode)))
  {
    var d := sha384(Preimage(sortedBoxIds, sortedItems, jsonEncode));
    KeyRoundTrip(d);
    KeyOfDigest(d)
  }

  /**
   * A key every PSR-16 cache must accept: one to 64 characters, none of them
   * one of the reserved characters `{}()/\@:`.
   */
  predicate IsLegalCacheKey(key: string) {
    0 < |key| <= 64 && forall i :: 0 <= i < |key| ==> key[i] !in "{}()/\\@:"
  }

  /** After the replacement the computed key is always a legal PSR-16 cache key. */
  lemma ComputeKeyIsLegal(sortedBoxIds: seq<nat>, sortedItems: seq<ItemValue>,
                          jsonEncode: Json -> string, sha384: string -> Digest)
    ensures IsLegalCacheKey(ComputeKey(sortedBoxIds, sortedItems, jsonEncode, sha384))
  {
    var key := ComputeKey(sortedBoxIds, sortedItems, jsonEncode, sha384);
    KeyCharsAreLegal(key);
  }

  /** Text written in key characters has none of the reserved ones. */
  lemma KeyCharsAreLegal(key: string)
    requires 0 < |key| <= 64 && forall i :: 0 <= i < |key| ==> IsKeyChar(key[i])
    ensures IsLegalCacheKey(key)
  {
    forall i | 0 <= i < |key|
      ensures key[i] !in "{}()/\\@:"
    {
      assert IsKeyChar(key[i]);
    }
  }

  /* ---------- what the key does and does not distinguish ---------- */

  /**
   * The key is called with `array_keys($boxes)`: two catalogs with the same
   * number of boxes give the same key for the same items, whatever their ids
   * and dimensions, and catalogs of different sizes give different pre-images.
   */
  lemma KeySeesOnlyCatalogSize(n: nat, m: nat, items: seq<ItemValue>, jsonEncode: Json -> string)
    ensures Preimage(ArrayKeys(n), items, jsonEncode) == Preimage(ArrayKeys(m), items, jsonEncode) <==> n == m
  {
    var p, q := BoxIdsPart(ArrayKeys(n)), BoxIdsPart(ArrayKeys(m));
    var head, tail := "X-Box-Ids: ", "\n\n" + jsonEncode(ItemsJson(items));
    assert Preimage(ArrayKeys(n), items, jsonEncode) == head + p + tail;
    assert Preimage(ArrayKeys(m), items, jsonEncode) == head + q + tail;
    if head + p + tail == head + q + tail {
      assert |p| == |q|;
      assert p == (head + p + tail)[|head|..|head| + |p|];
      assert q == (head + q + tail)[|head|..|head| + |q|];
    }
    BoxPartDeterminesCount(n, m);
  }

  /**
   * With an injective `json_encode`, different sorted item lists give
   * different pre-images.
   */
  lemma PreimageSeparatesItems(ids: seq<nat>, a: seq<ItemValue>, b: seq<ItemValue>, jsonEncode: Json -> string)
    requires forall x, y :: jsonEncode(x) == jsonEncode(y) ==> x == y
    ensures Preimage(ids, a, jsonEncode) == Preimage(ids, b, jsonEncode) <==> a == b
  {
    var head := "X-Box-Ids: " + BoxIdsPart(ids) + "\n\n";
    var ea, eb := jsonEncode(ItemsJson(a)), jsonEncode(ItemsJson(b));
    if head + ea == head + eb {
      assert ea == (head + ea)[|head|..];
      assert eb == (head + eb)[|head|..];
      ItemsJsonInjective(a, b);
    }
  }

  /**
   * The point of normalising and sorting the items first: two carts listing
   * the same items, in any order, get the same key, provided no two different
   * normalised items tie on all three dimensions.
   */
  lemma KeyIndependentOfCartOrder(ids: seq<nat>, cart1: seq<ItemValue>, cart2: seq<ItemValue>,
                                  sorted1: seq<ItemValue>, sorted2: seq<ItemValue>,
                                  jsonEncode: Json -> string, sha384: string -> Digest)
    requires multiset(cart1) == multiset(cart2)
    requires IsCanonicalOrder(cart1, sorted1) && IsCanonicalOrder(cart2, sorted2)
    requires DimsDetermineItems(sorted1)
    ensures ComputeKey(ids, sorted1, jsonEncode, sha384) == ComputeKey(ids, sorted2, jsonEncode, sha384)
  {
    CanonicalOrderUnique(cart1, cart2, sorted1, sorted2);
  }

  /**
   * Without the proviso the key can depend on the cart's order: two items
   * with the same dimensions but different weights, listed in the two orders,
   * are both canonical and give different pre-images.
   */
  lemma TiedItemsGiveDifferentPreimages(ids: seq<nat>, jsonEncode: Json -> string)
    requires forall x, y :: jsonEncode(x) == jsonEncode(y) ==> x == y
    ensures var light, heavy := ItemValue(1.0, 1.0, 1.0, 5.0, None), ItemValue(1.0, 1.0, 1.0, 7.0, None);
      && IsCanonicalOrder([light, heavy], [light, heavy])
      && IsCanonicalOrder([heavy, light], [heavy, light])
      && Preimage(ids, [light, heavy], jsonEncode) != Preimage(ids, [heavy, light], jsonEncode)
  {
    var light, heavy := ItemValue(1.0, 1.0, 1.0, 5.0, None), ItemValue(1.0, 1.0, 1.0, 7.0, None);
    TiedItemsHaveTwoCanonicalOrders();
    PreimageSeparatesItems(ids, [light, heavy], [heavy, light], jsonEncode);
  }
}
