# Packing decision pipeline: a Dafny model

This project models the core of a shipping-cost service. The service takes a cart of products and answers with the id of a warehouse box that holds all of them. The core is `Application::run` together with the `Packaging` entity. It works in these steps:

1. It rejects an empty cart.
2. It normalises every item's dimensions in place with a three-step compare-and-swap network. It then sorts the items by `(width, height, length)`.
3. It builds a cache key from the catalog and the sorted items. The key is SHA-384 of a text pre-image, base64-encoded, with `+`→`.` and `/`→`_`.
4. It answers from the cache when it can.
5. On a miss it posts the catalog and the items to an external packer. It validates the answer against `{bins_packed: [{bin_data: {id: string}}]}`, stores the validated decision and returns it.
6. When the external call or the validation fails, it falls back to a local computation. The cache is left alone. The computation:
   - folds the items into one aggregate item;
   - normalises the boxes in place and sorts them by `(width, height, length, maxWeight)`;
   - picks the first box that holds the aggregate.

Modules, one per concern:

| file | module | what it holds |
|---|---|---|
| `dimensions.dfy` | `Dimensions` | the compare-and-swap network on a triple, and the lexicographic order |
| `items.dfy` | `Items` | the `Item` record as a class with mutable fields; snapshots; `MapSeq` |
| `entity.dfy` | `Entity` | the `Packaging` class: constructor, getters, in-place `SortDimensions` |
| `normalizer.dfy` | `Normalizer` | `Application::sortDimensions`, the normalisation loop, the item comparator and the item `usort` |
| `sorting.dfy` | `Sorting` | facts about insertion by adjacent swaps, shared by both sorts |
| `json.dfy`, `results.dfy` | `JsonValues`, `Results` | decoded JSON values; the values a decision and `$result` can take |
| `packed_schema.dfy` | `PackedSchema` | `validatePackedSchema` |
| `base64.dfy` | `Base64` | `base64_encode` (RFC 4648, section 4) and a decoder for whole blocks |
| `cache_key.dfy` | `CacheKey` | `computeKey` and what the key does and does not distinguish |
| `fallback.dfy` | `Fallback` | the aggregate loop, box normalisation and sort, and the first-fit loop with `break` |
| `application.dfy` | `App` | the cache, the external packer, the payload, and `run`'s control flow |

The model keeps the source's form:

- `Item` and `Packaging` are classes whose methods swap fields in place.
- The lists are sequences of object references.
- Each `usort` returns a rearranged list; the objects themselves stay where they are.
- The accumulation and first-fit loops are `for` and `while` loops with invariants.
- The validator, the key construction and the API field mappings are functions.

PHP floats are `real`.

Where the source's own comments promise more than the code does, the model follows the code:

- **Normalisation.** The comment at `src/Application.php:82` promises `width <= height <= length`, and the one at `:80` says the key should not depend on item rotation. The network only makes `height` the largest value (`NetworkNotAscending`), and two rotations of one box can normalise differently (`NetworkNotRotationInvariant`).
- **Key box part.** The comment at `src/Application.php:104` and the parameter name `$sortedBoxIds` (`:247`) speak of box ids. The code passes `array_keys($boxes)`, the positions `0..n-1`, so the key sees only the size of the catalog (`KeySeesOnlyCatalogSize`).
- **Key and cart order.** The comment at `src/Application.php:80` says the key should not depend on item order. The sort compares dimensions only, so two items that tie on all three dimensions but differ in weight keep their cart order, and the two orders give different pre-images (`TiedItemsGiveDifferentPreimages`). Without such ties the key is independent of the order (`KeyIndependentOfCartOrder`).
- **Timeout.** The comment at `src/Application.php:19-21` asks for a request timeout. The code sets none: `run.php` builds a default client. There is nothing to model.

Three further points about the fallback, from the code alone:

- **Aggregate.** The loop adds the widths but re-normalises the running total after every item, so the final width is in general not the sum of the widths (`AggregateWidthNotSum`).
- **"No box" value.** When no box holds the aggregate, `$result` keeps its value, which is `null` on a miss (`NothingFitsKeepsPrior`, `Application.Run`). The external path answers the same situation, several packed bins, with `false` (`TwoBinsMeanNoSingleBox`).
- **Side effects.** The fallback normalises the catalog's `Packaging` objects in place (`RunFallback`).

## Model

| member | source | states |
|---|---|---|
| Dimensions.Network | src/Application.php:223-240 | after the three compare-and-swap steps, `height` is the largest of the three dimensions |
| Dimensions.NetworkPermutes | src/Application.php:223-240 | the steps only swap: the result holds the same multiset of three values as the input |
| Dimensions.NetworkClosedForm | src/Application.php:223-240 | the result is `(min(w,h), max(w,h,l), min(l, max(w,h)))`, stated without the steps |
| Dimensions.ThirdStepNeverFires | src/Application.php:234-239 | the repeated first block never changes anything after the first two blocks |
| Dimensions.NetworkIdempotent | src/Application.php:234-239 | normalising twice gives the same triple as normalising once |
| Dimensions.NetworkNotAscending | src/Application.php:82 | `(3,2,1)` becomes `(2,3,1)`, so the result need not be ascending, contrary to the comment |
| Dimensions.NetworkNotRotationInvariant | src/Application.php:80 | two rotations of one box, `(1,2,3)` and `(3,2,1)`, normalise to different triples |
| Dimensions.NetworkFixedPoints | src/Application.php:223-240 | a triple is left unchanged exactly when its height is already the largest value |
| Dimensions.LexLeqTotalOrder | src/Application.php:85-94 | the comparators' lexicographic order on `(width, height, length)` is total, antisymmetric and transitive |
| Items.Item.constructor | src/Item.php:6-12 | the record holds the four given numbers and the optional id |
| Entity.Packaging.constructor | src/Entity/Packaging.php:20-40 | a new box has id `null`, and each getter returns the value it was built with |
| Entity.Packaging.SwapWidthHeight | src/Entity/Packaging.php:63-67 | one compare-and-swap of width and height; capacity and id unchanged |
| Entity.Packaging.SortDimensions | src/Entity/Packaging.php:62-79 | the box's dimensions become the network of the old ones, so height is the largest; `maxWeight` and `id` unchanged |
| Normalizer.SwapWidthHeight | src/Application.php:224-228 | one compare-and-swap of an item's width and height; weight and id unchanged |
| Normalizer.SortDimensions | src/Application.php:223-240 | the item's dimensions become the network of the old ones; weight and id stay with the item |
| Normalizer.NormalizedIdempotent | src/Application.php:223-240 | normalising an item snapshot twice is normalising it once |
| Normalizer.NormalizeItems | src/Application.php:81-84 | after the loop every listed item is normalised exactly once in effect, even when an object is listed twice |
| Normalizer.NormalizedSnapshots | src/Application.php:81-84 | when every entry of a list is the normalisation of the entry before the loop, the list is the normalised old list, entry by entry |
| Normalizer.Spaceship | src/Application.php:86-90 | PHP `<=>` on two numbers: -1, 0 or 1, negative exactly when the first is smaller and zero exactly when they are equal |
| Normalizer.CompareItems | src/Application.php:85-94 | the comparator is negative, zero or positive exactly when the first item comes before, ties with or comes after the second by `(width, height, length)` |
| Normalizer.CompareItemsAntisymmetric | src/Application.php:85-94 | swapping the arguments negates the comparator |
| Normalizer.ItemLeqTotalPreorder | src/Application.php:85-94 | the order the comparator sorts by is a total preorder, so `usort` is well defined |
| Normalizer.InsertItem | src/Application.php:85-94 | one insertion step extends the sorted prefix by one, keeping the same objects and snapshots |
| Normalizer.UsortItems | src/Application.php:85-94 | the sorted list has the same objects and snapshots as the input and ascends by `(width, height, length)`, so weights travel with their items |
| Normalizer.SortedPermutationsEqual | src/Application.php:79-94 | two sorted rearrangements of one multiset are equal when no two different items tie on all three dimensions |
| Normalizer.CanonicalOrderUnique | src/Application.php:79-94 | carts listing the same items in any order reach the same normalised sorted list, given no full ties |
| Normalizer.TiedItemsHaveTwoCanonicalOrders | src/Application.php:85-94 | two items equal in size but not in weight have two valid sorted orders |
| PackedSchema.CheckEntries | src/Application.php:215-219 | the entry loop passes exactly when every entry has an object `bin_data` with a string `id` |
| PackedSchema.ValidatePackedSchema | src/Application.php:209-221 | fails with the first error exactly when there is no array `bins_packed`, and with the second exactly when some entry lacks a string id; otherwise it returns the id when there is one entry and `false` otherwise |
| PackedSchema.TwoBinsMeanNoSingleBox | src/Application.php:220 | an answer listing two bins validates to `false` |
| PackedSchema.NumericIdIsRejected | src/Application.php:216-218 | an entry whose id is a number makes the whole answer fail |
| Base64.SextetChar | src/Application.php:250 | every 6-bit value maps to a character of the RFC 4648 alphabet |
| Base64.CharSextet | src/Application.php:250 | every alphabet character maps back to the 6-bit value that `SextetChar` sends to it |
| Base64.SextetRoundTrip | src/Application.php:250 | mapping a 6-bit value to its character and back gives the value |
| Base64.RegroupBytes | src/Application.php:250 | three bytes regrouped into four sextets and back give the same bytes |
| Base64.RegroupSextets | src/Application.php:250 | four sextets regrouped into three bytes and back give the same sextets |
| Base64.EncodeBlock | src/Application.php:250 | three bytes encode to four alphabet characters |
| Base64.Encode | src/Application.php:250 | the encoding has four characters for every started group of three bytes, counted by `EncodedLength` |
| Base64.EncodeAlphabet | src/Application.php:250 | the encoding uses only alphabet characters and `=` |
| Base64.EncodeUnpadded | src/Application.php:250 | a byte string whose length is a multiple of three (such as the 48-byte digest) is encoded without any `=` |
| Base64.EncodePadded | src/Application.php:250 | otherwise the encoded text ends in `=` |
| Base64.EncodeLength | src/Application.php:250 | the encoding has four characters for every three bytes, rounded up |
| Base64.DecodeBlock | src/Application.php:250 | four alphabet characters decode to three bytes |
| Base64.Decode | src/Application.php:250 | decoding succeeds exactly on unpadded alphabet text, with three bytes per four characters |
| Base64.BlockRoundTrip | src/Application.php:250 | decoding an encoded block gives back its three bytes |
| Base64.BlockRoundTripBack | src/Application.php:250 | encoding a decoded block gives back its four characters |
| Base64.DecodeEncode | src/Application.php:250 | decoding the encoding of whole blocks gives the bytes back |
| Base64.EncodeDecode | src/Application.php:250 | unpadded alphabet text is the encoding of exactly the bytes it decodes to |
| CacheKey.NatToString | src/Application.php:250 | a non-negative integer renders as a non-empty string of decimal digits |
| CacheKey.NatToStringRoundTrip | src/Application.php:250 | reading the rendering back gives the number, so different positions render differently |
| CacheKey.Join | src/Application.php:250 | PHP `join`: no parts give the empty text, otherwise the text starts with the first part |
| CacheKey.JoinCommas | src/Application.php:250 | joining `n` comma-free parts with `,` puts exactly `n - 1` commas in the text |
| CacheKey.ArrayKeys | src/Application.php:105 | `array_keys` of the fetched list is the positions `0..n-1`, not the box ids |
| CacheKey.BoxPartOfThreeBoxes | src/Application.php:105 | for any three boxes the box part of the pre-image is `0,1,2` |
| CacheKey.BoxPartDeterminesCount | src/Application.php:105 | two catalogs give the same box part exactly when they have the same number of boxes |
| CacheKey.ItemJsonRoundTrip | src/Application.php:250 | the JSON object of an item carries all five public properties, id included |
| CacheKey.ItemsJson | src/Application.php:250 | the JSON value of the item list is an array with one element per item |
| CacheKey.ItemsJsonInjective | src/Application.php:250 | different sorted item lists have different JSON values |
| CacheKey.DigestEncoding | src/Application.php:248-250 | a 48-byte digest encodes to 64 alphabet characters with no `=` padding, as the comment on `computeKey` claims |
| CacheKey.KeyOfDigest | src/Application.php:248-250 | the key of a 48-byte digest has 64 characters, all letters, digits, `.` or `_` |
| CacheKey.ReplaceForKey | src/Application.php:250 | `str_replace(['+', '/'], ['.', '_'], ...)`: character by character, and no `+` or `/` is left |
| CacheKey.KeyCharsOfEncoding | src/Application.php:250 | replacing `+` and `/` by `.` and `_` in alphabet text leaves only letters, digits, `.` and `_` |
| CacheKey.KeyRoundTrip | src/Application.php:248-250 | the key decodes back to the digest it was made from |
| CacheKey.KeyInjective | src/Application.php:248-250 | two digests share a key exactly when they are equal |
| CacheKey.Preimage | src/Application.php:250 | the hashed text starts with `X-Box-Ids: `, followed by the box part, a blank line and `json_encode` of the items |
| CacheKey.ComputeKey | src/Application.php:247-251 | the key has 64 letters, digits, `.` or `_`, and encodes the SHA-384 digest of `"X-Box-Ids: " + join + "\n\n" + json_encode(items)` |
| CacheKey.ComputeKeyIsLegal | src/Application.php:248-250 | the key is a legal PSR-16 key: 1 to 64 characters, none of them reserved |
| CacheKey.KeyCharsAreLegal | src/Application.php:248-250 | text of one to 64 letters, digits, `.` and `_` contains none of the characters PSR-16 reserves |
| CacheKey.KeySeesOnlyCatalogSize | src/Application.php:105 | with `array_keys`, two catalogs give the same pre-image exactly when they have the same number of boxes, whatever their ids and sizes |
| CacheKey.PreimageSeparatesItems | src/Application.php:250 | with an injective `json_encode`, different sorted item lists give different pre-images |
| CacheKey.KeyIndependentOfCartOrder | src/Application.php:79-105 | carts listing the same items in any order get the same key, given no full ties |
| CacheKey.TiedItemsGiveDifferentPreimages | src/Application.php:79-105 | two items equal in size but not in weight, listed in the two orders, give different pre-images |
| Fallback.AccumulateStep | src/Application.php:137-141 | one turn of the aggregate loop adds the weights, keeps the id, and leaves the height as the largest dimension |
| Fallback.Aggregate | src/Application.php:135-142 | the aggregate's weight is the sum of the weights, its id is `null`, and its height is its largest dimension |
| Fallback.AddItem | src/Application.php:137-141 | one turn of the loop adds the width and weight, takes the maxima of height and length, and re-normalises |
| Fallback.AccumulateTotal | src/Application.php:135-142 | the loop leaves a fresh `$total` equal to the aggregate of the items |
| Fallback.AggregateWidthNotSum | src/Application.php:141 | three unit cubes aggregate to `(2,2,1)`, not a `3×1×1` block |
| Fallback.StepDominates | src/Application.php:137-141 | one turn of the loop never shrinks the aggregate and covers the new item |
| Fallback.AggregateCoversEachItem | src/Application.php:135-142 | for normalised, non-negative items, no item's dimension or weight exceeds the aggregate's |
| Fallback.NormalizationsAgree | src/Entity/Packaging.php:62-79 | the item and the box `sortDimensions` give the same triple from the same start (together with src/Application.php:223-240) |
| Fallback.NormalizeBoxes | src/Application.php:143-145 | every catalog box is normalised in place |
| Fallback.CompareBoxes | src/Application.php:146-158 | the comparator's sign says exactly how the boxes compare by `(width, height, length, maxWeight)`; zero exactly on a tie in all four |
| Fallback.BoxLeqTotalPreorder | src/Application.php:146-158 | the box order is a total preorder |
| Fallback.InsertBox | src/Application.php:146-158 | one insertion step extends the sorted prefix of boxes by one |
| Fallback.UsortBoxes | src/Application.php:146-158 | the sorted boxes are the same objects and snapshots, ascending by the four keys |
| Fallback.Fits | src/Application.php:161 | a box holds the aggregate when width, height and length are each at most the box's and the weight is at most its capacity |
| Fallback.FirstFitIndex | src/Application.php:160-165 | the index found holds the aggregate and no earlier box does; there is none exactly when no box holds it |
| Fallback.Selection | src/Application.php:160-165 | the id of the first box that holds the aggregate, or the prior `$result` when none does |
| Fallback.SelectionIsFirstFit | src/Application.php:159-165 | the chosen id is the first fitting box in the sorted order |
| Fallback.NothingFitsKeepsPrior | src/Application.php:160-165 | when no box fits, `$result` keeps its prior value |
| Fallback.ChosenBoxHoldsEachItem | src/Application.php:135-165 | a box chosen for the aggregate holds each item on its own |
| Fallback.FirstFit | src/Application.php:160-165 | the loop with `break` returns the id of the first box that holds `$total`, or `prior` when none does |
| Fallback.RunFallback | src/Application.php:134-166 | the fallback normalises the catalog in place, sorts it, and returns the first-fit selection for the aggregate |
| App.Cache.Get | src/Application.php:106 | the cache read returns the stored decision exactly when the key is present |
| App.Cache.Set | src/Application.php:131 | the cache write stores the decision under the key and changes nothing else |
| App.Packer.PackIntoMany | src/Application.php:110-122 | one request is recorded, and its outcome is the packer's answer to that payload |
| App.ConvertBoxForApi | src/Application.php:185-194 | a box becomes an object with exactly the fields `id`, `w`, `h`, `d` and `max_wg` |
| App.ConvertBoxRoundTrip | src/Application.php:185-194 | every box field, id included, reaches the packer: `w`, `h`, `d` (length) and `max_wg` |
| App.ConvertItemForApi | src/Application.php:196-207 | an item becomes an object with the fields `w`, `h`, `d`, `wg`, `vr` and `q` (the random `id` left out) |
| App.ConvertItemRoundTrip | src/Application.php:196-207 | each item's dimensions and weight reach the packer unchanged, with `vr = 1` and `q = 1` |
| App.Payload | src/Application.php:113-121 | the request body: the credentials, the converted boxes, the converted items and `optimization_mode = bins_number` |
| App.PayloadShape | src/Application.php:113-121 | the request carries exactly the five top-level fields, the given credentials, one bin per box and one item per item |
| App.ExternalDecision | src/Application.php:124-131 | no answer gives no decision; a decision comes only from an answer with a `bins_packed` list, and an id only from a list of one bin |
| App.ExternalDecisionCases | src/Application.php:124-131 | an answer yields a decision exactly when it passes validation; the decision is an id exactly when there is one bin |
| App.Application.constructor | src/Application.php:37-49 | the application keeps its collaborators |
| App.PrepareItems | src/Application.php:79-94 | every product is normalised in place and the returned list is the canonical order of the cart: the normalised items, sorted by dimensions |
| App.Application.KeyFor | src/Application.php:105 | the key computed from the catalog size and the sorted items is a legal PSR-16 cache key |
| App.Application.Consult | src/Application.php:109-130 | exactly one request, with the catalog and the items as they are; the decision is the validated answer to it, if any |
| App.Application.Conclude | src/Application.php:130-166 | a decision is stored under the key and returned with the catalog untouched; without one the cache is untouched and the fallback decides from `null` |
| App.Application.Miss | src/Application.php:108-166 | a miss sends exactly one request with the fetched catalog and the sorted items; a validated answer is stored and returned, otherwise the cache is untouched and the fallback decides, starting from `null` |
| App.Application.Decide | src/Application.php:103-167 | on a hit the cached value is returned, `false` included, with no request and nothing changed; on a miss, `Miss` |
| App.Application.Run | src/Application.php:74-170 | an empty cart gets 400 "Input contains no items" before the catalog, cache or packer is touched; otherwise the sorted items are the canonical order of the cart, the key is computed from them, and the response is 200 with the decision of the hit, miss or fallback path; only the fallback changes the catalog |

## Left out

- HTTP and PSR-7 plumbing is not modelled: reading the body, building the request, status codes and reason phrases, and `withJsonBody`. The external call is the oracle `Packer.respond`. A non-2xx status, a transport error or an undecodable body are all the outcome `Unavailable`.
- `json_decode` of the request, the input mapper and their 400 messages are not modelled. The model starts from the mapped list of products.
- `json_encode` (value to text) and `hash('sha384', …, true)` are foreign library calls. They are parameters of `Application`, with the digest typed as 48 bytes. The JSON value handed to `json_encode` is modelled exactly.
- `convertItemForApi`'s random per-item id (`bin2hex(random_bytes(16))`) is dropped.
- The Doctrine repository fetch and its 500 path are not modelled. The catalog is passed in as a list that is already in id order.
- Timeouts are not modelled, because the code configures none.
- Floating-point rounding, NaN and infinities are not modelled. Floats are `real`, with comparison and addition only.
- Base64.Decode: only unpadded text (whole four-character groups) is decoded. The key's 48-byte digest never needs padding, and the round trip is proved for whole blocks only.
- Normalizer.UsortItems: PHP's sort algorithm is not modelled, only its contract (a sorted rearrangement of the same objects). Stability is not stated.
- Fallback.UsortBoxes: likewise, only the contract of `usort` is modelled.
- App.Cache.Set: the cache write never fails. If it threw in PHP, the catch block would run with `$result` already set to the validated decision.
- `Packaging`'s getters are plain reads. They carry no contract of their own; the constructor's contract states what they return.
- `run.php` and `CredentialsInterface` are bootstrap and credential plumbing. The credentials are plain strings.
