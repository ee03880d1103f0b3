/**
 * `Application::validatePackedSchema`: checks the decoded answer of the
 * external packer against the shape `{bins_packed: [{bin_data: {id: string}}]}`
 * and extracts a decision from it.
 */
module PackedSchema {
  import opened Wrappers
  import opened JsonValues
  import opened Results

  /** The two exceptions the validator throws. */
  datatype SchemaError =
    | NoPackedList     // "Packed does not match schema {bins_packed:[]}"
    | EntryWithoutId   // "Response body does not match schema {bins_packed:[{bin_data:{id:string}]}"

  /** An object with a `bins_packed` property that is an array. */
  predicate HasPackedList(json: Json) {
    json.JObject? && "bins_packed" in json.fields && json.fields["bins_packed"].JArray?
  }

  function PackedList(json: Json): seq<Json>
    requires HasPackedList(json)
  {
    json.fields["bins_packed"].elems
  }

  /** An entry whose `bin_data` is set, is an object, and has an `id` property that is a string. */
  predicate HasStringId(bin: Json) {
    && bin.JObject?
    && "bin_data" in bin.fields
    && bin.fields["bin_data"].JObject?
    && "id" in bin.fields["bin_data"].fields
    && bin.fields["bin_data"].fields["id"].JString?
  }

  function EntryId(bin: Json): string
    requires HasStringId(bin)
  {
    bin.fields["bin_data"].fields["id"].s
  }

  /** The `foreach` over the entries: true when no entry makes it throw. */
  function CheckEntries(bins: seq<Json>): (ok: bool)
    ensures ok <==> forall i :: 0 <= i < |bins| ==> HasStringId(bins[i])
  {
    if bins == [] then true else HasStringId(bins[0]) && CheckEntries(bins[1..])
  }

  /**
   * Fails with `NoPackedList` exactly when the value is not an object with an
   * array `bins_packed`, and with `EntryWithoutId` exactly when some entry lacks
   * a string `bin_data.id`. Otherwise it succeeds, with the id of the only
   * entry when there is exactly one, and with `false` when there are none or
   * several.
   */
  function ValidatePackedSchema(json: Json): (r: Result<Decision, SchemaError>)
    ensures r == Failure(NoPackedList) <==> !HasPackedList(json)
    ensures r == Failure(EntryWithoutId) <==>
      HasPackedList(json) && exists i :: 0 <= i < |PackedList(json)| && !HasStringId(PackedList(json)[i])
    ensures r.Success? ==> (r.value.BoxId? <==> |PackedList(json)| == 1)
    ensures r.Success? && r.value.BoxId? ==> r.value.id == EntryId(PackedList(json)[0])
  {
    if !HasPackedList(json) then
      Failure(NoPackedList)
    else
      var bins := PackedList(json);
      if !CheckEntries(bins) then
        Failure(EntryWithoutId)
      else if |bins| == 1 then
        Success(BoxId(EntryId(bins[0])))
      else
        Success(NoSingleBox)
  }

  /** An answer listing two packed bins means that no single box fits: the decision is `false`. */
  lemma TwoBinsMeanNoSingleBox(id1: string, id2: string)
    ensures var bin1 := JObject(map["bin_data" := JObject(map["id" := JString(id1)])]);
            var bin2 := JObject(map["bin_data" := JObject(map["id" := JString(id2)])]);
            ValidatePackedSchema(JObject(map["bins_packed" := JArray([bin1, bin2])])) == Success(NoSingleBox)
  {
  }

  /** An entry whose `id` is a number, not a string, makes the whole answer fail. */
  lemma NumericIdIsRejected(n: real)
    ensures var bin := JObject(map["bin_data" := JObject(map["id" := JNumber(n)])]);
            ValidatePackedSchema(JObject(map["bins_packed" := JArray([bin])])) == Failure(EntryWithoutId)
  {
  }
}
