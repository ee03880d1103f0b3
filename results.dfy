/**
 * The values the packing decision can take on its way through
 * `Application::run`.
 */
module Results {
  import opened Wrappers

  /**
   * What `validatePackedSchema` returns, and so what the cache stores:
   * the id string of the one box the external packer used, or `false`
   * when it used none or several.
   */
  datatype Decision = BoxId(id: string) | NoSingleBox

  /**
   * The values `$result` can hold, and so the `box_id` of the response:
   * a string id from the external packer, an integer id from the catalog,
   * `false`, or `null`.
   */
  datatype BoxIdValue = StringId(s: string) | IntId(n: int) | FalseValue | NullValue

  /** A decision as `$result` holds it. */
  function FromDecision(d: Decision): BoxIdValue {
    match d
    case BoxId(id) => StringId(id)
    case NoSingleBox => FalseValue
  }

  /** `Packaging::getId()`, whose `?int` becomes `$result`. */
  function FromCatalogId(id: Option<int>): BoxIdValue {
    match id
    case Some(n) => IntId(n)
    case None => NullValue
  }
}
