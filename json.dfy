/**
 * One localStorage key holding JSON text, and `readJSON`'s reading of it.
 * The text itself is not modelled, only what parsing it yields.
 */
module Json {
  import opened Wrappers

  datatype Slot<T> =
    | Missing        // `getItem` returns null: the key was never written, or was removed
    | EmptyText      // the key holds "", which is falsy and never parsed
    | Malformed      // `JSON.parse` throws
    | Json(value: T) // the text parses to a value of the expected shape

  /** `readJSON(key, fallback)`: the parsed value, or the fallback when the key is absent, empty or corrupt. */
  function ReadJSON<T>(slot: Slot<T>, fallback: T): (r: T)
    ensures slot.Json? ==> r == slot.value
    ensures slot.Missing? || slot.EmptyText? || slot.Malformed? ==> r == fallback
  {
    match slot
    case Json(v) => v
    case _ => fallback
  }

  /** `readJSON(key, null)`. */
  function ReadJSONOrNull<T>(slot: Slot<T>): (r: Option<T>)
    ensures r.Some? <==> slot.Json?
    ensures r.Some? ==> r.value == slot.value
  {
    match slot
    case Json(v) => Some(v)
    case _ => None
  }
}
