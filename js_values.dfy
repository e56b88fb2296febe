/** JavaScript values as far as the hooks inspect them: `undefined` and string coercion. */
module JsValues {

  /** `None` stands for JavaScript `undefined`. */
  datatype Option<+T> = None | Some(value: T) {
    function GetOr(default: T): T {
      match this
      case Some(v) => v
      case None => default
    }
  }

  /** `value + ""` (or `${value}`) for a value that is a string or `undefined`. */
  function Stringify(v: Option<string>): string {
    match v
    case Some(s) => s
    case None => "undefined"
  }

  /**
   * Truthiness of a `string | Disabled` argument (`Disabled` is null, false, undefined, "" or 0):
   * `None` stands for every non-string `Disabled` value.
   */
  predicate Truthy(u: Option<string>) {
    u.Some? && u.value != ""
  }
}
