/** Values shared by the whole model: optional values, the replies an
    Express handler sends, document ids and JavaScript truthiness. */
module Common {

  /** A value that may be absent (`undefined` or `null` in JavaScript). */
  datatype Option<+T> = None | Some(value: T) {
    function GetOr(default: T): T {
      if Some? then value else default
    }
  }

  /** A document identifier (`_id`). */
  type Id = nat

  /** What a handler sends back: a status code and a JSON body that is
      either a value or `{ message }`. */
  datatype Reply<+T> = Ok(status: nat, value: T) | Err(status: nat, message: string)

  /** JavaScript truthiness of a value that is absent or a string:
      `undefined`, `null` and `""` are falsy, every other string is truthy. */
  predicate Truthy(v: Option<string>) {
    v.Some? && v.value != ""
  }

  /** `v || fallback` for an optional string. */
  function OrElse(v: Option<string>, fallback: string): (r: string)
    ensures Truthy(v) ==> r == v.value
    ensures !Truthy(v) ==> r == fallback
  {
    if Truthy(v) then v.value else fallback
  }
}
