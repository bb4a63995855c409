/** Small result types shared by every route of the model. */
module Wrappers {

  /** An optional value: JavaScript's `undefined` / `null` is `None`. */
  datatype Option<+T> = None | Some(value: T) {
    function GetOr(default: T): T {
      match this
      case Some(v) => v
      case None => default
    }
  }

  /**
   * What a route handler answers: an HTTP status with a body on success,
   * or an HTTP status with the `error` message of the JSON body on failure.
   */
  datatype Response<+T> = Ok(status: nat, body: T) | Error(status: nat, message: string) {
    predicate IsOk() { Ok? }
  }

  /** JavaScript truthiness of an optional string field of a request body. */
  predicate Truthy(s: Option<string>) {
    s.Some? && s.value != ""
  }

  /**
   * An API key read as `process.env.PRIMARY || process.env.PUBLIC || ''`:
   * the first of the two variables that is set and not empty.
   */
  function EnvKey(primary: Option<string>, public: Option<string>): (key: string)
    ensures Truthy(primary) ==> key == primary.value
    ensures !Truthy(primary) && Truthy(public) ==> key == public.value
    ensures key == "" <==> !Truthy(primary) && !Truthy(public)
  {
    if Truthy(primary) then primary.value else if Truthy(public) then public.value else ""
  }
}
