/**
 * The JavaScript error plumbing every handler shares: an error object with a
 * `name`, a `message` and an optional `statusCode` property, the string that
 * `${error}` produces for it, and the `catch` blocks that re-throw a new
 * `Error` carrying that string.  Also the three ways a handler can end.
 */
module JsErrors {
  import opened Wrappers

  /** A thrown value: `Object.assign(new <name>(message), { statusCode })`. */
  datatype Exn = Exn(name: string, message: string, statusCode: Option<int>)

  /** How a handler ends: a JSON reply it writes itself, an error reply it
      writes itself (`res.status(s).json({ message, error })`), or an error
      thrown on to the error middleware. */
  datatype Outcome<+T> =
    | Ok(status: int, value: T)
    | Refuse(status: int, message: string, detail: Option<string>)
    | Thrown(error: Exn)

  /** JavaScript truthiness of a possibly missing number: `undefined` and 0 are falsy. */
  predicate Truthy(n: Option<int>) {
    n.Some? && n.value != 0
  }

  /** `throw Object.assign(new Error(message), { statusCode: status })`. */
  function Raise(message: string, status: int): (e: Exn)
    ensures e.name == "Error" && e.message == message && e.statusCode == Some(status)
  {
    Exn("Error", message, Some(status))
  }

  /** A `TypeError` or `ReferenceError` raised by the runtime: it has no status code. */
  function RuntimeError(name: string, message: string): (e: Exn)
    ensures !Truthy(e.statusCode)
  {
    Exn(name, message, None)
  }

  /** `${error}` for an error object, i.e. `Error.prototype.toString`:
      the name alone when the message is empty, the message alone when the
      name is empty, otherwise `name + ": " + message`. */
  function ToText(e: Exn): (s: string)
    ensures e.message == "" ==> s == e.name
    ensures e.message != "" && e.name == "" ==> s == e.message
    ensures e.message != "" && e.name != "" ==>
      |s| == |e.name| + 2 + |e.message| && s[..|e.name|] == e.name && s[|e.name|..] == ": " + e.message
  {
    if e.message == "" then e.name
    else if e.name == "" then e.message
    else e.name + ": " + e.message
  }

  /** The `catch (error) { throw Object.assign(new Error(`${error}`), { statusCode: … }) }`
      block of the controllers.  `orServerError` selects the variant that writes
      `error.statusCode || 500`; the other copies `error.statusCode` as it is. */
  function Rewrap(e: Exn, orServerError: bool): (r: Exn)
    ensures r.name == "Error" && r.message == ToText(e)
    ensures Truthy(e.statusCode) ==> r.statusCode == e.statusCode
    ensures !orServerError ==> r.statusCode == e.statusCode
    ensures orServerError && !Truthy(e.statusCode) ==> r.statusCode == Some(500)
  {
    Exn("Error", ToText(e), if orServerError && !Truthy(e.statusCode) then Some(500) else e.statusCode)
  }
}
