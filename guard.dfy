/** What a middleware can do with a request, and the fixed messages it uses. */
module Guard {
  import opened Wrappers

  const NotAuthenticated: string := "Not authenticated"
  const NotVerified: string := "Not verified"
  const AlreadyLoggedIn: string := "Already logged in"

  /** A thrown value: an `Error` with a message, or the `TypeError` of reading a property of
      `undefined`. */
  datatype Fault = Error(message: string) | TypeError

  /** A middleware either calls `next` once and hands back its result, returns an `Error` value
      without calling `next`, or throws. */
  datatype GuardOutcome = Next | Returned(message: string) | Thrown(fault: Fault)

  /** JavaScript truthiness of an optional string: present and non-empty. */
  predicate Truthy(v: Option<string>)
  {
    v.Some? && v.value != ""
  }
}
