/** The request context the token-checking guards share: the `authorization` header, the
    context's `cookies` property, and the payload whose user is the decoded token claim. (The
    request cookies behind the context's `getCookie` are the argument of `NotSignedIn`.) */
module GuardContext {
  import opened Wrappers
  import opened Entities

  /** `{user}` where the user is the decoded claim (absent if it was never set). */
  datatype ClaimPayload = ClaimPayload(user: Option<Claim>)

  class Context {
    var authorization: Option<string>
    /** `context.cookies`; the server wiring builds no such property, so it may be `undefined`. */
    var cookies: Option<map<string, string>>
    var payload: Option<ClaimPayload>

    constructor (authorization: Option<string>, cookies: Option<map<string, string>>)
      ensures this.authorization == authorization && this.cookies == cookies && payload == None
    {
      this.authorization := authorization;
      this.cookies := cookies;
      payload := None;
    }
  }

  /** Evaluates `payload?.user.isVerified === false`: None when reading the flag of a missing
      user throws, otherwise whether the flag is literally `false` (an absent flag is not). */
  function FlagIsFalse(payload: Option<ClaimPayload>): (isFalse: Option<bool>)
    ensures isFalse.None? <==> payload.Some? && payload.value.user.None?
    ensures isFalse == Some(true) <==>
      payload.Some? && payload.value.user.Some? && payload.value.user.value.isVerified == Some(false)
  {
    match payload
    case None => Some(false)
    case Some(p) =>
      match p.user
      case None => None
      case Some(claim) => Some(claim.isVerified == Some(false))
  }
}
