/** `refreshTokenCheck`: the guard on the `session` cookie. */
module RefreshTokenCheck {
  import opened Wrappers
  import opened Entities
  import opened Guard
  import opened GuardContext

  /** `context.cookies.session`: None when the entry is missing. */
  function SessionCookie(cookies: map<string, string>): (session: Option<string>)
    ensures session.Some? <==> "session" in cookies
    ensures session.Some? ==> session.value == cookies["session"]
  {
    if "session" in cookies then Some(cookies["session"]) else None
  }

  /** Reading `session` of an undefined `cookies` throws a TypeError outside the try block; a
      missing or empty cookie throws 'Not authenticated'; the WHOLE cookie value goes to
      `verify` (nothing is split off it) and a failure throws 'Not authenticated'; otherwise
      `payload.user` is the decoded claim and `next` is called. No revocation list is consulted. */
  method RefreshTokenCheck(ctx: Context, verify: string -> Option<Claim>) returns (o: GuardOutcome)
    modifies ctx`payload
    ensures ctx.cookies.None? ==> o == Thrown(TypeError) && ctx.payload == old(ctx.payload)
    ensures ctx.cookies.Some? && !Truthy(SessionCookie(ctx.cookies.value)) ==>
      o == Thrown(Error(NotAuthenticated)) && ctx.payload == old(ctx.payload)
    ensures ctx.cookies.Some? && Truthy(SessionCookie(ctx.cookies.value)) ==>
      var claim := verify(ctx.cookies.value["session"]);
      && (claim.None? ==> o == Thrown(Error(NotAuthenticated)) && ctx.payload == old(ctx.payload))
      && (claim.Some? ==> o == Next && ctx.payload == Some(ClaimPayload(claim)))
  {
    if ctx.cookies.None? {
      return Thrown(TypeError);
    }
    var refreshToken := SessionCookie(ctx.cookies.value);
    if !Truthy(refreshToken) {
      return Thrown(Error(NotAuthenticated));
    }
    var claim := verify(refreshToken.value);
    if claim.None? {
      return Thrown(Error(NotAuthenticated));
    }
    ctx.payload := Some(ClaimPayload(Some(claim.value)));
    o := Next;
  }
}
