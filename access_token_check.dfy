/** `accessTokenCheck`: the bearer-header guard that trusts the decoded claim without a lookup. */
module AccessTokenCheck {
  import opened Wrappers
  import opened Entities
  import opened Bearer
  import opened Guard
  import opened GuardContext

  /** A missing or empty header RETURNS an Error without calling `next`; a token that does not
      verify THROWS; otherwise `payload.user` is the decoded claim itself and `next` is called. */
  method AccessTokenCheck(ctx: Context, verify: string -> Option<Claim>) returns (o: GuardOutcome)
    modifies ctx`payload
    ensures !Truthy(ctx.authorization) ==>
      o == Returned(NotAuthenticated) && ctx.payload == old(ctx.payload)
    ensures Truthy(ctx.authorization) && DecodeBearer(ctx.authorization.value, verify).None? ==>
      o == Thrown(Error(NotAuthenticated)) && ctx.payload == old(ctx.payload)
    ensures Truthy(ctx.authorization) && DecodeBearer(ctx.authorization.value, verify).Some? ==>
      o == Next && ctx.payload == Some(ClaimPayload(DecodeBearer(ctx.authorization.value, verify)))
  {
    if !Truthy(ctx.authorization) {
      return Returned(NotAuthenticated);
    }
    var token := BearerToken(ctx.authorization.value);
    if token.None? {
      return Thrown(Error(NotAuthenticated));
    }
    var claim := verify(token.value);
    if claim.None? {
      return Thrown(Error(NotAuthenticated));
    }
    ctx.payload := Some(ClaimPayload(Some(claim.value)));
    o := Next;
  }
}
