/** `isVerified`: the verification guard that RETURNS its rejection. */
module IsVerified {
  import opened Wrappers
  import opened Guard
  import opened GuardContext

  /** A flag that is literally `false` returns 'Not verified' without calling `next`; a payload
      without a user throws 'Not authenticated'; no payload, a true flag or an absent flag
      proceeds. */
  function IsVerified(payload: Option<ClaimPayload>): (o: GuardOutcome)
    ensures o == Next || o == Returned(NotVerified) || o == Thrown(Error(NotAuthenticated))
    ensures o == Returned(NotVerified) <==>
      payload.Some? && payload.value.user.Some? && payload.value.user.value.isVerified == Some(false)
    ensures o == Thrown(Error(NotAuthenticated)) <==> payload.Some? && payload.value.user.None?
  {
    match FlagIsFalse(payload)
    case None => Thrown(Error(NotAuthenticated))
    case Some(isFalse) => if isFalse then Returned(NotVerified) else Next
  }
}
