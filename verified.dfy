/** `Verified` (the standalone file): the verification guard that THROWS its rejection. */
module VerifiedGuard {
  import opened Wrappers
  import opened Guard
  import opened GuardContext
  import IsVerified

  /** A flag that is literally `false` throws 'Not verified', which the guard's own catch turns
      into 'Not authenticated'; a payload without a user throws too; no payload, a true flag or
      an absent flag proceeds. */
  function Verified(payload: Option<ClaimPayload>): (o: GuardOutcome)
    ensures o == Next || o == Thrown(Error(NotAuthenticated))
    ensures o == Next <==> payload.None? || (payload.value.user.Some? && payload.value.user.value.isVerified != Some(false))
  {
    match FlagIsFalse(payload)
    case None => Thrown(Error(NotAuthenticated))
    case Some(isFalse) => if isFalse then Thrown(Error(NotAuthenticated)) else Next
  }

  /** The two verification guards let the same requests through; where `isVerified` returns
      'Not verified', this one throws 'Not authenticated' instead. */
  lemma SameGateDifferentRejection(payload: Option<ClaimPayload>)
    ensures Verified(payload) == Next <==> IsVerified.IsVerified(payload) == Next
    ensures IsVerified.IsVerified(payload) == Returned(NotVerified) ==> Verified(payload) == Thrown(Error(NotAuthenticated))
    ensures IsVerified.IsVerified(payload).Thrown? ==> Verified(payload) == IsVerified.IsVerified(payload)
  {
  }
}
