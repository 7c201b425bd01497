/** The expiry check shared by email verification and password reset. Times are instants in
    milliseconds, the resolution of the date library the resolver compares with. */
module TokenWindow {

  /** Sixty minutes. */
  const WindowMillis: int := 60 * 60 * 1000

  /** The check as the resolver writes it: the token's creation time must be no earlier than
      now and no later than sixty minutes from now. Read the other way round, `now` must lie in
      the sixty minutes BEFORE the token's creation, not after it. */
  predicate Accepts(createdAt: int, now: int): (accepted: bool)
    ensures accepted <==> createdAt - WindowMillis <= now <= createdAt
  {
    now <= createdAt <= now + WindowMillis
  }

  /** Tokens are stamped with the time they are inserted, and time does not run backwards, so
      a token is accepted only at the very instant it was created: one created a millisecond
      ago or earlier is already reported as expired. */
  lemma OnlyAcceptedAtCreation(createdAt: int, now: int)
    requires createdAt <= now
    ensures Accepts(createdAt, now) <==> createdAt == now
  {
  }
}
