/** The authentication resolver: sign-up, resending and checking the verification token,
    sign-in, forgotten and reset passwords, and the `user` query, over the user, author,
    verify-token and forgot-password-token tables and an outbox of sent mails. */
module AuthResolver {
  import opened Wrappers
  import opened Entities
  import opened Repository
  import opened TokenWindow
  import AuthMiddleware
  import Guard

  const EmailTaken: string := "Email is taken"
  const VerifyTokenResent: string := "Verify token resent!"
  const AccountVerified: string := "Account is verified"
  const TokenExpired: string := "Token has expired"
  const InvalidToken: string := "Invalid token"
  const IncorrectCredentials: string := "Incorrect credencials"
  const EmailSentIfExists: string := "An email has been sent if account exists"
  const PasswordReset: string := "Password has been reset"

  /** What a mutation hands back: `{accessToken}`, `{message}`, or an `Error` it returns. */
  datatype Response =
    | WithAccessToken(accessToken: string)
    | WithMessage(message: string)
    | ReturnedError(message: string)

  /** How the user table may evolve: no row is deleted or moved, ids, emails and author links
      never change, and a verified user never becomes unverified. */
  ghost predicate Evolves(before: seq<User>, after: seq<User>)
  {
    && |before| <= |after|
    && forall i :: 0 <= i < |before| ==>
         && after[i].id == before[i].id
         && after[i].email == before[i].email
         && after[i].authorId == before[i].authorId
         && (before[i].isVerified ==> after[i].isVerified)
  }

  /** Appending a row is one way the user table evolves. */
  lemma {:induction false} AppendEvolves(users: seq<User>, user: User)
    ensures Evolves(users, users + [user])
  {
  }

  /** Emails, user ids and author links are unique among users, and every generated key is
      below the next one to be handed out. */
  ghost predicate TablesValid(users: seq<User>, authors: seq<Author>, forgotTokens: seq<ForgotPasswordToken>,
                              nextUserId: nat, nextAuthorId: nat, nextForgotTokenId: nat)
  {
    && (forall i, j :: 0 <= i < j < |users| ==>
          users[i].email != users[j].email && users[i].id != users[j].id && users[i].authorId != users[j].authorId)
    && (forall i :: 0 <= i < |users| ==> users[i].id < nextUserId && users[i].authorId < nextAuthorId)
    && (forall i :: 0 <= i < |authors| ==> authors[i].id < nextAuthorId)
    && (forall i :: 0 <= i < |forgotTokens| ==> forgotTokens[i].id < nextForgotTokenId)
  }

  /** Sign-up keeps the invariant: the new user takes the next ids and an email no user has. */
  lemma {:induction false} SignUpKeepsValid(users: seq<User>, authors: seq<Author>, forgotTokens: seq<ForgotPasswordToken>,
                         nextUserId: nat, nextAuthorId: nat, nextForgotTokenId: nat, user: User, name: string)
    requires TablesValid(users, authors, forgotTokens, nextUserId, nextAuthorId, nextForgotTokenId)
    requires user.id == nextUserId && user.authorId == nextAuthorId
    requires forall i :: 0 <= i < |users| ==> users[i].email != user.email
    ensures TablesValid(users + [user], authors + [Author(nextAuthorId, name)], forgotTokens,
                        nextUserId + 1, nextAuthorId + 1, nextForgotTokenId)
  {
  }

  /** Updating fields other than id, email and author link keeps the invariant. */
  lemma {:induction false} UpdateKeepsValid(users: seq<User>, after: seq<User>, authors: seq<Author>, forgotTokens: seq<ForgotPasswordToken>,
                         nextUserId: nat, nextAuthorId: nat, nextForgotTokenId: nat)
    requires TablesValid(users, authors, forgotTokens, nextUserId, nextAuthorId, nextForgotTokenId)
    requires |after| == |users|
    requires forall i :: 0 <= i < |users| ==> SameKeys(users[i], after[i])
    ensures TablesValid(after, authors, forgotTokens, nextUserId, nextAuthorId, nextForgotTokenId)
  {
  }

  class Resolver {
    var users: seq<User>
    var authors: seq<Author>
    var verifyTokens: seq<VerifyToken>
    var forgotTokens: seq<ForgotPasswordToken>
    var outbox: seq<Mail>
    /** The next values of the tables' generated primary keys. */
    var nextUserId: nat
    var nextAuthorId: nat
    var nextForgotTokenId: nat
    /** The password hash; a password matches a stored hash when it hashes to it. */
    const hash: string -> string
    /** Signs an access token for a user id. */
    const issue: nat -> string

    /** The table invariant holds of the current tables. */
    ghost predicate Valid()
      reads this
    {
      TablesValid(users, authors, forgotTokens, nextUserId, nextAuthorId, nextForgotTokenId)
    }

    constructor (hash: string -> string, issue: nat -> string)
      ensures Valid()
      ensures this.hash == hash && this.issue == issue
      ensures users == [] && authors == [] && verifyTokens == [] && forgotTokens == [] && outbox == []
    {
      this.hash := hash;
      this.issue := issue;
      users, authors, verifyTokens, forgotTokens, outbox := [], [], [], [], [];
      nextUserId, nextAuthorId, nextForgotTokenId := 1, 1, 1;
    }

    /** `signIn`: an access token for the user with that email when the password hashes to the
        stored hash. An unknown email and a wrong password give the very same error. */
    function SignIn(email: string, password: string): (r: Response)
      reads this
      ensures r.WithAccessToken? || r == ReturnedError(IncorrectCredentials)
      ensures r.WithAccessToken? <==>
        UserByEmail(users, email).Some? && users[UserByEmail(users, email).value].password == hash(password)
      ensures r.WithAccessToken? ==> r.accessToken == issue(users[UserByEmail(users, email).value].id)
    {
      match UserByEmail(users, email)
      case None => ReturnedError(IncorrectCredentials)
      case Some(i) =>
        if hash(password) == users[i].password then WithAccessToken(issue(users[i].id))
        else ReturnedError(IncorrectCredentials)
    }

    /** `signUp`: with a taken email, returns 'Email is taken' and changes nothing. Otherwise
        adds one author, one unverified user holding the password's hash, and one verify token
        for the email, mails that address once, and returns an access token for the new user,
        with which signing in with the same credentials now succeeds. */
    method SignUp(name: string, email: string, password: string, freshToken: string, now: int) returns (r: Response)
      requires Valid()
      modifies this`users, this`authors, this`verifyTokens, this`outbox, this`nextUserId, this`nextAuthorId
      ensures Valid() && Evolves(old(users), users)
      ensures UserByEmail(old(users), email).Some? ==>
        && r == ReturnedError(EmailTaken)
        && users == old(users) && authors == old(authors) && verifyTokens == old(verifyTokens)
        && forgotTokens == old(forgotTokens) && outbox == old(outbox)
        && nextUserId == old(nextUserId) && nextAuthorId == old(nextAuthorId)
        && nextForgotTokenId == old(nextForgotTokenId)
      ensures UserByEmail(old(users), email).None? ==>
        && authors == old(authors) + [Author(old(nextAuthorId), name)]
        && users == old(users) + [User(old(nextUserId), email, hash(password), old(nextAuthorId), false, now, now)]
        && verifyTokens == old(verifyTokens) + [VerifyToken(email, freshToken, now)]
        && outbox == old(outbox) + [Mail(email, VerifyMail)]
        && forgotTokens == old(forgotTokens)
        && nextUserId == old(nextUserId) + 1 && nextAuthorId == old(nextAuthorId) + 1
        && nextForgotTokenId == old(nextForgotTokenId)
        && r == WithAccessToken(issue(old(nextUserId)))
        && SignIn(email, password) == r
    {
      var existing := UserByEmail(users, email);
      if existing.Some? {
        return ReturnedError(EmailTaken);
      }
      var author := Author(nextAuthorId, name);
      authors := authors + [author];
      nextAuthorId := nextAuthorId + 1;
      var user := User(nextUserId, email, hash(password), author.id, false, now, now);
      users := users + [user];
      nextUserId := nextUserId + 1;
      verifyTokens := verifyTokens + [VerifyToken(email, freshToken, now)];
      outbox := outbox + [Mail(user.email, VerifyMail)];
      r := WithAccessToken(issue(user.id));
      assert Valid() by {
        SignUpKeepsValid(old(users), old(authors), forgotTokens, old(nextUserId), old(nextAuthorId), nextForgotTokenId, user, name);
      }
      assert Evolves(old(users), users) by {
        AppendEvolves(old(users), user);
      }
      assert SignIn(email, password) == r by {
        UserByEmailAppend(old(users), user);
      }
    }

    /** `resendVerifyEmail` for the user `Auth` attached: adds one more verify token for that
        user's email (earlier ones stay valid) and mails it, whether or not the user is already
        verified. */
    method ResendVerifyEmail(user: User, freshToken: string, now: int) returns (r: Response)
      requires Valid()
      modifies this`verifyTokens, this`outbox
      ensures Valid()
      ensures verifyTokens == old(verifyTokens) + [VerifyToken(user.email, freshToken, now)]
      ensures outbox == old(outbox) + [Mail(user.email, ResendMail)]
      ensures r == WithMessage(VerifyTokenResent)
      ensures VerifyTokenFor(verifyTokens, freshToken, user.email).Some?
    {
      verifyTokens := verifyTokens + [VerifyToken(user.email, freshToken, now)];
      outbox := outbox + [Mail(user.email, ResendMail)];
      r := WithMessage(VerifyTokenResent);
      assert verifyTokens[|verifyTokens| - 1] == VerifyToken(user.email, freshToken, now);
    }

    /** `verifyEmail`: with no user, or no token row matching both the token and the user's
        email, returns 'Invalid token'; with a matching row outside the window, 'Token has
        expired'; both change nothing. Otherwise removes EVERY verify token for that email,
        keeps all others, marks that user verified and returns 'Account is verified'. */
    method VerifyEmail(user: Option<User>, token: string, now: int) returns (r: Response)
      requires Valid()
      modifies this`users, this`verifyTokens
      ensures Valid() && Evolves(old(users), users)
      ensures r != WithMessage(AccountVerified) ==> users == old(users) && verifyTokens == old(verifyTokens)
      ensures user.None? ==> r == ReturnedError(InvalidToken)
      ensures user.Some? ==>
        var found := VerifyTokenFor(old(verifyTokens), token, user.value.email);
        && (found.None? ==> r == ReturnedError(InvalidToken))
        && (found.Some? && !Accepts(old(verifyTokens)[found.value].createdAt, now) ==> r == ReturnedError(TokenExpired))
        && (found.Some? && Accepts(old(verifyTokens)[found.value].createdAt, now) ==>
              && r == WithMessage(AccountVerified)
              && verifyTokens == TokensNotFor(old(verifyTokens), user.value.email)
              && users == MarkVerified(old(users), user.value.id, now))
      ensures r == WithMessage(AccountVerified) ==>
        && user.Some?
        && (forall t :: t in verifyTokens ==> t.email != user.value.email)
        && (forall t :: t in old(verifyTokens) && t.email != user.value.email ==> t in verifyTokens)
        && (forall i :: 0 <= i < |users| && users[i].id == user.value.id ==> users[i].isVerified)
        && (forall i :: 0 <= i < |users| && users[i].id != user.value.id ==> users[i] == old(users)[i])
    {
      if user.None? {
        return ReturnedError(InvalidToken);
      }
      var u := user.value;
      var found := VerifyTokenFor(verifyTokens, token, u.email);
      if found.None? {
        return ReturnedError(InvalidToken);
      }
      if !Accepts(verifyTokens[found.value].createdAt, now) {
        return ReturnedError(TokenExpired);
      }
      TokensNotForMembers(verifyTokens, u.email);
      verifyTokens := RemoveVerifyTokens(verifyTokens, u.email);
      ghost var before := users;
      users := MarkVerified(users, u.id, now);
      r := WithMessage(AccountVerified);
      assert Valid() by {
        UpdateKeepsValid(before, users, authors, forgotTokens, nextUserId, nextAuthorId, nextForgotTokenId);
      }
    }

    /** `forgotPassword`: always returns the same message. Only when the email belongs to a
        user does it add a forgot-password token for it and mail that address. */
    method ForgotPassword(email: string, freshToken: string, now: int) returns (r: Response)
      requires Valid()
      modifies this`forgotTokens, this`outbox, this`nextForgotTokenId
      ensures Valid()
      ensures r == WithMessage(EmailSentIfExists)
      ensures UserByEmail(users, email).None? ==>
        forgotTokens == old(forgotTokens) && outbox == old(outbox) && nextForgotTokenId == old(nextForgotTokenId)
      ensures UserByEmail(users, email).Some? ==>
        && forgotTokens == old(forgotTokens) + [ForgotPasswordToken(old(nextForgotTokenId), email, freshToken, now, now)]
        && outbox == old(outbox) + [Mail(email, ResetMail)]
        && nextForgotTokenId == old(nextForgotTokenId) + 1
        && ForgotTokenFor(forgotTokens, freshToken).Some?
    {
      var found := UserByEmail(users, email);
      if found.Some? {
        var user := users[found.value];
        forgotTokens := forgotTokens + [ForgotPasswordToken(nextForgotTokenId, user.email, freshToken, now, now)];
        nextForgotTokenId := nextForgotTokenId + 1;
        outbox := outbox + [Mail(user.email, ResetMail)];
        assert forgotTokens[|forgotTokens| - 1].token == freshToken;
      }
      r := WithMessage(EmailSentIfExists);
    }

    /** `resetPassword`: with no token row, or no user for the row's email, returns 'Invalid
        token'; outside the window, 'Token has expired'; both change nothing. Otherwise only that
        user's password changes, to the new password's hash, so signing in with it succeeds; the
        token row stays, and the same token passes both lookups again. */
    method ResetPassword(token: string, password: string, now: int) returns (r: Response)
      requires Valid()
      modifies this`users
      ensures Valid() && Evolves(old(users), users)
      ensures forgotTokens == old(forgotTokens)
      ensures r != WithMessage(PasswordReset) ==> users == old(users)
      ensures ForgotTokenFor(forgotTokens, token).None? ==> r == ReturnedError(InvalidToken)
      ensures ForgotTokenFor(forgotTokens, token).Some? ==>
        var row := forgotTokens[ForgotTokenFor(forgotTokens, token).value];
        var found := UserByEmail(old(users), row.email);
        && (found.None? ==> r == ReturnedError(InvalidToken))
        && (found.Some? && !Accepts(row.createdAt, now) ==> r == ReturnedError(TokenExpired))
        && (found.Some? && Accepts(row.createdAt, now) ==>
              && r == WithMessage(PasswordReset)
              && users == SetPassword(old(users), old(users)[found.value].id, hash(password), now)
              && (forall i :: 0 <= i < |users| && i != found.value ==> users[i] == old(users)[i])
              && SignIn(row.email, password) == WithAccessToken(issue(old(users)[found.value].id))
              && UserByEmail(users, row.email).Some?)
    {
      var tokenRow := ForgotTokenFor(forgotTokens, token);
      if tokenRow.None? {
        return ReturnedError(InvalidToken);
      }
      var row := forgotTokens[tokenRow.value];
      var found := UserByEmail(users, row.email);
      if found.None? {
        return ReturnedError(InvalidToken);
      }
      if !Accepts(row.createdAt, now) {
        return ReturnedError(TokenExpired);
      }
      var user := users[found.value];
      ghost var before := users;
      users := SetPassword(users, user.id, hash(password), now);
      r := WithMessage(PasswordReset);
      assert Valid() by {
        UpdateKeepsValid(before, users, authors, forgotTokens, nextUserId, nextAuthorId, nextForgotTokenId);
      }
      assert UserByEmail(users, row.email) == found by {
        UserByEmailStable(before, users, row.email);
      }
    }

    /** Signing up and then verifying with the mailed token at a later or equal time `at`: the
        window accepts the token only at the instant of sign-up, and then the new account is
        verified and signing in with the same credentials still succeeds; a millisecond later
        the token is reported as expired. */
    method SignUpThenVerify(name: string, email: string, password: string, freshToken: string, now: int, at: int)
      returns (signedUp: Response, verified: Response)
      requires Valid()
      requires UserByEmail(users, email).None?
      requires forall i :: 0 <= i < |verifyTokens| ==> verifyTokens[i].token != freshToken
      requires now <= at
      modifies this`users, this`authors, this`verifyTokens, this`outbox, this`nextUserId, this`nextAuthorId
      ensures Valid()
      ensures signedUp.WithAccessToken? && SignIn(email, password) == signedUp
      ensures verified == if at == now then WithMessage(AccountVerified) else ReturnedError(TokenExpired)
      ensures UserByEmail(users, email).Some? && (users[UserByEmail(users, email).value].isVerified <==> at == now)
    {
      ghost var tokens := verifyTokens;
      signedUp := SignUp(name, email, password, freshToken, now);
      var k := |users| - 1;
      var user := users[k];
      assert VerifyTokenFor(verifyTokens, freshToken, email) == Some(|tokens|) by {
        VerifyTokenForAppend(tokens, VerifyToken(email, freshToken, now));
      }
      OnlyAcceptedAtCreation(now, at);
      ghost var before := users;
      verified := VerifyEmail(Some(user), freshToken, at);
      assert UserByEmail(users, email) == Some(k) by {
        UserByEmailStable(before, users, email);
      }
    }

    /** Asking for a reset link and then resetting with the mailed token at a later or equal
        time `at`: at the instant of the request the password is reset and signing in with the
        new password succeeds; a millisecond later the token is reported as expired. */
    method ForgotThenReset(email: string, freshToken: string, password: string, now: int, at: int)
      returns (forgot: Response, reset: Response)
      requires Valid()
      requires UserByEmail(users, email).Some?
      requires forall i :: 0 <= i < |forgotTokens| ==> forgotTokens[i].token != freshToken
      requires now <= at
      modifies this`users, this`forgotTokens, this`outbox, this`nextForgotTokenId
      ensures Valid()
      ensures forgot == WithMessage(EmailSentIfExists)
      ensures reset == if at == now then WithMessage(PasswordReset) else ReturnedError(TokenExpired)
      ensures at == now ==> SignIn(email, password).WithAccessToken?
    {
      ghost var tokens := forgotTokens;
      forgot := ForgotPassword(email, freshToken, now);
      assert ForgotTokenFor(forgotTokens, freshToken) == Some(|tokens|) by {
        ForgotTokenForAppend(tokens, forgotTokens[|tokens|]);
      }
      OnlyAcceptedAtCreation(now, at);
      reset := ResetPassword(freshToken, password, at);
    }

    /** The `user` query behind `Auth` and then `Verified`: the authenticated user's record when
        that record is verified; any other request fails with 'Not authenticated'. */
    function UserQuery(authorization: Option<string>, verify: string -> Option<Claim>): (r: Result<User, Guard.Fault>)
      reads this
      ensures r.Failure? ==> r.error == Guard.Error(Guard.NotAuthenticated)
      ensures r.Success? <==>
        var authenticated := AuthMiddleware.Authenticate(authorization, users, verify);
        authenticated.Some? && authenticated.value.isVerified
      ensures r.Success? ==> r.value in users && r.value.isVerified
      ensures r.Success? ==> r.value == AuthMiddleware.Authenticate(authorization, users, verify).value
    {
      match AuthMiddleware.Authenticate(authorization, users, verify)
      case None => Failure(Guard.Error(Guard.NotAuthenticated))
      case Some(user) =>
        var payload := Some(AuthMiddleware.RecordPayload(Some(user)));
        if AuthMiddleware.Verified(payload) == Guard.Next then Success(payload.value.user.value)
        else Failure(Guard.Error(Guard.NotAuthenticated))
    }

    /** A request carrying `Bearer <token>`, where the token verifies to the id of a stored user,
        gets that user's own record from the `user` query when the record is verified, and
        'Not authenticated' when it is not. */
    lemma {:induction false} UserQueryOfBearerHolder(token: string, verify: string -> Option<Claim>, u: User)
      requires Valid()
      requires u in users && ' ' !in token
      requires verify(token).Some? && verify(token).value.userId == u.id
      ensures UserQuery(Some("Bearer " + token), verify) ==
        if u.isVerified then Success(u) else Failure(Guard.Error(Guard.NotAuthenticated))
    {
      AuthMiddleware.AuthenticatesBearerHolder(users, verify, token, u);
    }
  }
}
