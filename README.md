# Authentication core of apollo-graphql-typeorm, in Dafny

This project models the authentication part of a small GraphQL blog API. The API stores users,
author profiles, email-verification tokens and forgot-password tokens. The model covers:

- the authentication resolver: `signUp`, `resendVerifyEmail`, `verifyEmail`, `signIn`,
  `forgotPassword`, `resetPassword` and the `user` query;
- the middleware guarding it: `Auth` and `Verified` in `Auth.ts`, `accessTokenCheck`,
  `refreshTokenCheck`, `isVerified`, the standalone `Verified`, and `notSignedIn`;
- the cookie lookup `getCookie`, with the request context's cookie accessors built on it.

The resolver is a class, `AuthResolver.Resolver`. Its fields are the tables, held as
sequences, plus an outbox of sent mails and the next generated primary keys. Its mutations are
methods that reassign those fields. Each method's postcondition states the response and the
whole new state for every branch of the source. The class invariant `Valid` says that emails,
user ids and author links are unique and that every key is below the next one handed out.
Every mutation keeps it. The ghost predicate `Evolves` says that no user row is lost, that ids,
emails and author links never change, and that a verified user stays verified.

The guards are functions or methods returning a `GuardOutcome`. Either the guard calls `next`,
or it returns an `Error` value without calling `next`, or it throws. This keeps the difference
between the guards that return their rejection (`accessTokenCheck` with no header,
`isVerified`, `notSignedIn`) and those that throw it.

External capabilities are parameters:
- the password hash (`hash`) and the access-token signer (`issue`) are constant function fields
  of the resolver;
- token verification is a function `string -> Option<Claim>`;
- the random URL token and the current time (in milliseconds) are method arguments;
- mail is recorded as a recipient and a kind.

Things the code does that the model keeps as written:

- **Expiry check.** `verifyEmail` and `resetPassword` accept a token only if it was created no
  earlier than now and no later than sixty minutes from now. A token is stamped when it is
  inserted, so it is accepted only at the very instant it was created.
  `TokenWindow.OnlyAcceptedAtCreation` states this. `SignUpThenVerify` and `ForgotThenReset`
  show it end to end: a millisecond later, the token is reported as expired. A sixty-minute
  window after creation would read `createdAt <= now <= createdAt + 60 min`; the comparison in
  `AuthResolver.ts` runs the other way, requiring `now` to lie in the sixty minutes before
  creation (`TokenWindow.Accepts` states it in that form).
- **Context cookie accessors.** The request context's `getCookie(name)` (src/bootstrap.ts:65-67)
  passes `PREFIX + name` to `getCookie`, which prefixes it again. Its `setCookie(name)` writes
  `PREFIX + name`. So `notSignedIn` reads a key no `setCookie('session', …)` writes.
  `Cookies.ContextKeyIsDoublePrefixed` and `NotSignedIn.IgnoresSessionSetByContext` state this.
- **`refreshTokenCheck` reads `context.cookies.session`.** The server's context has no
  `cookies` property, so the model makes it optional. Its absence is a `TypeError` thrown
  before the guard's `try`.
- **The token claim carries only `userId`.** A missing `isVerified` is not `=== false`. So
  `isVerified` and the standalone `Verified` let a claim without the flag through.
- **A reset leaves its token in place.** `resetPassword` never removes the forgot-password
  token row, so the same token resets the password again while the window accepts it.
- **No already-verified check.** `verifyEmail` and `resendVerifyEmail` behave the same for a
  user who is already verified: resending adds a token and a mail, and verifying with a
  matching token removes the tokens and sets the flag again.
- **`refreshTokenCheck` only decodes.** It hands the whole cookie value to `verify` and sets the
  payload; it consults no list of revoked tokens. No resolver among these files issues or
  clears the session cookie.

## Model

| member | source | states |
|---|---|---|
| Repository.UserByEmail | src/endpoint/AuthResolver.ts:107-111 | the first user with that email is found; none is found exactly when no user has it |
| Repository.UserById | src/middleware/Auth.ts:17-19 | `findOneOrFail(userId)` finds the first user with that id; it fails exactly when none has it |
| Repository.VerifyTokenFor | src/endpoint/AuthResolver.ts:185-187 | the row found matches both the token and the email; none is found exactly when no row matches both |
| Repository.ForgotTokenFor | src/endpoint/AuthResolver.ts:265-267 | the row found has the token; none is found exactly when no row has it |
| Repository.UserByEmailAppend | src/endpoint/AuthResolver.ts:107-121 | a user appended under an unused email is the one that email then finds |
| Repository.VerifyTokenForAppend | src/endpoint/AuthResolver.ts:125-128 | a verify token appended under an unused token/email pair is the row the lookup then finds |
| Repository.ForgotTokenForAppend | src/endpoint/AuthResolver.ts:239-242 | a forgot token appended under an unused token is the row the lookup then finds |
| Repository.UserByEmailStable | src/endpoint/AuthResolver.ts:279-281 | updating fields other than email does not change which user an email finds |
| Repository.TokensNotFor | src/endpoint/AuthResolver.ts:194-201 | the surviving rows are no more than the rows there were |
| Repository.TokensNotForMembers | src/endpoint/AuthResolver.ts:194-201 | a row survives the removal exactly when it is not for that email |
| Repository.TokensNotForSnoc | src/endpoint/AuthResolver.ts:194-201 | one more row is kept exactly when it is not for that email |
| Repository.RemoveVerifyTokens | src/endpoint/AuthResolver.ts:194-202 | the loop that removes each row found for the email leaves exactly `TokensNotFor` |
| Repository.MarkVerified | src/endpoint/AuthResolver.ts:203-205 | rows with the id become verified and keep their password; keys never change; other rows are untouched; nothing becomes unverified |
| Repository.SetPassword | src/endpoint/AuthResolver.ts:279-281 | rows with the id get the new hash; keys and flags never change; other rows are untouched |
| TokenWindow.Accepts | src/endpoint/AuthResolver.ts:190-193 | the expiry test as written passes exactly when `now` lies in the sixty minutes up to the token's creation time |
| TokenWindow.OnlyAcceptedAtCreation | src/endpoint/AuthResolver.ts:190-193 | for a token created no later than now, the check passes exactly when it was created at this very instant |
| AuthResolver.AppendEvolves | src/endpoint/AuthResolver.ts:117-121 | appending a user is an allowed evolution of the user table |
| AuthResolver.SignUpKeepsValid | src/endpoint/AuthResolver.ts:107-128 | a new user with the next ids and an email nobody has keeps keys unique and below the counters |
| AuthResolver.UpdateKeepsValid | src/endpoint/AuthResolver.ts:203-205 | an update that keeps every row's keys keeps the invariant |
| AuthResolver.Resolver.SignIn | src/endpoint/AuthResolver.ts:217-228 | an access token for the user's id exactly when that email's user exists and the password hashes to the stored hash; otherwise the one 'Incorrect credencials' error, whichever check failed |
| AuthResolver.Resolver.SignUp | src/endpoint/AuthResolver.ts:103-147 | a taken email returns 'Email is taken' and changes nothing; otherwise one author, one unverified user with the hashed password, one verify token and one mail are added, the result is a token for the new id, and signing in with the same credentials now returns that token |
| AuthResolver.Resolver.ResendVerifyEmail | src/endpoint/AuthResolver.ts:149-176 | one more verify token for the user's email (earlier ones kept, verified or not), one mail, the fixed message; the new token is findable |
| AuthResolver.Resolver.VerifyEmail | src/endpoint/AuthResolver.ts:178-214 | no user or no matching row gives 'Invalid token', a row outside the window gives 'Token has expired', both changing nothing; otherwise every token for that email is gone, all others remain, that user is verified, other users are untouched |
| AuthResolver.Resolver.ForgotPassword | src/endpoint/AuthResolver.ts:230-259 | the same message whether or not the email exists; a token and a mail only when it does, and that token is then findable |
| AuthResolver.Resolver.ResetPassword | src/endpoint/AuthResolver.ts:261-289 | no token row or no user gives 'Invalid token', outside the window 'Token has expired', both changing nothing; otherwise only that user's password changes, signing in with the new password succeeds, and the token row stays |
| AuthResolver.Resolver.SignUpThenVerify | src/endpoint/AuthResolver.ts:103-214 | verifying with the mailed token succeeds exactly at the sign-up instant and is 'Token has expired' later; sign-in keeps working either way |
| AuthResolver.Resolver.ForgotThenReset | src/endpoint/AuthResolver.ts:230-289 | resetting with the mailed token succeeds exactly at the request instant, after which signing in with the new password succeeds; later it is 'Token has expired' |
| AuthResolver.Resolver.UserQuery | src/endpoint/AuthResolver.ts:291-296 | the query behind `Auth` then `Verified` succeeds exactly for an authenticated, verified user and returns exactly the record `Auth` authenticated; everything else is 'Not authenticated' |
| AuthResolver.Resolver.UserQueryOfBearerHolder | src/endpoint/AuthResolver.ts:291-296 | a bearer of a token claiming a stored user's id gets that user's record if it is verified, 'Not authenticated' if not |
| AuthMiddleware.Authenticate | src/middleware/Auth.ts:6-30 | a user exactly when the header is non-empty, its second field verifies, and a user has the claimed id; that user is stored and has that id |
| AuthMiddleware.Auth | src/middleware/Auth.ts:6-30 | on failure throws 'Not authenticated' and leaves the payload; otherwise puts the looked-up user in the payload and calls `next` |
| AuthMiddleware.AuthenticatesBearerHolder | src/middleware/Auth.ts:13-23 | `Bearer <token>` whose token verifies to a stored user's id authenticates as that user |
| AuthMiddleware.Verified | src/middleware/Auth.ts:32-43 | `next` exactly when there is no payload or the payload's user is verified; otherwise throws 'Not authenticated' (its own 'Not verified' is caught and replaced) |
| AccessTokenCheck.AccessTokenCheck | src/middleware/accessTokenCheck.ts:5-25 | no or empty header returns 'Not authenticated' without `next`; a token that does not verify throws it; otherwise the decoded claim becomes the payload and `next` is called |
| RefreshTokenCheck.SessionCookie | src/middleware/refreshTokenCheck.ts:9 | `context.cookies.session` is defined exactly when the map has a `session` entry, and is that entry |
| RefreshTokenCheck.RefreshTokenCheck | src/middleware/refreshTokenCheck.ts:5-32 | undefined `cookies` throws a TypeError; a missing or empty session cookie, or one that does not verify as a whole, throws 'Not authenticated'; otherwise the claim becomes the payload |
| GuardContext.FlagIsFalse | src/middleware/isVerified.ts:6 | `payload?.user.isVerified === false` throws exactly when the payload has no user, and is true exactly when the claim's flag is present and false |
| IsVerified.IsVerified | src/middleware/isVerified.ts:4-15 | returns 'Not verified' exactly when the claim's flag is literally false; throws 'Not authenticated' exactly when the payload has no user; otherwise `next` |
| VerifiedGuard.Verified | src/middleware/Verified.ts:4-15 | `next` exactly when there is no payload or its user's flag is not literally false; otherwise throws 'Not authenticated' |
| VerifiedGuard.SameGateDifferentRejection | src/middleware/Verified.ts:4-15 | lets through exactly what `isVerified` lets through; where that returns 'Not verified' this throws 'Not authenticated' |
| NotSignedIn.NotSignedIn | src/middleware/notSignedIn.ts:5-13 | returns 'Already logged in' exactly when the context's `getCookie('session')` finds a value; otherwise `next` |
| NotSignedIn.AnyValueRejects | src/middleware/notSignedIn.ts:5-13 | any non-empty value under the key the guard reads turns the request away, undecoded |
| NotSignedIn.IgnoresSessionSetByContext | src/bootstrap.ts:65-78 | a session cookie written by the context's `setCookie` does not change the guard's verdict |
| Cookies.GetCookie | src/utils.ts:58-60 | the entry under `PREFIX + name` when the map exists and the entry is non-empty; `undefined` exactly otherwise |
| Cookies.SetCookie | src/bootstrap.ts:68-78 | the cookie is stored under `PREFIX + name`; every other key is unchanged |
| Cookies.GetAfterSet | src/utils.ts:58-60 | `getCookie` reads back what `setCookie` wrote under the same name, unless it was empty |
| Cookies.GetAfterSetOther | src/utils.ts:58-60 | setting one name does not change what another name reads |
| Cookies.ContextGetCookie | src/bootstrap.ts:65-67 | the context's `getCookie(name)` is the non-empty entry under `PREFIX + PREFIX + name`, and `undefined` exactly otherwise |
| Cookies.ContextKeyIsDoublePrefixed | src/bootstrap.ts:65-67 | the context's `getCookie(name)` looks up `PREFIX + PREFIX + name` |
| Cookies.ContextGetMissesContextSet | src/bootstrap.ts:65-78 | the context's `getCookie` never sees what the context's `setCookie` wrote under the same name |
| Bearer.Split | src/middleware/Auth.ts:14 | `split(' ')` yields at least one field, no field holds a space, and one field exactly when there is no space |
| Bearer.SplitWord | src/middleware/Auth.ts:14 | a space-free word in front of text joins the text's first field |
| Bearer.SplitJoin | src/middleware/Auth.ts:14 | splitting space-joined, space-free fields gives the fields back |
| Bearer.JoinSplit | src/middleware/Auth.ts:14 | joining the fields of a header with spaces gives the header back |
| Bearer.BearerToken | src/middleware/Auth.ts:14 | `split(' ')[1]` is defined exactly when the header holds a space, and never holds a space itself |
| Bearer.DecodeBearer | src/middleware/Auth.ts:14-15 | a header without a space decodes to nothing; a decoded claim is what `verify` gives for the second field |
| Bearer.BearerTokenOf | src/middleware/accessTokenCheck.ts:12-13 | the token read from `<scheme> <token>` is exactly `<token>` |
| Bearer.NoSpaceNoToken | src/middleware/Auth.ts:14 | a header without a space yields no token |

## Left out

- AuthResolver.Resolver.SignIn: argon2 salts each hash and checks a password with `argon2.verify`. The model stands in a deterministic `hash` and compares with equality. Salting and timing are not modelled.
- AuthResolver.Resolver.SignUp: the JWT signer's 60-day expiry and secret are not modelled. `issue` is an opaque function of the user id. Token verification, including expiry, is an opaque `verify` parameter.
- `urlTokenFactory` draws 64 random bytes. The model takes that token as an argument. The scenario methods assume it differs from every stored token.
- The source reads the clock twice per check, with two `dayjs()` calls. The model uses one `now`.
- A token's `createdAt` is stamped by the database default of its creation-date column, while the check reads the Node process clock. The model stamps and checks with one `now`, so clock skew and a time-zone mismatch between database and server, which change which requests pass, are not modelled.
- Mail sender, subject and HTML body are left out, as are the author name in them and the mail transport. Only the recipient and the kind of mail are recorded.
- Each token row is removed concurrently under `Promise.all`. The model removes them one after another.
- Database and mailer failures (rejected promises) are not modelled, and neither is `console.log`.
- The `author` relation that `Auth` and `signUp` load with the user is not modelled.
- Concurrent sign-ups with the same email are left out. The email column is only indexed, not unique, so two racing sign-ups could both pass the check. The model runs one request at a time.
- AuthResolver.Resolver.ResendVerifyEmail: it takes the user `Auth` put in the payload. It is only reachable through `Auth`, which always sets one. The optional chaining on an absent payload is not modelled.
- When `verifyEmail` has no user, or `resetPassword` has no token row, the source still queries with an `undefined` field. The model skips that query, because either way the result is 'Invalid token'.
- `PREFIX` is derived from the application name in the environment. The model fixes it to `"app_"`.
- The Redis client, the server and schema wiring, the GraphQL field selection, and the Author and Post CRUD resolvers are not part of this model.
- The type-graphql middleware order for the `user` query is taken to be `Auth`, then `Verified`, as the decorators are listed.
