/** The `Auth` and `Verified` middleware the resolver uses: `Auth` turns a bearer header into the
    stored user record and puts it on the request context; `Verified` turns away users whose
    record is not verified. */
module AuthMiddleware {
  import opened Wrappers
  import opened Entities
  import opened Repository
  import opened Bearer
  import opened Guard

  /** The context's payload: `{user}` with the stored user record (absent if never set). */
  datatype RecordPayload = RecordPayload(user: Option<User>)

  /** The per-request context: the `authorization` header and the payload middleware attach. */
  class Context {
    var authorization: Option<string>
    var payload: Option<RecordPayload>

    constructor (authorization: Option<string>)
      ensures this.authorization == authorization && payload == None
    {
      this.authorization := authorization;
      payload := None;
    }
  }

  /** The user `Auth` authenticates: the header must be present and non-empty, its second field
      must verify to a claim, and a user with the claimed id must exist. None means `Auth`
      throws 'Not authenticated'. */
  function Authenticate(authorization: Option<string>, users: seq<User>, verify: string -> Option<Claim>): (r: Option<User>)
    ensures r.Some? ==> Truthy(authorization) && DecodeBearer(authorization.value, verify).Some?
    ensures r.Some? ==> r.value in users && r.value.id == DecodeBearer(authorization.value, verify).value.userId
    ensures r.None? <==> !Truthy(authorization) || DecodeBearer(authorization.value, verify).None?
                         || (forall u :: u in users ==> u.id != DecodeBearer(authorization.value, verify).value.userId)
  {
    if !Truthy(authorization) then None
    else
      match DecodeBearer(authorization.value, verify)
      case None => None
      case Some(claim) =>
        match UserById(users, claim.userId)
        case None => None
        case Some(i) => Some(users[i])
  }

  /** `Auth`: throws 'Not authenticated' and leaves the payload alone when the header is missing
      or empty, when its token does not verify, or when no user has the claimed id; otherwise
      sets `payload.user` to the looked-up user and calls `next`. */
  method Auth(ctx: Context, users: seq<User>, verify: string -> Option<Claim>) returns (o: GuardOutcome)
    modifies ctx`payload
    ensures Authenticate(ctx.authorization, users, verify).None? ==>
      o == Thrown(Error(NotAuthenticated)) && ctx.payload == old(ctx.payload)
    ensures Authenticate(ctx.authorization, users, verify).Some? ==>
      o == Next && ctx.payload == Some(RecordPayload(Authenticate(ctx.authorization, users, verify)))
  {
    if !Truthy(ctx.authorization) {
      return Thrown(Error(NotAuthenticated));
    }
    var token := BearerToken(ctx.authorization.value);
    if token.None? {
      // verify(undefined) throws inside the try block
      return Thrown(Error(NotAuthenticated));
    }
    var claim := verify(token.value);
    if claim.None? {
      return Thrown(Error(NotAuthenticated));
    }
    var found := UserById(users, claim.value.userId);
    if found.None? {
      return Thrown(Error(NotAuthenticated));
    }
    ctx.payload := Some(RecordPayload(Some(users[found.value])));
    o := Next;
  }

  /** A request carrying `Bearer <token>` whose token verifies to the id of a stored user is
      authenticated as that user (ids are unique in the user table). */
  lemma {:induction false} AuthenticatesBearerHolder(users: seq<User>, verify: string -> Option<Claim>, token: string, u: User)
    requires forall i, j :: 0 <= i < j < |users| ==> users[i].id != users[j].id
    requires u in users && ' ' !in token
    requires verify(token).Some? && verify(token).value.userId == u.id
    ensures Authenticate(Some("Bearer " + token), users, verify) == Some(u)
  {
    BearerTokenOf("Bearer", token);
    assert "Bearer" + " " + token == "Bearer " + token;
    var i :| 0 <= i < |users| && users[i] == u;
    var k := UserById(users, u.id);
    assert k.Some? && users[k.value].id == u.id;
  }

  /** `Verified` (in the same file as `Auth`): `payload?.user.isVerified === false` throws
      'Not verified', which its own catch turns into 'Not authenticated'; reading the flag of a
      missing user throws too. No payload at all, or a verified user, proceeds. */
  function Verified(payload: Option<RecordPayload>): (o: GuardOutcome)
    ensures o == Next || o == Thrown(Error(NotAuthenticated))
    ensures o == Next <==> payload.None? || (payload.value.user.Some? && payload.value.user.value.isVerified)
  {
    match payload
    case None => Next
    case Some(p) =>
      match p.user
      case None => Thrown(Error(NotAuthenticated))
      case Some(u) => if !u.isVerified then Thrown(Error(NotAuthenticated)) else Next
  }
}
