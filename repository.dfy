/** The table queries the resolver and the authentication middleware issue: find the first row
    matching a condition, keep the rows a removal spares, and update rows by id. */
module Repository {
  import opened Wrappers
  import opened Entities

  /** `User.findOne({where: {email}})`: the position of the first user with that email. */
  function UserByEmail(users: seq<User>, email: string): (r: Option<nat>)
    ensures r.Some? ==> r.value < |users| && users[r.value].email == email
    ensures r.Some? ==> forall j :: 0 <= j < r.value ==> users[j].email != email
    ensures r.None? <==> forall j :: 0 <= j < |users| ==> users[j].email != email
  {
    if |users| == 0 then None
    else if users[0].email == email then Some(0)
    else
      match UserByEmail(users[1..], email)
      case None => None
      case Some(k) => Some(k + 1)
  }

  /** `User.findOneOrFail(id)`, with failure as None: the position of the first user with that id. */
  function UserById(users: seq<User>, id: nat): (r: Option<nat>)
    ensures r.Some? ==> r.value < |users| && users[r.value].id == id
    ensures r.Some? ==> forall j :: 0 <= j < r.value ==> users[j].id != id
    ensures r.None? <==> forall j :: 0 <= j < |users| ==> users[j].id != id
  {
    if |users| == 0 then None
    else if users[0].id == id then Some(0)
    else
      match UserById(users[1..], id)
      case None => None
      case Some(k) => Some(k + 1)
  }

  /** `UserVerifyToken.findOne({where: {token, email}})`: the first row matching both. */
  function VerifyTokenFor(tokens: seq<VerifyToken>, token: string, email: string): (r: Option<nat>)
    ensures r.Some? ==> r.value < |tokens| && tokens[r.value].token == token && tokens[r.value].email == email
    ensures r.None? <==> forall j :: 0 <= j < |tokens| ==> !(tokens[j].token == token && tokens[j].email == email)
  {
    if |tokens| == 0 then None
    else if tokens[0].token == token && tokens[0].email == email then Some(0)
    else
      match VerifyTokenFor(tokens[1..], token, email)
      case None => None
      case Some(k) => Some(k + 1)
  }

  /** `UserForgotPasswordToken.findOne({where: {token}})`: the first row with that token. */
  function ForgotTokenFor(tokens: seq<ForgotPasswordToken>, token: string): (r: Option<nat>)
    ensures r.Some? ==> r.value < |tokens| && tokens[r.value].token == token
    ensures r.None? <==> forall j :: 0 <= j < |tokens| ==> tokens[j].token != token
  {
    if |tokens| == 0 then None
    else if tokens[0].token == token then Some(0)
    else
      match ForgotTokenFor(tokens[1..], token)
      case None => None
      case Some(k) => Some(k + 1)
  }

  /** A user appended under an email no user had is the one that email finds. */
  lemma {:induction false} UserByEmailAppend(users: seq<User>, user: User)
    requires UserByEmail(users, user.email).None?
    ensures UserByEmail(users + [user], user.email) == Some(|users|)
    decreases |users|
  {
    if |users| > 0 {
      assert (users + [user])[1..] == users[1..] + [user];
      UserByEmailAppend(users[1..], user);
    }
  }

  /** A verify token appended under a token and email no row had is the row they find. */
  lemma {:induction false} VerifyTokenForAppend(tokens: seq<VerifyToken>, row: VerifyToken)
    requires VerifyTokenFor(tokens, row.token, row.email).None?
    ensures VerifyTokenFor(tokens + [row], row.token, row.email) == Some(|tokens|)
    decreases |tokens|
  {
    if |tokens| > 0 {
      assert (tokens + [row])[1..] == tokens[1..] + [row];
      VerifyTokenForAppend(tokens[1..], row);
    }
  }

  /** A forgot-password token appended under a token no row had is the row it finds. */
  lemma {:induction false} ForgotTokenForAppend(tokens: seq<ForgotPasswordToken>, row: ForgotPasswordToken)
    requires ForgotTokenFor(tokens, row.token).None?
    ensures ForgotTokenFor(tokens + [row], row.token) == Some(|tokens|)
    decreases |tokens|
  {
    if |tokens| > 0 {
      assert (tokens + [row])[1..] == tokens[1..] + [row];
      ForgotTokenForAppend(tokens[1..], row);
    }
  }

  /** Changing fields other than the email does not change which user an email finds. */
  lemma {:induction false} UserByEmailStable(before: seq<User>, after: seq<User>, email: string)
    requires |before| == |after|
    requires forall i :: 0 <= i < |before| ==> after[i].email == before[i].email
    ensures UserByEmail(after, email) == UserByEmail(before, email)
    decreases |before|
  {
    if |before| > 0 && before[0].email != email {
      UserByEmailStable(before[1..], after[1..], email);
    }
  }

  /** The verify-token rows left after removing every row for `email`, in table order. */
  function TokensNotFor(tokens: seq<VerifyToken>, email: string): (r: seq<VerifyToken>)
    ensures |r| <= |tokens|
  {
    if |tokens| == 0 then []
    else
      var init := tokens[..|tokens| - 1];
      var last := tokens[|tokens| - 1];
      if last.email == email then TokensNotFor(init, email)
      else TokensNotFor(init, email) + [last]
  }

  /** Exactly the rows not for `email` survive the removal. */
  lemma {:induction false} TokensNotForMembers(tokens: seq<VerifyToken>, email: string)
    ensures forall t :: t in TokensNotFor(tokens, email) <==> t in tokens && t.email != email
    decreases |tokens|
  {
    if |tokens| > 0 {
      var init := tokens[..|tokens| - 1];
      assert tokens == init + [tokens[|tokens| - 1]];
      TokensNotForMembers(init, email);
    }
  }

  /** Finds every verify-token row for `email` and removes each one, keeping the rest. */
  method RemoveVerifyTokens(tokens: seq<VerifyToken>, email: string) returns (kept: seq<VerifyToken>)
    ensures kept == TokensNotFor(tokens, email)
  {
    kept := [];
    var i := 0;
    while i < |tokens|
      invariant 0 <= i <= |tokens|
      invariant kept == TokensNotFor(tokens[..i], email)
    {
      assert tokens[..i + 1] == tokens[..i] + [tokens[i]];
      TokensNotForSnoc(tokens[..i], tokens[i], email);
      if tokens[i].email != email {
        kept := kept + [tokens[i]];
      }
      i := i + 1;
    }
    assert tokens[..|tokens|] == tokens;
  }

  /** One more row at the end is kept exactly when it is not for `email`. */
  lemma {:induction false} TokensNotForSnoc(tokens: seq<VerifyToken>, last: VerifyToken, email: string)
    ensures TokensNotFor(tokens + [last], email) ==
      if last.email == email then TokensNotFor(tokens, email) else TokensNotFor(tokens, email) + [last]
  {
    assert (tokens + [last])[..|tokens|] == tokens;
  }

  /** `User.update(id, {isVerified: true})`: rows with that id become verified and get a new
      update time; the other rows are untouched. */
  function MarkVerified(users: seq<User>, id: nat, now: int): (r: seq<User>)
    ensures |r| == |users|
    ensures forall i :: 0 <= i < |r| ==> SameKeys(users[i], r[i]) && (users[i].isVerified ==> r[i].isVerified)
    ensures forall i :: 0 <= i < |r| && users[i].id == id ==> r[i].isVerified && r[i].password == users[i].password
    ensures forall i :: 0 <= i < |r| && users[i].id != id ==> r[i] == users[i]
  {
    seq(|users|, i requires 0 <= i < |users| =>
      if users[i].id == id then users[i].(isVerified := true, updatedAt := now) else users[i])
  }

  /** `User.update(id, {password})`: rows with that id get the new hash and a new update time;
      the other rows are untouched. */
  function SetPassword(users: seq<User>, id: nat, password: string, now: int): (r: seq<User>)
    ensures |r| == |users|
    ensures forall i :: 0 <= i < |r| ==> SameKeys(users[i], r[i]) && r[i].isVerified == users[i].isVerified
    ensures forall i :: 0 <= i < |r| && users[i].id == id ==> r[i].password == password
    ensures forall i :: 0 <= i < |r| && users[i].id != id ==> r[i] == users[i]
  {
    seq(|users|, i requires 0 <= i < |users| =>
      if users[i].id == id then users[i].(password := password, updatedAt := now) else users[i])
  }

  /** Two versions of a user row agree on the id, the email and the author link. */
  predicate SameKeys(before: User, after: User)
  {
    after.id == before.id && after.email == before.email && after.authorId == before.authorId
  }
}
