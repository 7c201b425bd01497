/** How the middleware reads a token out of the `authorization` header: the header is split on
    single spaces and the second field is taken. */
module Bearer {
  import opened Wrappers

  /** `s.split(' ')`: the fields between single spaces. Two adjacent spaces give an empty field,
      and the empty string gives one empty field. */
  function Split(s: string): (fields: seq<string>)
    ensures |fields| >= 1
    ensures forall i :: 0 <= i < |fields| ==> ' ' !in fields[i]
    ensures |fields| == 1 <==> ' ' !in s
  {
    if |s| == 0 then [""]
    else
      var rest := Split(s[1..]);
      if s[0] == ' ' then [""] + rest
      else [[s[0]] + rest[0]] + rest[1..]
  }

  /** The fields joined back with single spaces. */
  function Join(fields: seq<string>): string
    requires |fields| >= 1
  {
    if |fields| == 1 then fields[0] else fields[0] + " " + Join(fields[1..])
  }

  /** Splitting a word without spaces followed by more text glues the word to the first field
      of the text. */
  lemma {:induction false} SplitWord(w: string, rest: string)
    requires ' ' !in w
    ensures Split(w + rest) == [w + Split(rest)[0]] + Split(rest)[1..]
    decreases |w|
  {
    if |w| > 0 {
      assert (w + rest)[1..] == w[1..] + rest;
      assert ' ' !in w[1..] by {
        forall k | 0 <= k < |w[1..]| ensures w[1..][k] != ' ' {
          assert w[1..][k] == w[k + 1];
        }
      }
      SplitWord(w[1..], rest);
      assert [w[0]] + (w[1..] + Split(rest)[0]) == w + Split(rest)[0];
    } else {
      var f := Split(rest);
      assert w + rest == rest && w + f[0] == f[0];
      assert f == [f[0]] + f[1..];
    }
  }

  /** Splitting joined fields gives the fields back, when no field contains a space. */
  lemma {:induction false} SplitJoin(fields: seq<string>)
    requires |fields| >= 1
    requires forall i :: 0 <= i < |fields| ==> ' ' !in fields[i]
    ensures Split(Join(fields)) == fields
    decreases |fields|
  {
    if |fields| == 1 {
      SplitWord(fields[0], "");
      assert fields[0] + "" == fields[0];
    } else {
      var tail := Join(fields[1..]);
      SplitJoin(fields[1..]);
      assert (" " + tail)[0] == ' ' && (" " + tail)[1..] == tail;
      assert Split(" " + tail) == [""] + fields[1..];
      assert fields[0] + " " + tail == fields[0] + (" " + tail);
      SplitWord(fields[0], " " + tail);
      assert fields[0] + "" == fields[0];
      assert fields == [fields[0]] + fields[1..];
    }
  }

  /** Gluing a character to the first field glues it to the front of the joined text. */
  lemma {:induction false} GlueFirst(c: char, fields: seq<string>)
    requires |fields| >= 1
    ensures Join([[c] + fields[0]] + fields[1..]) == [c] + Join(fields)
  {
    var glued := [[c] + fields[0]] + fields[1..];
    assert glued[0] == [c] + fields[0] && glued[1..] == fields[1..];
    if |fields| > 1 {
      var tail := Join(fields[1..]);
      assert Join(glued) == [c] + fields[0] + " " + tail;
      assert Join(fields) == fields[0] + " " + tail;
      assert [c] + fields[0] + " " + tail == [c] + (fields[0] + " " + tail);
    }
  }

  /** Joining the fields of a header gives the header back. */
  lemma {:induction false} JoinSplit(s: string)
    ensures Join(Split(s)) == s
    decreases |s|
  {
    if |s| > 0 {
      var rest := Split(s[1..]);
      JoinSplit(s[1..]);
      if s[0] == ' ' {
        assert ([""] + rest)[1..] == rest;
        assert s == "" + " " + s[1..];
      } else {
        GlueFirst(s[0], rest);
        assert s == [s[0]] + s[1..];
      }
    }
  }

  /** `authorization.split(' ')[1]`, with None for `undefined` (fewer than two fields). */
  function BearerToken(authorization: string): (token: Option<string>)
    ensures token.Some? <==> ' ' in authorization
    ensures token.Some? ==> ' ' !in token.value
  {
    var fields := Split(authorization);
    if |fields| >= 2 then Some(fields[1]) else None
  }

  /** `verify(authorization.split(' ')[1], secret)`: None when there is no second field or when
      verification rejects it (bad signature, malformed, expired). */
  function DecodeBearer<C>(authorization: string, verify: string -> Option<C>): (claim: Option<C>)
    ensures ' ' !in authorization ==> claim.None?
    ensures claim.Some? ==> BearerToken(authorization).Some? && verify(BearerToken(authorization).value) == claim
  {
    match BearerToken(authorization)
    case None => None
    case Some(token) => verify(token)
  }

  /** The token read from `<scheme> <token>` is exactly `<token>`. */
  lemma {:induction false} BearerTokenOf(scheme: string, token: string)
    requires ' ' !in scheme && ' ' !in token
    ensures BearerToken(scheme + " " + token) == Some(token)
  {
    SplitJoin([scheme, token]);
    assert Join([scheme, token]) == scheme + " " + token;
  }

  /** A header without a space has no second field, so no token is read from it. */
  lemma {:induction false} NoSpaceNoToken(authorization: string)
    requires ' ' !in authorization
    ensures BearerToken(authorization) == None
  {
  }
}
