/** `notSignedIn`: the guard that turns away requests that already carry a session cookie. */
module NotSignedIn {
  import opened Wrappers
  import opened Guard
  import opened Cookies

  /** Looks the `session` cookie up through the context's `getCookie` and returns 'Already
      logged in' when it is truthy; otherwise calls `next`. The value is never decoded. */
  function NotSignedIn(requestCookies: Option<map<string, string>>): (o: GuardOutcome)
    ensures o == Next || o == Returned(AlreadyLoggedIn)
    ensures o == Returned(AlreadyLoggedIn) <==> ContextGetCookie("session", requestCookies).Some?
  {
    var refreshTokenCookie := ContextGetCookie("session", requestCookies);
    if refreshTokenCookie.Some? then Returned(AlreadyLoggedIn) else Next
  }

  /** Any non-empty value under the key the guard reads turns the request away, whatever it
      holds. */
  lemma {:induction false} AnyValueRejects(jar: map<string, string>, value: string)
    requires value != ""
    ensures NotSignedIn(Some(jar[Prefix + Prefix + "session" := value])) == Returned(AlreadyLoggedIn)
  {
    ContextKeyIsDoublePrefixed("session", jar[Prefix + Prefix + "session" := value]);
  }

  /** A session cookie written by the context's `setCookie('session', …)` does not make the guard
      turn the request away: the guard reads the doubled-prefix key. */
  lemma {:induction false} IgnoresSessionSetByContext(jar: map<string, string>, value: string)
    ensures NotSignedIn(Some(SetCookie(jar, "session", value))) == NotSignedIn(Some(jar))
  {
    ContextGetMissesContextSet(jar, "session", value);
  }
}
