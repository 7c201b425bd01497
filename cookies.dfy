/** Cookie lookup (`getCookie` in the utilities) and the request context's cookie accessors
    that the server wiring builds on it. */
module Cookies {
  import opened Wrappers

  /** `PREFIX`: the slug of the application name followed by `_`. Its value comes from the
      environment; the model fixes one non-empty value ending in `_`. */
  const Prefix: string := "app_"

  /** `getCookie(name, cookies)`: the entry under `Prefix + name` when the cookie map exists and
      that entry is a non-empty string, otherwise `undefined`. */
  function GetCookie(name: string, cookies: Option<map<string, string>>): (r: Option<string>)
    ensures r.Some? ==> cookies.Some? && Prefix + name in cookies.value
    ensures r.Some? ==> r.value == cookies.value[Prefix + name] && r.value != ""
    ensures r.None? <==> cookies.None? || Prefix + name !in cookies.value || cookies.value[Prefix + name] == ""
  {
    if cookies.Some? && Prefix + name in cookies.value && cookies.value[Prefix + name] != ""
    then Some(cookies.value[Prefix + name])
    else None
  }

  /** The context's `setCookie(name, value)`: the reply stores the cookie under `Prefix + name`,
      and the client sends it back under that key. */
  function SetCookie(jar: map<string, string>, name: string, value: string): (r: map<string, string>)
    ensures Prefix + name in r && r[Prefix + name] == value
    ensures forall k :: k != Prefix + name ==> (k in r <==> k in jar)
    ensures forall k :: k != Prefix + name && k in jar ==> r[k] == jar[k]
  {
    jar[Prefix + name := value]
  }

  /** The context's `getCookie(name)`: it prefixes the name itself and then calls `getCookie`,
      which prefixes it again. */
  function ContextGetCookie(name: string, cookies: Option<map<string, string>>): (r: Option<string>)
    ensures r.Some? ==> cookies.Some? && Prefix + Prefix + name in cookies.value
    ensures r.Some? ==> r.value == cookies.value[Prefix + Prefix + name] && r.value != ""
    ensures r.None? <==>
      cookies.None? || Prefix + Prefix + name !in cookies.value || cookies.value[Prefix + Prefix + name] == ""
  {
    assert Prefix + (Prefix + name) == Prefix + Prefix + name;
    GetCookie(Prefix + name, cookies)
  }

  /** `getCookie` reads back what `setCookie` wrote under the same name, unless it was empty. */
  lemma {:induction false} GetAfterSet(jar: map<string, string>, name: string, value: string)
    ensures GetCookie(name, Some(SetCookie(jar, name, value))) == if value == "" then None else Some(value)
  {
  }

  /** Setting one cookie does not change what `getCookie` reads for another name. */
  lemma {:induction false} GetAfterSetOther(jar: map<string, string>, name: string, other: string, value: string)
    requires other != name
    ensures GetCookie(other, Some(SetCookie(jar, name, value))) == GetCookie(other, Some(jar))
  {
    assert (Prefix + other)[|Prefix|..] == other && (Prefix + name)[|Prefix|..] == name;
  }

  /** The context's accessor looks the cookie up under the doubled prefix. */
  lemma {:induction false} ContextKeyIsDoublePrefixed(name: string, jar: map<string, string>)
    ensures ContextGetCookie(name, Some(jar)) ==
      if Prefix + Prefix + name in jar && jar[Prefix + Prefix + name] != ""
      then Some(jar[Prefix + Prefix + name]) else None
  {
    assert Prefix + (Prefix + name) == Prefix + Prefix + name;
  }

  /** So the context's accessor never reads back a cookie the context's `setCookie` wrote
      under the same name. */
  lemma {:induction false} ContextGetMissesContextSet(jar: map<string, string>, name: string, value: string)
    ensures ContextGetCookie(name, Some(SetCookie(jar, name, value))) == ContextGetCookie(name, Some(jar))
  {
    assert |Prefix + Prefix + name| != |Prefix + name|;
    assert Prefix + (Prefix + name) == Prefix + Prefix + name;
  }
}
