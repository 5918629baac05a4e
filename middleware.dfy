/** The route guard (src/middleware.ts): a decision made from the request
    path and the session token, and the matcher that says which paths the
    guard runs on. */
module Middleware {
  import opened Common

  datatype Token = Token(role: Option<string>)

  /** What `getToken` gives: it may throw, find no token, or find one. */
  datatype TokenLookup = Threw | Absent | Found(token: Token)

  /** A URL of the site, with the query parameters set on it. */
  datatype Url = Url(path: string, params: seq<(string, string)>)

  datatype Decision = Next | Redirect(url: Url)

  const LoginFailure := Redirect(Url("/login", [("error", "middleware_failure")]))

  /** The guard's decision for a request to `pathname`. */
  function Guard(pathname: string, lookup: TokenLookup): (d: Decision)
    ensures lookup.Threw? ==> d == LoginFailure
    ensures lookup.Absent? ==>
      (d == Next <==> StartsWith(pathname, "/login"))
      && (d != Next ==> d == Redirect(Url("/login", [("callbackUrl", pathname)])))
    ensures lookup.Found? && d != Next ==>
      || (StartsWith(pathname, "/bishop") && lookup.token.role != Some("bishop")
          && d == Redirect(Url("/dashboard/leaders", [])))
      || (!StartsWith(pathname, "/bishop") && StartsWith(pathname, "/leaders") && lookup.token.role != Some("leader")
          && d == Redirect(Url("/dashboard/bishop", [])))
    ensures lookup.Found? && StartsWith(pathname, "/bishop") && lookup.token.role != Some("bishop") ==>
      d == Redirect(Url("/dashboard/leaders", []))
    ensures lookup.Found? && !StartsWith(pathname, "/bishop") && StartsWith(pathname, "/leaders") ==>
      (lookup.token.role != Some("leader") ==> d == Redirect(Url("/dashboard/bishop", [])))
    ensures lookup.Found? && lookup.token.role == Some("bishop") ==>
      (d == Next <==> StartsWith(pathname, "/bishop") || !StartsWith(pathname, "/leaders"))
    ensures lookup.Found? && lookup.token.role == Some("leader") ==> (d == Next <==> !StartsWith(pathname, "/bishop"))
  {
    match lookup
    case Threw => LoginFailure
    case Absent =>
      if !StartsWith(pathname, "/login") then Redirect(Url("/login", [("callbackUrl", pathname)]))
      else Next
    case Found(token) =>
      if StartsWith(pathname, "/bishop") then
        if token.role != Some("bishop") then Redirect(Url("/dashboard/leaders", [])) else Next
      else if StartsWith(pathname, "/leaders") then
        if token.role != Some("leader") then Redirect(Url("/dashboard/bishop", [])) else Next
      else Next
  }

  /** `config.matcher`: `/dashboard/:path*` matches `/dashboard` itself and
      every path below it. */
  predicate MatcherAccepts(pathname: string) {
    pathname == "/dashboard" || StartsWith(pathname, "/dashboard/")
  }

  /** A path the matcher accepts begins with "/d", so it starts with none of
      "/login", "/bishop" and "/leaders". */
  lemma {:induction false} MatchedPathPrefixes(pathname: string)
    requires MatcherAccepts(pathname)
    ensures !StartsWith(pathname, "/login") && !StartsWith(pathname, "/bishop") && !StartsWith(pathname, "/leaders")
  {
    assert |pathname| >= 2 && pathname[1] == 'd' by {
      if pathname != "/dashboard" {
        assert pathname[..11] == "/dashboard/";
        assert pathname[1] == "/dashboard/"[1];
      }
    }
    assert "/login"[1] == 'l' && "/bishop"[1] == 'b' && "/leaders"[1] == 'l';
  }

  /** Under the matcher the login exemption and both role checks are never
      reached: a request without a token is sent to the login page with its
      path as `callbackUrl`, and every request with a token passes, whatever
      its role. */
  lemma UnderMatcher(pathname: string, token: Token)
    requires MatcherAccepts(pathname)
    ensures Guard(pathname, Absent) == Redirect(Url("/login", [("callbackUrl", pathname)]))
    ensures Guard(pathname, Found(token)) == Next
  {
    MatchedPathPrefixes(pathname);
  }
}
