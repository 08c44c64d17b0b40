/** The Next.js middleware (src/middleware.ts) that sends visitors without a
    session token from the protected areas to the login page. */
module Middleware {

  import opened Types
  import opened Text

  datatype Decision = PassThrough | Redirect(location: string)

  /** `req.cookies.get("token")?.value || ""`. */
  function TokenOf(cookie: Option<string>): (token: string)
    ensures cookie.None? ==> token == ""
    ensures cookie.Some? ==> token == cookie.value
  {
    cookie.GetOr("")
  }

  /** The paths the guard covers: a raw prefix test, not a path-segment test. */
  function Guarded(pathname: string): (g: bool)
    ensures g <==> "/articles" <= pathname || "/admin" <= pathname
  {
    StartsWith(pathname, "/articles") || StartsWith(pathname, "/admin")
  }

  /** The decision for one request, from its token cookie and its path. */
  function Decide(cookie: Option<string>, pathname: string): (d: Decision)
    ensures d == PassThrough || d == Redirect("/login")
    ensures d.Redirect? ==> TokenOf(cookie) == ""
  {
    if TokenOf(cookie) == "" && Guarded(pathname) then Redirect("/login") else PassThrough
  }

  /** A request without the cookie is treated exactly like one with an empty token. */
  lemma MissingCookieIsEmptyToken(pathname: string)
    ensures Decide(None, pathname) == Decide(Some(""), pathname)
  {
  }

  /** Without a token, a path under either prefix is redirected to the login page. */
  lemma EmptyTokenGuardedRedirects(cookie: Option<string>, pathname: string)
    requires TokenOf(cookie) == ""
    requires Guarded(pathname)
    ensures Decide(cookie, pathname) == Redirect("/login")
  {
  }

  /** Any non-empty token passes, whatever the path (no role is checked). */
  lemma TokenAlwaysPasses(token: string, pathname: string)
    requires token != ""
    ensures Decide(Some(token), pathname) == PassThrough
  {
  }

  /** A path under neither prefix passes, with or without a token. */
  lemma UnguardedPathPasses(cookie: Option<string>, pathname: string)
    requires !Guarded(pathname)
    ensures Decide(cookie, pathname) == PassThrough
  {
  }

  /** The login page itself is never redirected, so the redirect cannot loop. */
  lemma LoginNeverRedirected(cookie: Option<string>)
    ensures Decide(cookie, "/login") == PassThrough
  {
    assert "/login"[1] != "/admin"[1];
  }

  /** The prefix test is raw: paths that merely begin with the same letters are guarded too. */
  lemma RawPrefixGuardsLookalikes()
    ensures Decide(None, "/administrator") == Redirect("/login")
    ensures Decide(None, "/articlesX") == Redirect("/login")
    ensures Decide(None, "/") == PassThrough
  {
  }
}
