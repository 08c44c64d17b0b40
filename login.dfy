/** The login page (src/app/login/page.tsx): the form rule, and the submit
    handler that checks the bundled users, sets the cookie and picks the
    landing page. */
module Login {

  import opened Types
  import FakeAuth
  import KeyValue
  import Middleware

  const PasswordTooShort := "Password must be at least 6 characters"

  datatype LoginErrors = LoginErrors(email: Option<string>, password: Option<string>)

  /** A toast shown to the user. */
  datatype Toast = Success(text: string) | Error(text: string)

  /** `loginSchema`. The email format check is zod's own; it is the parameter `isEmail`. */
  function ValidateLogin(email: string, password: string, isEmail: string -> bool): (e: LoginErrors)
    ensures e.email.None? <==> isEmail(email)
    ensures e.email.Some? ==> e.email.value == "Invalid email"
    ensures e.password.None? <==> |password| >= 6
    ensures e.password.Some? ==> e.password.value == PasswordTooShort
  {
    LoginErrors(
      if isEmail(email) then None else Some("Invalid email"),
      if |password| < 6 then Some(PasswordTooShort) else None)
  }

  /** The value written to the `token` cookie for a signed-in user. */
  function CookieToken(role: string): (token: string)
    ensures token != ""
    ensures |token| == 12 + |role| && token[..12] == "dummy-token-" && token[12..] == role
  {
    "dummy-token-" + role
  }

  /** Where a signed-in user is sent. */
  function LandingPage(role: string): (path: string)
    ensures path == "/admin/articles" <==> role == "admin"
    ensures path != "/admin/articles" ==> path == "/articles"
  {
    if role == "admin" then "/admin/articles" else "/articles"
  }

  /** `onSubmit` for values that passed the schema. On success: the token
      cookie, a welcome toast and the landing page; on failure: the error's
      message, no cookie and no navigation. */
  method OnSubmit(storage: KeyValue.Store, cookies: KeyValue.Store, users: seq<FakeAuth.User>,
                  email: string, password: string, encode: string -> string)
    returns (toast: Toast, target: Option<string>)
    requires storage != cookies
    modifies storage, cookies
    ensures FakeAuth.FindByCredentials(users, email, password).None? ==>
              && toast == Error("Invalid email or password") && target == None
              && cookies.items == old(cookies.items) && storage.items == old(storage.items)
    ensures FakeAuth.FindByCredentials(users, email, password).Some? ==>
              var u := FakeAuth.FindByCredentials(users, email, password).value;
              && toast == Success("Welcome, " + u.name)
              && target == Some(LandingPage(u.role))
              && cookies.items == old(cookies.items)["token" := CookieToken(u.role)]
              && storage.items == old(storage.items)[FakeAuth.TokenKey := encode(FakeAuth.TokenPayload(u))]
  {
    var r := FakeAuth.FakeLogin(storage, users, email, password, encode);
    if r.Err? {
      return Error(r.message), None;
    }
    var user := r.value.user;
    cookies.Set("token", CookieToken(user.role));
    toast := Success("Welcome, " + user.name);
    target := Some(LandingPage(user.role));
  }

  /** The cookie set at login is never empty, so the route guard lets any
      signed-in user through to every path, the admin area included, whatever
      the role. */
  lemma SignedInUserPassesGuard(role: string, pathname: string)
    ensures Middleware.Decide(Some(CookieToken(role)), pathname) == Middleware.PassThrough
  {
  }

  /** Only the two landing pages are ever chosen, and only admins land in the admin area. */
  lemma LandingPages(role: string)
    ensures LandingPage(role) in {"/admin/articles", "/articles"}
    ensures role != "admin" ==> LandingPage(role) == "/articles"
  {
  }
}
