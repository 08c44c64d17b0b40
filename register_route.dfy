/** The `POST /api/register` route handler (src/app/api/register/route.ts):
    it appends a new account to the user file unless the email is taken. */
module RegisterRoute {

  import opened FakeAuth

  /** The JSON body of the request. The role is taken from the client as sent. */
  datatype RegisterRequest = RegisterRequest(name: string, email: string, password: string, role: string)

  /** `NextResponse.json({ user })` with the default status 200, or the 400
      answer for a taken email. */
  datatype RegisterResponse = Saved(user: User) | Rejected(status: int, error: string)

  /** The user file (`src/dummy/users.json`) that `getUsers` reads and `saveUsers` rewrites. */
  class UserFile {
    var users: seq<User>

    constructor (initial: seq<User>)
      ensures users == initial
    {
      users := initial;
    }
  }

  /** No two records share an email. */
  ghost predicate EmailsUnique(users: seq<User>)
  {
    forall i, j :: 0 <= i < j < |users| ==> users[i].email != users[j].email
  }

  /** The record built for a request: the next id after the list's length. */
  function NewAccount(users: seq<User>, req: RegisterRequest): (u: User)
    ensures u.id == |users| + 1
    ensures u.name == req.name && u.email == req.email && u.password == req.password && u.role == req.role
  {
    User(|users| + 1, req.name, req.email, req.password, req.role)
  }

  /** The file contents and response after one request against `users`. */
  function Register(users: seq<User>, req: RegisterRequest): (r: (seq<User>, RegisterResponse))
    ensures r.1.Saved? <==> forall u :: u in users ==> u.email != req.email
    ensures r.1.Rejected? ==> r.0 == users && r.1 == Rejected(400, "Email already registered")
    ensures r.1.Saved? ==> r.0 == users + [r.1.user] && r.1.user == NewAccount(users, req)
  {
    if FindByEmail(users, req.email).Some? then
      (users, Rejected(400, "Email already registered"))
    else
      var u := NewAccount(users, req);
      (users + [u], Saved(u))
  }

  /** The handler: read the file, check the email, push the record in place, save. */
  method Post(file: UserFile, req: RegisterRequest) returns (resp: RegisterResponse)
    modifies file
    ensures (file.users, resp) == Register(old(file.users), req)
  {
    var users := file.users;
    var existing := FindByEmail(users, req.email);
    if existing.Some? {
      return Rejected(400, "Email already registered");
    }
    var newUser := NewAccount(users, req);
    users := users + [newUser];
    file.users := users;
    resp := Saved(newUser);
  }

  /** A taken email gives the 400 answer and leaves the list as it was. */
  lemma TakenEmailRejected(users: seq<User>, req: RegisterRequest)
    requires exists i :: 0 <= i < |users| && users[i].email == req.email
    ensures Register(users, req) == (users, Rejected(400, "Email already registered"))
  {
  }

  /** A fresh email is appended at the end, with the next id and the submitted
      fields, the earlier records unchanged and in order; the response carries
      exactly the appended record. */
  lemma FreshEmailAppended(users: seq<User>, req: RegisterRequest)
    requires forall i :: 0 <= i < |users| ==> users[i].email != req.email
    ensures var (after, resp) := Register(users, req);
      && resp.Saved?
      && |after| == |users| + 1
      && after[..|users|] == users
      && after[|users|] == resp.user
      && resp.user == User(|users| + 1, req.name, req.email, req.password, req.role)
  {
  }

  /** Registration keeps emails unique: the list before a request having no
      duplicate email, the list after it has none either. */
  lemma RegisterKeepsEmailsUnique(users: seq<User>, req: RegisterRequest)
    requires EmailsUnique(users)
    ensures EmailsUnique(Register(users, req).0)
  {
  }

  /** The list never shrinks and never grows by more than one record. */
  lemma RegisterGrowsByAtMostOne(users: seq<User>, req: RegisterRequest)
    ensures var (after, resp) := Register(users, req);
      && users <= after
      && |after| == |users| + (if resp.Saved? then 1 else 0)
  {
  }
}
