/** The client-side stand-in for authentication (src/lib/fakeAuth.ts): a fixed
    user list bundled with the app, and a session token kept in `localStorage`. */
module FakeAuth {

  import opened Types
  import opened Seqs
  import opened Text
  import KeyValue

  /** A record of the bundled user list (`src/dummy/users.json`). */
  datatype User = User(id: nat, name: string, email: string, password: string, role: string)

  datatype Session = Session(token: string, user: User)

  /** The `localStorage` key the token is kept under. */
  const TokenKey := "token"

  predicate HasCredentials(u: User, email: string, password: string)
  {
    u.email == email && u.password == password
  }

  /** `users.find(u => u.email === email && u.password === password)`. */
  function FindByCredentials(users: seq<User>, email: string, password: string): (r: Option<User>)
    ensures r.None? <==> forall u :: u in users ==> !HasCredentials(u, email, password)
    ensures r.Some? ==> r.value in users && r.value.email == email && r.value.password == password
  {
    Find(users, (u: User) => HasCredentials(u, email, password))
  }

  /** `users.find(u => u.email === email)`. */
  function FindByEmail(users: seq<User>, email: string): (r: Option<User>)
    ensures r.None? <==> forall u :: u in users ==> u.email != email
    ensures r.Some? ==> r.value in users && r.value.email == email
  {
    Find(users, (u: User) => u.email == email)
  }

  /** The text that is encoded into a token: `${id}:${email}:${role}`. */
  function TokenPayload(u: User): (p: string)
    ensures |p| == |Decimal(u.id)| + |u.email| + |u.role| + 2
    ensures Decimal(u.id) + ":" <= p
  {
    Decimal(u.id) + ":" + u.email + ":" + u.role
  }

  /** The record `fakeRegister` builds: the next id after the list's length, role "user". */
  function NewUser(users: seq<User>, name: string, email: string, password: string): (u: User)
    ensures u.id == |users| + 1 && u.role == "user"
    ensures u.name == name && u.email == email && u.password == password
  {
    User(|users| + 1, name, email, password, "user")
  }

  /** `fakeLogin(email, password)`; `encode` stands for `btoa`. */
  method FakeLogin(storage: KeyValue.Store, users: seq<User>, email: string, password: string,
                   encode: string -> string)
    returns (r: Result<Session>)
    modifies storage
    ensures FindByCredentials(users, email, password).None? ==>
              r == Err("Invalid email or password") && storage.items == old(storage.items)
    ensures FindByCredentials(users, email, password).Some? ==>
              var u := FindByCredentials(users, email, password).value;
              && r == Ok(Session(encode(TokenPayload(u)), u))
              && storage.items == old(storage.items)[TokenKey := r.value.token]
  {
    var found := FindByCredentials(users, email, password);
    if found.None? {
      return Err("Invalid email or password");
    }
    var user := found.value;
    var token := encode(TokenPayload(user));
    storage.Set(TokenKey, token);
    r := Ok(Session(token, user));
  }

  /** `fakeRegister(name, email, password)`: builds a user and stores its token,
      but never adds the user to the list. */
  method FakeRegister(storage: KeyValue.Store, users: seq<User>, name: string, email: string,
                      password: string, encode: string -> string)
    returns (r: Result<Session>)
    modifies storage
    ensures FindByEmail(users, email).Some? ==>
              r == Err("Email already exists") && storage.items == old(storage.items)
    ensures FindByEmail(users, email).None? ==>
              var u := NewUser(users, name, email, password);
              && r == Ok(Session(encode(TokenPayload(u)), u))
              && storage.items == old(storage.items)[TokenKey := r.value.token]
  {
    if FindByEmail(users, email).Some? {
      return Err("Email already exists");
    }
    var user := NewUser(users, name, email, password);
    var token := encode(TokenPayload(user));
    storage.Set(TokenKey, token);
    r := Ok(Session(token, user));
  }

  /** `fakeLogout()`: removes the token and nothing else. */
  method FakeLogout(storage: KeyValue.Store)
    modifies storage
    ensures storage.items == old(storage.items) - {TokenKey}
  {
    storage.Remove(TokenKey);
  }

  /** Login succeeds exactly when some user has both credentials, and then
      returns the first such user in list order. */
  lemma LoginFindsFirstMatch(users: seq<User>, email: string, password: string)
    ensures FindByCredentials(users, email, password).None? <==>
              forall i :: 0 <= i < |users| ==> !HasCredentials(users[i], email, password)
    ensures FindByCredentials(users, email, password).Some? ==>
              exists i :: 0 <= i < |users| && users[i] == FindByCredentials(users, email, password).value
                && users[i].email == email && users[i].password == password
                && forall j :: 0 <= j < i ==> !HasCredentials(users[j], email, password)
  {
  }

  /** Registration is refused exactly when the email is already on the list. */
  lemma RegisterRejectsKnownEmail(users: seq<User>, email: string)
    ensures FindByEmail(users, email).Some? <==> exists i :: 0 <= i < |users| && users[i].email == email
  {
  }

  /** The list is never extended, so the account that registration just accepted
      cannot log in: no user on the list has its email. */
  lemma RegisteredUserCannotLogIn(users: seq<User>, email: string, password: string)
    requires FindByEmail(users, email).None?
    ensures FindByCredentials(users, email, password).None?
  {
  }

  /** When the bundled ids are 1..n (no id above the list's length), the id
      given to a new user is not already taken. */
  lemma NewIdIsFresh(users: seq<User>, name: string, email: string, password: string)
    requires forall i :: 0 <= i < |users| ==> users[i].id <= |users|
    ensures forall i :: 0 <= i < |users| ==> users[i].id != NewUser(users, name, email, password).id
  {
  }

  /** A token payload determines the id, email and role it was built from,
      as long as the email holds no colon: the id is the digits before the
      first colon. */
  lemma {:induction false} PayloadDeterminesUser(u: User, v: User)
    requires TokenPayload(u) == TokenPayload(v)
    requires ':' !in u.email && ':' !in v.email
    ensures u.id == v.id && u.email == v.email && u.role == v.role
  {
    var a, b := Decimal(u.id), Decimal(v.id);
    assert ':' !in a && ':' !in b;
    var restU, restV := u.email + ":" + u.role, v.email + ":" + v.role;
    assert a + ":" + restU == TokenPayload(u) && b + ":" + restV == TokenPayload(v);
    SplitAtFirstColon(a, restU, b, restV);
    DecimalRoundTrip(u.id);
    DecimalRoundTrip(v.id);
    SplitAtFirstColon(u.email, u.role, v.email, v.role);
  }

  /** The position of the first colon in `s`, or `|s|` when there is none. */
  function ColonIndex(s: string): nat
  {
    if s == [] then 0 else if s[0] == ':' then 0 else 1 + ColonIndex(s[1..])
  }

  lemma {:induction false} ColonIndexAfter(e: string, r: string)
    requires ':' !in e
    ensures ColonIndex(e + ":" + r) == |e|
  {
    if e != [] {
      assert (e + ":" + r)[1..] == e[1..] + ":" + r;
      ColonIndexAfter(e[1..], r);
    }
  }

  /** `e1 + ":" + r1 == e2 + ":" + r2` with no colon in either `e` splits the same way. */
  lemma SplitAtFirstColon(e1: string, r1: string, e2: string, r2: string)
    requires e1 + ":" + r1 == e2 + ":" + r2
    requires ':' !in e1 && ':' !in e2
    ensures e1 == e2 && r1 == r2
  {
    var s := e1 + ":" + r1;
    ColonIndexAfter(e1, r1);
    ColonIndexAfter(e2, r2);
    assert e1 == s[..|e1|] && e2 == s[..|e2|];
    assert r1 == s[|e1| + 1..] && r2 == s[|e2| + 1..];
  }
}
