/** controllers/auth.controller.js: registration and login. Hashing, hash
    comparison and token signing are library calls; they are parameters here
    (`hash` for `bcrypt.hash`, `compare` for `bcrypt.compare`, `sign` for
    `jwt.sign` over `{ id, email }` with the server's secret). */
module AuthController {
  import opened Common
  import opened Seqs
  import opened Store

  /** The request body of `register`; it is spread into the new row. */
  datatype RegisterBody = RegisterBody(
    email: string,
    password: string,
    username: string,
    whatsapp: string,
    isSeller: bool)

  /** A user row with the `password` column taken out. */
  datatype PublicUser = PublicUser(id: int, email: string, username: string, whatsapp: string, isSeller: bool)

  function WithoutPassword(u: User): (p: PublicUser)
    ensures p.id == u.id && p.email == u.email && p.username == u.username
    ensures p.whatsapp == u.whatsapp && p.isSeller == u.isSeller
  {
    PublicUser(u.id, u.email, u.username, u.whatsapp, u.isSeller)
  }

  /** `register`: an e-mail address already taken answers 400 and changes
      nothing; otherwise one user is added, storing `hash(password)`, and the
      response is that row without its password. */
  method Register(db: Db, body: RegisterBody, hash: string -> string) returns (resp: Response<PublicUser>)
    requires db.Valid()
    modifies db
    // Valid() includes: no two users share an e-mail address.
    ensures db.Valid()
    ensures FindUserByEmail(old(db.users), body.email).Some? ==>
              && resp == Fail(400, "User already exists with this email")
              && db.users == old(db.users) && db.nextUserId == old(db.nextUserId)
    ensures FindUserByEmail(old(db.users), body.email).None? ==>
              && db.users == old(db.users) + [User(old(db.nextUserId), body.email, hash(body.password),
                                                   body.username, body.whatsapp, body.isSeller)]
              && db.nextUserId == old(db.nextUserId) + 1
              && resp == Created(WithoutPassword(db.users[|db.users| - 1]))
    ensures db.cars == old(db.cars) && db.carts == old(db.carts)
    ensures db.orders == old(db.orders) && db.reviews == old(db.reviews)
    ensures db.nextCarId == old(db.nextCarId) && db.nextCartId == old(db.nextCartId)
    ensures db.nextOrderId == old(db.nextOrderId) && db.nextReviewId == old(db.nextReviewId)
  {
    if FindUserByEmail(db.users, body.email).Some? {
      return Fail(400, "User already exists with this email");
    }
    var user := User(db.nextUserId, body.email, hash(body.password), body.username, body.whatsapp, body.isSeller);
    AppendFreshKey(db.users, UserKey, db.nextUserId, user);
    AppendNewKey(db.users, UserEmail, user);
    db.users := db.users + [user];
    db.nextUserId := db.nextUserId + 1;
    resp := Created(WithoutPassword(user));
  }

  /** The request body of `login`: either field may be absent. */
  datatype LoginBody = LoginBody(email: Option<string>, password: Option<string>)

  /** `{ token, user }`: the full user row, stored hash included. */
  datatype LoginOk = LoginOk(token: string, user: User)

  /** A JavaScript value that is `undefined` or the empty string is falsy. */
  predicate Present(s: Option<string>) { s.Some? && s.value != "" }

  /** `login`: 400 for a missing field (before any lookup), 404 for an
      unknown address, 401 for a wrong password, else 200 with a token signed
      over the user's id and address. The user table is only read. */
  function Login(users: seq<User>, body: LoginBody, compare: (string, string) -> bool,
                 sign: (int, string) -> string): (r: Response<LoginOk>)
    ensures !Present(body.email) || !Present(body.password) ==>
              r == Fail(400, "Email and password are required.")
    ensures r.status == 404 <==>
              Present(body.email) && Present(body.password) && FindUserByEmail(users, body.email.value).None?
    ensures r.status == 401 <==>
              && Present(body.email) && Present(body.password)
              && FindUserByEmail(users, body.email.value).Some?
              && !compare(body.password.value, FindUserByEmail(users, body.email.value).value.password)
    ensures r.status == 200 <==>
              && Present(body.email) && Present(body.password)
              && FindUserByEmail(users, body.email.value).Some?
              && compare(body.password.value, FindUserByEmail(users, body.email.value).value.password)
    ensures r.status == 200 ==>
              var u := FindUserByEmail(users, body.email.value).value;
              r == Ok(LoginOk(sign(u.id, u.email), u)) && u.email == body.email.value
    ensures r.status in {200, 400, 401, 404}
  {
    if !Present(body.email) || !Present(body.password) then
      Fail(400, "Email and password are required.")
    else match FindUserByEmail(users, body.email.value)
      case None => Fail(404, "User not found.")
      case Some(u) =>
        if !compare(body.password.value, u.password) then Fail(401, "Wrong Password")
        else Ok(LoginOk(sign(u.id, u.email), u))
  }

  /** Registering and then logging in round-trips: once `register` has
      appended a user, logging in with the same address and password (for a
      `compare` that accepts a password against its own hash) returns that
      user and a token signed over its id and address. */
  lemma RegisterThenLogin(users: seq<User>, nextId: int, body: RegisterBody,
                          hash: string -> string, compare: (string, string) -> bool,
                          sign: (int, string) -> string)
    requires FindUserByEmail(users, body.email).None?
    requires body.email != "" && body.password != ""
    requires compare(body.password, hash(body.password))
    ensures var u := User(nextId, body.email, hash(body.password), body.username, body.whatsapp, body.isSeller);
            Login(users + [u], LoginBody(Some(body.email), Some(body.password)), compare, sign)
            == Ok(LoginOk(sign(nextId, body.email), u))
  {
    var u := User(nextId, body.email, hash(body.password), body.username, body.whatsapp, body.isSeller);
    var after := users + [u];
    var found := FindUserByEmail(after, body.email);
    assert after[|users|] == u;
    assert found == Some(u) by {
      assert forall j :: 0 <= j < |users| ==> after[j] == users[j];
    }
  }
}
