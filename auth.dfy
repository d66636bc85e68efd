/** Registration and login over the `users` table. Password hashing (bcrypt)
    and token signing (jsonwebtoken) are kept abstract: a hasher is a pair of
    functions that must agree on every password, and a token is the claims it
    carries together with its lifetime. */
module Auth {
  import opened Http

  /** A row of `users`. The plaintext password has no column. */
  datatype User = User(
    id: Id,
    email: string,
    passwordHash: string,
    name: string,
    userType: string,
    phoneNumber: Option<string>,
    createdAt: nat,
    updatedAt: nat)

  /** The user fields the API ever returns: never the hash. */
  datatype PublicUser = PublicUser(id: Id, email: string, name: string, userType: string)

  function Public(u: User): PublicUser
  {
    PublicUser(u.id, u.email, u.name, u.userType)
  }

  /** `bcrypt.hash(password, salt)` and `bcrypt.compare(password, hash)`; the
      random salt is an input of `hash`. */
  datatype Hasher = Hasher(hash: (string, nat) -> string, matches: (string, string) -> bool)

  /** The one property of bcrypt the model relies on: a password matches its own hash. */
  ghost predicate Sound(h: Hasher)
  {
    forall password, salt :: h.matches(password, h.hash(password, salt))
  }

  /** The lifetime passed to `jwt.sign`. */
  const EXPIRES_IN: string := "1d"

  /** A signed token: the claims `{ id, user_type }` and the lifetime. */
  datatype Token = Jwt(claims: Identity, expiresIn: string)

  datatype Session = Session(token: Token, user: PublicUser)

  datatype RegisterRequest = RegisterRequest(email: Field<string>, password: Field<string>, name: Field<string>, userType: Field<string>)

  datatype LoginRequest = LoginRequest(email: Field<string>, password: Field<string>)

  const INVALID_CREDENTIALS: string := "Invalid credentials."

  ghost predicate UniqueEmails(rows: map<Id, User>)
  {
    forall a, b :: a in rows && b in rows && rows[a].email == rows[b].email ==> a == b
  }

  lemma {:induction false} Least(s: set<Id>) returns (least: Id)
    requires s != {}
    ensures least in s && forall j :: j in s ==> least <= j
    decreases s
  {
    var x :| x in s;
    if s == {x} {
      return x;
    }
    var m := Least(s - {x});
    least := if x < m then x else m;
    forall j | j in s
      ensures least <= j
    {
      if j != x {
        assert j in s - {x};
      }
    }
  }

  lemma LeastExists(s: set<Id>)
    requires s != {}
    ensures exists m :: m in s && forall j :: j in s ==> m <= j
  {
    var m := Least(s);
  }

  /** The keys of the rows holding `email`. */
  function WithEmail(rows: map<Id, User>, email: string): (ks: set<Id>)
    ensures forall k :: k in ks <==> k in rows && rows[k].email == email
  {
    set k | k in rows && rows[k].email == email
  }

  /** `SELECT ... FROM users WHERE email = $1`, first row: the row with that
      email (the least key, should there be several). */
  function FindByEmail(rows: map<Id, User>, email: string): (r: Option<Id>)
    ensures r.None? <==> forall k :: k in rows ==> rows[k].email != email
    ensures r.Some? ==> r.value in rows && rows[r.value].email == email
    ensures r.Some? ==> forall k :: k in rows && rows[k].email == email ==> r.value <= k
  {
    var matching := WithEmail(rows, email);
    if matching == {} then None
    else
      LeastExists(matching);
      var k :| k in matching && forall j :: j in matching ==> k <= j;
      Some(k)
  }

  /** The checks of `POST /register` before anything is written, in the source's order. */
  function RegisterCheck(rows: map<Id, User>, req: RegisterRequest): (g: Option<Error>)
    ensures g.None? <==>
              && Filled(req.email) && Filled(req.password) && Filled(req.name) && Filled(req.userType)
              && (req.userType.value == DONOR || req.userType.value == ORGANIZATION)
              && forall k :: k in rows ==> rows[k].email != req.email.value
    ensures !(Filled(req.email) && Filled(req.password) && Filled(req.name) && Filled(req.userType))
            ==> g == Some(BadRequest("All fields are required."))
    ensures Filled(req.email) && Filled(req.password) && Filled(req.name) && Filled(req.userType)
            && req.userType.value != DONOR && req.userType.value != ORGANIZATION
            ==> g == Some(BadRequest("Invalid user type."))
    ensures g.Some? && g.value.Conflict? <==>
              && Filled(req.email) && Filled(req.password) && Filled(req.name) && Filled(req.userType)
              && (req.userType.value == DONOR || req.userType.value == ORGANIZATION)
              && exists k :: k in rows && rows[k].email == req.email.value
  {
    if !Filled(req.email) || !Filled(req.password) || !Filled(req.name) || !Filled(req.userType) then
      Some(BadRequest("All fields are required."))
    else if req.userType.value != DONOR && req.userType.value != ORGANIZATION then
      Some(BadRequest("Invalid user type."))
    else if FindByEmail(rows, req.email.value).Some? then
      Some(Conflict("User with this email already exists."))
    else
      None
  }

  /** The row `POST /register` inserts: the hash of the password, no phone number. */
  function NewUser(id: Id, req: RegisterRequest, salt: nat, hasher: Hasher, now: nat): User
    requires req.email.Given? && req.password.Given? && req.name.Given? && req.userType.Given?
  {
    User(id, req.email.value, hasher.hash(req.password.value, salt), req.name.value, req.userType.value, None, now, now)
  }

  /** The `users` table. */
  class UserTable {
    var rows: map<Id, User>
    var nextId: Id
    var clock: nat

    ghost predicate Valid()
      reads this
    {
      && (forall k :: k in rows ==> k < nextId && rows[k].id == k && rows[k].createdAt <= rows[k].updatedAt <= clock)
      && UniqueEmails(rows)
    }

    constructor ()
      ensures Valid() && rows == map[]
    {
      rows, nextId, clock := map[], 0, 0;
    }

    /** `POST /register`: validate, refuse a taken email with 409, otherwise
        insert one row holding the hash and answer 201 with the public fields. */
    method Register(req: RegisterRequest, salt: nat, hasher: Hasher) returns (r: Response<PublicUser>)
      requires Valid()
      modifies this
      ensures Valid()
      ensures RegisterCheck(old(rows), req).Some? ==>
                r == Err(RegisterCheck(old(rows), req).value) && unchanged(this)
      ensures RegisterCheck(old(rows), req).None? ==>
                && old(nextId) !in old(rows)
                && nextId == old(nextId) + 1 && clock == old(clock) + 1
                && rows == old(rows)[old(nextId) := NewUser(old(nextId), req, salt, hasher, clock)]
                && r == Ok(201, Public(rows[old(nextId)]))
    {
      var check := RegisterCheck(rows, req);
      if check.Some? {
        return Err(check.value);
      }
      var id := nextId;
      clock := clock + 1;
      var user := NewUser(id, req, salt, hasher, clock);
      rows := rows[id := user];
      nextId := nextId + 1;
      r := Ok(201, Public(user));
    }
  }

  /** `POST /login`. `matches` stands for `bcrypt.compare`. */
  function Login(rows: map<Id, User>, req: LoginRequest, matches: (string, string) -> bool): (r: Response<Session>)
    ensures !(Filled(req.email) && Filled(req.password)) ==> r == Err(BadRequest("Email and password are required."))
    ensures Filled(req.email) && Filled(req.password) && r.Err? ==> r == Err(Unauthorized(INVALID_CREDENTIALS))
    ensures r.Ok? ==> exists k :: k in rows && rows[k].email == req.email.value
                                && matches(req.password.value, rows[k].passwordHash)
                                && r == Ok(200, Session(Jwt(Identity(rows[k].id, rows[k].userType), EXPIRES_IN), Public(rows[k])))
    ensures UniqueEmails(rows) && Filled(req.email) && Filled(req.password)
            && (exists k :: k in rows && rows[k].email == req.email.value && matches(req.password.value, rows[k].passwordHash))
            ==> r.Ok?
  {
    if !Filled(req.email) || !Filled(req.password) then
      Err(BadRequest("Email and password are required."))
    else
      match FindByEmail(rows, req.email.value)
      case None => Err(Unauthorized(INVALID_CREDENTIALS))
      case Some(k) =>
        if !matches(req.password.value, rows[k].passwordHash) then
          Err(Unauthorized(INVALID_CREDENTIALS))
        else
          Ok(200, Session(Jwt(Identity(rows[k].id, rows[k].userType), EXPIRES_IN), Public(rows[k])))
  }

  /** An unknown email and a wrong password are answered identically. */
  lemma NoUserExistenceLeak(rows: map<Id, User>, email: string, password: string, matches: (string, string) -> bool, k: Id)
    requires email != "" && password != ""
    requires UniqueEmails(rows) && k in rows && rows[k].email == email && !matches(password, rows[k].passwordHash)
    ensures Login(rows, LoginRequest(Given(email), Given(password)), matches)
         == Login(map[], LoginRequest(Given(email), Given(password)), matches)
  {
  }

  /** A registration followed by a login with the same email and password
      yields a token for the new row's id and user type. */
  lemma RegisterThenLogin(rows: map<Id, User>, id: Id, req: RegisterRequest, salt: nat, hasher: Hasher, now: nat)
    requires UniqueEmails(rows) && id !in rows
    requires RegisterCheck(rows, req).None?
    requires Sound(hasher)
    ensures var u := NewUser(id, req, salt, hasher, now);
            Login(rows[id := u], LoginRequest(req.email, req.password), hasher.matches)
            == Ok(200, Session(Jwt(Identity(id, req.userType.value), EXPIRES_IN), PublicUser(id, req.email.value, req.name.value, req.userType.value)))
  {
    var u := NewUser(id, req, salt, hasher, now);
    var after := rows[id := u];
    assert hasher.matches(req.password.value, hasher.hash(req.password.value, salt));
    assert FindByEmail(after, req.email.value) == Some(id);
  }

  /** Once an email is registered, registering it again is refused with 409. */
  lemma RegisterTwiceConflicts(rows: map<Id, User>, id: Id, req: RegisterRequest, again: RegisterRequest, salt: nat, hasher: Hasher, now: nat)
    requires RegisterCheck(rows, req).None?
    requires Filled(again.password) && Filled(again.name) && Filled(again.userType)
    requires again.userType.value == DONOR || again.userType.value == ORGANIZATION
    requires again.email == req.email
    ensures RegisterCheck(rows[id := NewUser(id, req, salt, hasher, now)], again)
            == Some(Conflict("User with this email already exists."))
  {
    var after := rows[id := NewUser(id, req, salt, hasher, now)];
    assert after[id].email == again.email.value;
  }
}
