/** The account service: registration, login, session re-validation and the
    error classifier of `AuthService`. The password hasher and the token
    signer are parameters; registration stores users in an in-memory copy of
    the user collection. */
module Auth {
  import opened Store
  import opened Errors

  datatype User = User(
    id: Id,
    username: string,
    email: string,
    password: string,  // the bcrypt digest, never the plaintext
    isActive: bool,
    createdAt: int,
    updatedAt: int)

  /** A user as `toJSON()` shows it once `password` has been destructured away. */
  datatype PublicUser = PublicUser(
    id: Id,
    username: string,
    email: string,
    isActive: bool,
    createdAt: int,
    updatedAt: int)

  datatype CreateAuthDto = CreateAuthDto(username: string, password: string, email: string)

  datatype LoginAuthDto = LoginAuthDto(email: string, password: string)

  /** The claims the session token is signed over. */
  datatype JwtPayload = JwtPayload(id: Id, username: string, email: string)

  datatype LoginUser = LoginUser(id: Id, username: string, email: string, isActive: bool)

  datatype LoginResponse = LoginResponse(user: LoginUser, token: string)

  /** bcrypt as the service uses it: `hash(plaintext, salt)` stands for
      `hashSync(plaintext, 10)` with the salt it draws, and `verify` for
      `compareSync(plaintext, digest)`. */
  datatype Hasher = Hasher(hash: (string, nat) -> string, verify: (string, string) -> bool)

  /** The idealised hasher: a digest verifies exactly the plaintext it was made from. */
  ghost predicate Ideal(h: Hasher)
  {
    forall p, q, salt :: h.verify(p, h.hash(q, salt)) <==> p == q
  }

  /** `jwtService.sign` with its configured secret, expiry and clock; `None`
      stands for a signing call that throws. */
  type Signer = JwtPayload -> Option<string>

  /** The `@IsEmail()` shape reduced to what every accepted address has:
      a non-empty local part, an '@' and a non-empty domain. */
  predicate EmailShaped(email: string)
  {
    exists i :: 0 < i < |email| - 1 && email[i] == '@'
  }

  /** The decorators on `CreateAuthDto`, as the validation pipe enforces them. */
  predicate ValidRegistration(dto: CreateAuthDto)
  {
    && |dto.username| >= 4
    && |dto.password| >= 6
    && EmailShaped(dto.email)
  }

  function Strip(u: User): PublicUser
  {
    PublicUser(u.id, u.username, u.email, u.isActive, u.createdAt, u.updatedAt)
  }

  /** Some user, active or not, already holds `email`. */
  predicate EmailTaken(users: map<Id, User>, email: string)
  {
    exists id :: id in users && users[id].email == email
  }

  /** Every record is stored under its own id. */
  ghost predicate KeysMatch(users: map<Id, User>)
  {
    forall id :: id in users ==> users[id].id == id
  }

  /** No two records share an email. */
  ghost predicate EmailsUnique(users: map<Id, User>)
  {
    forall a, b :: a in users && b in users && users[a].email == users[b].email ==> a == b
  }

  /** `handleDBErrors` of the account service: a duplicate key and a schema
      validation failure are bad requests, everything else, including any
      HTTP exception the service threw itself inside the `try`, is an
      internal error. */
  function HandleDbErrors(e: Thrown): (r: HttpError)
    ensures e == StoreFault(DuplicateKey) ==> r == BadRequest("Email already exists in the database")
    ensures e.StoreFault? && e.fault.ValidationError? ==> r == BadRequest(e.fault.message)
    ensures r.BadRequest? <==> e.StoreFault? && !e.fault.OtherFault?
    ensures !r.BadRequest? ==> r == InternalServerError(CheckLogs)
    ensures e.Http? ==> r == InternalServerError(CheckLogs)
  {
    match e
    case StoreFault(DuplicateKey) => BadRequest("Email already exists in the database")
    case StoreFault(ValidationError(message)) => BadRequest(message)
    case _ => InternalServerError(CheckLogs)
  }

  /** The record `create` builds from the request: the password replaced by
      its digest, the account active, both timestamps set to `now`. */
  function NewUser(dto: CreateAuthDto, digest: string, id: Id, now: int): User
  {
    User(id, dto.username, dto.email, digest, true, now, now)
  }

  /** The user collection behind `AuthService`. */
  class AuthService {
    var users: map<Id, User>

    ghost predicate Valid()
      reads this
    {
      KeysMatch(users) && EmailsUnique(users)
    }

    constructor (users: map<Id, User>)
      requires KeysMatch(users) && EmailsUnique(users)
      ensures Valid() && this.users == users
    {
      this.users := users;
    }

    /** `create`: register a user. `readFault` and `writeFault` are the faults
        (if any) raised by the duplicate-email query and by `save()`; `newId`
        is the id the store assigns, `salt` the salt bcrypt draws and `now`
        the clock. */
    method Create(dto: CreateAuthDto, hasher: Hasher, salt: nat, newId: Id, now: int,
                  readFault: Option<DbFault>, writeFault: Option<DbFault>)
      returns (r: Result<PublicUser>)
      requires Valid()
      requires ValidRegistration(dto)
      requires newId !in users
      modifies this
      ensures Valid()
      ensures r.Ok? <==> readFault.None? && !EmailTaken(old(users), dto.email) && writeFault.None?
      ensures r.Ok? ==> users == old(users)[newId := NewUser(dto, hasher.hash(dto.password, salt), newId, now)]
      ensures r.Ok? ==> r.value == Strip(users[newId])
      ensures r.Err? ==> users == old(users)
      ensures readFault.Some? ==> r == Err(HandleDbErrors(StoreFault(readFault.value)))
      ensures readFault.None? && EmailTaken(old(users), dto.email) ==> r == Err(InternalServerError(CheckLogs))
      ensures readFault.None? && !EmailTaken(old(users), dto.email) && writeFault.Some? ==>
                r == Err(HandleDbErrors(StoreFault(writeFault.value)))
    {
      if readFault.Some? {
        r := Err(HandleDbErrors(StoreFault(readFault.value)));
        return;
      }
      if EmailTaken(users, dto.email) {
        r := Err(HandleDbErrors(Http(BadRequest("Email already registered"))));
        return;
      }
      var user := NewUser(dto, hasher.hash(dto.password, salt), newId, now);
      if writeFault.Some? {
        r := Err(HandleDbErrors(StoreFault(writeFault.value)));
        return;
      }
      users := users[newId := user];
      r := Ok(Strip(user));
    }
  }

  /** `findOne({ email, isActive: true })`: some active user holding `email`,
      if there is one. */
  ghost function FindActiveByEmail(users: map<Id, User>, email: string): (found: Option<Id>)
    ensures found.Some? <==> exists id :: id in users && users[id].email == email && users[id].isActive
    ensures found.Some? ==> found.value in users && users[found.value].email == email && users[found.value].isActive
  {
    if exists id :: id in users && users[id].email == email && users[id].isActive then
      var id :| id in users && users[id].email == email && users[id].isActive;
      Some(id)
    else None
  }

  /** `getJwtToken`: a signing failure becomes an internal error with a fixed
      message. */
  function GetJwtToken(payload: JwtPayload, sign: Signer): (r: Result<string>)
    ensures r.Err? <==> sign(payload).None?
    ensures r.Err? ==> r.error == InternalServerError("Error during login process")
    ensures r.Ok? ==> r.value == sign(payload).value
  {
    match sign(payload)
    case None => Err(InternalServerError("Error during login process"))
    case Some(token) => Ok(token)
  }

  /** `login`: find an active user by email, check the password, and answer
      with the public part of the user and a token signed over its id,
      username and email. */
  ghost function Login(users: map<Id, User>, dto: LoginAuthDto, hasher: Hasher, sign: Signer)
    : (r: Result<LoginResponse>)
    ensures (forall id :: id in users && users[id].email == dto.email ==> !users[id].isActive) ==>
              r == Err(Unauthorized("Invalid credentials"))
    ensures r.Err? ==> (r.error == Unauthorized("Invalid credentials")
                        || r.error == InternalServerError("Error during login process"))
    ensures r == Err(InternalServerError("Error during login process")) ==>
              exists id :: id in users && users[id].email == dto.email && users[id].isActive
                           && hasher.verify(dto.password, users[id].password)
                           && sign(JwtPayload(users[id].id, users[id].username, users[id].email)).None?
    ensures r.Ok? ==> exists id :: id in users && users[id].email == dto.email && users[id].isActive
                                 && hasher.verify(dto.password, users[id].password)
                                 && r.value.user == LoginUser(users[id].id, users[id].username, users[id].email, true)
                                 && sign(JwtPayload(users[id].id, users[id].username, users[id].email))
                                    == Some(r.value.token)
  {
    match FindActiveByEmail(users, dto.email)
    case None => Err(Unauthorized("Invalid credentials"))
    case Some(id) =>
      var u := users[id];
      if !hasher.verify(dto.password, u.password) then Err(Unauthorized("Invalid credentials"))
      else
        match GetJwtToken(JwtPayload(u.id, u.username, u.email), sign)
        case Err(e) => Err(e)
        case Ok(token) => Ok(LoginResponse(LoginUser(u.id, u.username, u.email, u.isActive), token))
  }

  /** `validateUser`: the stored user when it exists and is active; every
      other outcome, a store fault included, is a bare 401. */
  function ValidateUser(users: map<Id, User>, id: Id, fault: Option<DbFault>): (r: Result<User>)
    ensures r.Ok? <==> fault.None? && id in users && users[id].isActive
    ensures r.Ok? ==> r.value == users[id] && r.value.isActive
    ensures r.Err? ==> r.error == Unauthorized("Unauthorized")
  {
    if fault.Some? || id !in users || !users[id].isActive then Err(Unauthorized("Unauthorized"))
    else Ok(users[id])
  }

  /** With unique emails, login succeeds exactly when the one active user
      holding the email verifies the password and the token can be signed. */
  lemma LoginSucceedsIff(users: map<Id, User>, dto: LoginAuthDto, hasher: Hasher, sign: Signer, id: Id)
    requires EmailsUnique(users)
    requires id in users && users[id].email == dto.email
    ensures Login(users, dto, hasher, sign).Ok? <==>
              users[id].isActive && hasher.verify(dto.password, users[id].password)
              && sign(JwtPayload(users[id].id, users[id].username, users[id].email)).Some?
  {
    var found := FindActiveByEmail(users, dto.email);
    if found.Some? {
      assert found.value == id;
    }
  }

  /** An unknown email, an inactive account and a wrong password are
      indistinguishable to the caller. */
  lemma LoginFailuresIndistinguishable(users: map<Id, User>, dto: LoginAuthDto, hasher: Hasher, sign: Signer)
    requires forall id :: id in users && users[id].email == dto.email ==>
               !users[id].isActive || !hasher.verify(dto.password, users[id].password)
    ensures Login(users, dto, hasher, sign) == Err(Unauthorized("Invalid credentials"))
  {
    var found := FindActiveByEmail(users, dto.email);
    if found.Some? {
      assert !hasher.verify(dto.password, users[found.value].password);
    }
  }

  /** A holder of the email who is active and gives the right password, but
      whose token cannot be signed, gets the signing error, not a 401. */
  lemma LoginSigningFailure(users: map<Id, User>, dto: LoginAuthDto, hasher: Hasher, sign: Signer, id: Id)
    requires EmailsUnique(users)
    requires id in users && users[id].email == dto.email && users[id].isActive
    requires hasher.verify(dto.password, users[id].password)
    requires sign(JwtPayload(users[id].id, users[id].username, users[id].email)).None?
    ensures Login(users, dto, hasher, sign) == Err(InternalServerError("Error during login process"))
  {
    var found := FindActiveByEmail(users, dto.email);
    assert found.Some?;
    assert found.value == id;
  }

  /** Once registered, a user logs in with the registered password, and with
      no other, given an ideal hasher and a working signer. */
  lemma {:induction false} RegisterThenLogin(users: map<Id, User>, dto: CreateAuthDto, hasher: Hasher,
                                             salt: nat, newId: Id, now: int, password: string, sign: Signer)
    requires EmailsUnique(users) && newId !in users && !EmailTaken(users, dto.email)
    requires Ideal(hasher)
    requires sign(JwtPayload(newId, dto.username, dto.email)).Some?
    ensures var stored := users[newId := NewUser(dto, hasher.hash(dto.password, salt), newId, now)];
            var r := Login(stored, LoginAuthDto(dto.email, password), hasher, sign);
            && (r.Ok? <==> password == dto.password)
            && (r.Ok? ==> r.value.user == LoginUser(newId, dto.username, dto.email, true))
            && (r.Err? ==> r.error == Unauthorized("Invalid credentials"))
  {
    var stored := users[newId := NewUser(dto, hasher.hash(dto.password, salt), newId, now)];
    assert forall x :: x in users ==> users[x].email != dto.email;
    assert EmailsUnique(stored) by {
      forall a, b | a in stored && b in stored && stored[a].email == stored[b].email
        ensures a == b
      {
        if a != newId && b != newId {
          assert users[a].email == users[b].email;
        }
      }
    }
    assert hasher.verify(password, hasher.hash(dto.password, salt)) <==> password == dto.password;
    LoginSucceedsIff(stored, LoginAuthDto(dto.email, password), hasher, sign, newId);
    var found := FindActiveByEmail(stored, dto.email);
    assert found == Some(newId);
  }
}
