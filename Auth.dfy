/**
  Registration, login and token verification over an in-memory user table
  keyed by email. The password hasher and the token configuration are
  records of the functions they offer, so that every property below holds
  whatever they compute; the salt a hash draws and the clock a token reads
  are explicit parameters.
*/
module Auth {
  import opened Wrappers
  import opened Errors
  import opened Domain

  /** The randomness one call of the hasher draws. */
  type Salt = nat

  /** The clock reading a token is issued or checked at. */
  type Time = int

  /** The password hasher; `comparePassword` fails on a mismatch or a malformed stored hash. */
  datatype Hashing = Hashing(
    hashPassword: (string, Salt) -> Result<string, HashError>,
    comparePassword: (string, string) -> Result<(), HashError>)

  /** The session-token configuration. */
  datatype JwtConfig = JwtConfig(
    generateToken: (int, Time) -> Result<string, AppError>,
    verifyToken: (string, Time) -> Result<int, AppError>)

  /** A call registration makes on a collaborator, recorded in the order made. */
  datatype Step =
    | CheckEmail(email: string)
    | HashPassword(password: string)
    | CreateUser(request: CreateUserRequest)

  /** The user table, keyed by email. */
  class UserTable {
    var users: map<string, User>
    var nextId: int

    /** Each user is stored under its own email, and ids are below the next one and pairwise distinct. */
    ghost predicate Valid()
      reads this
    {
      && (forall e | e in users :: users[e].email == e && users[e].id < nextId)
      && (forall e1, e2 | e1 in users && e2 in users && e1 != e2 :: users[e1].id != users[e2].id)
    }

    constructor ()
      ensures Valid() && users == map[] && nextId == 1
    {
      users := map[];
      nextId := 1;
    }

    function FindByEmailExists(email: string): (b: bool)
      reads this
    {
      email in users
    }

    /**
      The user stored under that email. Thanks to the table invariant it is the
      one user with that email, and its id is already handed out and belongs to
      no other user.
    */
    function FindByEmail(email: string): (r: Option<User>)
      reads this
      requires Valid()
      ensures r.Some? <==> email in users
      ensures r.Some? ==> r.value == users[email]
      ensures r.Some? ==>
        && r.value.email == email
        && r.value.id < nextId
        && forall e | e in users && e != email :: users[e].id != r.value.id
    {
      if email in users then Some(users[email]) else None
    }

    /** Inserts a user under a fresh id; an email already present violates its uniqueness and changes nothing. */
    method CreateUser(input: CreateUserRequest) returns (r: Result<User, DbErr>)
      requires Valid()
      modifies this
      ensures Valid()
      ensures input.email in old(users) ==>
        r.Err? && r.error.Exec? && users == old(users) && nextId == old(nextId)
      ensures input.email !in old(users) ==>
        && r == Ok(User(old(nextId), input.firstname, input.lastname, input.email, input.password))
        && users == old(users)[input.email := r.value]
        && nextId == old(nextId) + 1
    {
      if input.email in users {
        return Err(Exec("duplicate key value violates unique constraint on email"));
      }
      var user := User(nextId, input.firstname, input.lastname, input.email, input.password);
      users := users[input.email := user];
      nextId := nextId + 1;
      r := Ok(user);
    }
  }

  class AuthService {
    const repository: UserTable
    const hashing: Hashing
    const jwtConfig: JwtConfig

    constructor (repository: UserTable, hashing: Hashing, jwtConfig: JwtConfig)
      ensures this.repository == repository && this.hashing == hashing && this.jwtConfig == jwtConfig
    {
      this.repository := repository;
      this.hashing := hashing;
      this.jwtConfig := jwtConfig;
    }

    /**
      Checks the email, then hashes, then creates. A taken email stops at the
      check; a hashing failure stops before anything is stored; otherwise the
      stored user carries the hash in place of the password.
    */
    method RegisterUser(input: RegisterRequest, salt: Salt) returns (r: Result<ApiResponse<UserResponse>, AppError>, ghost steps: seq<Step>)
      requires repository.Valid()
      modifies repository
      ensures repository.Valid()
      ensures input.email in old(repository.users) ==>
        && r == Err(EmailAlreadyExists)
        && steps == [CheckEmail(input.email)]
        && unchanged(repository)
      ensures input.email !in old(repository.users) && hashing.hashPassword(input.password, salt).Err? ==>
        && r == Err(HashingError(hashing.hashPassword(input.password, salt).error))
        && steps == [CheckEmail(input.email), HashPassword(input.password)]
        && unchanged(repository)
      ensures input.email !in old(repository.users) && hashing.hashPassword(input.password, salt).Ok? ==>
        var request := CreateUserRequest(input.firstname, input.lastname, input.email, hashing.hashPassword(input.password, salt).value);
        var user := User(old(repository.nextId), input.firstname, input.lastname, input.email, request.password);
        && steps == [CheckEmail(input.email), HashPassword(input.password), CreateUser(request)]
        && repository.users == old(repository.users)[input.email := user]
        && repository.nextId == old(repository.nextId) + 1
        && r == Ok(ApiResponse("success", "User registered successfully", FromUser(user)))
    {
      var taken := repository.FindByEmailExists(input.email);
      steps := [CheckEmail(input.email)];
      if taken {
        r := Err(EmailAlreadyExists);
        return;
      }
      var hashed := hashing.hashPassword(input.password, salt);
      steps := steps + [HashPassword(input.password)];
      if hashed.Err? {
        r := Err(HashingError(hashed.error));
        return;
      }
      var request := CreateUserRequest(input.firstname, input.lastname, input.email, hashed.value);
      steps := steps + [CreateUser(request)];
      var created := repository.CreateUser(request);
      if created.Err? {
        // The email was free at the check and nothing ran since: only a
        // concurrent registration could make the insert fail here.
        assert false;
      }
      r := Ok(ApiResponse("success", "User registered successfully", FromUser(created.value)));
    }

    /**
      Looks the email up, compares the password, issues a token. An unknown
      email is `NotFound`, a failed comparison is `InvalidCredentials`, and a
      success carries the token of the user found.
    */
    function LoginUser(input: LoginRequest, now: Time): (r: Result<ApiResponse<string>, AppError>)
      reads repository
      requires repository.Valid()
      ensures input.email !in repository.users ==> r == Err(NotFound("User not found"))
      ensures input.email in repository.users &&
              hashing.comparePassword(repository.users[input.email].password, input.password).Err? ==>
        r == Err(InvalidCredentials)
      ensures r.Ok? <==>
        && input.email in repository.users
        && hashing.comparePassword(repository.users[input.email].password, input.password).Ok?
        && jwtConfig.generateToken(repository.users[input.email].id, now).Ok?
      ensures r.Ok? ==>
        && r.value.status == "success"
        && r.value.message == "Login successful"
        && r.value.data == jwtConfig.generateToken(repository.users[input.email].id, now).value
      ensures input.email in repository.users &&
              hashing.comparePassword(repository.users[input.email].password, input.password).Ok? &&
              jwtConfig.generateToken(repository.users[input.email].id, now).Err? ==>
        r == Err(jwtConfig.generateToken(repository.users[input.email].id, now).error)
      ensures r.Ok? ==>
        var user := repository.users[input.email];
        && user.email == input.email
        && forall e | e in repository.users && e != input.email :: repository.users[e].id != user.id
    {
      match repository.FindByEmail(input.email)
      case None => Err(NotFound("User not found"))
      case Some(user) =>
        if hashing.comparePassword(user.password, input.password).Err? then Err(InvalidCredentials)
        else
          match jwtConfig.generateToken(user.id, now)
          case Err(e) => Err(e)
          case Ok(token) => Ok(Success("Login successful", token))
    }

    /** Pure delegation to the token configuration. */
    function VerifyToken(token: string, now: Time): (r: Result<int, AppError>)
      ensures r == jwtConfig.verifyToken(token, now)
    {
      jwtConfig.verifyToken(token, now)
    }
  }

  /**
    Registration followed by logins: the right password gets a token for the
    new user's id, a wrong one is rejected, and registering the same email
    again is refused without touching the first user.
  */
  method RegisterThenLogin(auth: AuthService, input: RegisterRequest, salt: Salt, wrong: string, now: Time)
    returns (registered: Result<ApiResponse<UserResponse>, AppError>,
             accepted: Result<ApiResponse<string>, AppError>,
             rejected: Result<ApiResponse<string>, AppError>,
             again: Result<ApiResponse<UserResponse>, AppError>)
    requires auth.repository.Valid()
    requires input.email !in auth.repository.users
    requires auth.hashing.hashPassword(input.password, salt).Ok?
    requires auth.hashing.comparePassword(auth.hashing.hashPassword(input.password, salt).value, input.password).Ok?
    requires auth.hashing.comparePassword(auth.hashing.hashPassword(input.password, salt).value, wrong).Err?
    requires auth.jwtConfig.generateToken(auth.repository.nextId, now).Ok?
    modifies auth.repository
    ensures registered.Ok? && registered.value.data.email == input.email && registered.value.data.id == old(auth.repository.nextId)
    ensures registered.Ok? && accepted.Ok? && accepted.value.data == auth.jwtConfig.generateToken(registered.value.data.id, now).value
    ensures rejected == Err(InvalidCredentials)
    ensures again == Err(EmailAlreadyExists)
    ensures input.email in auth.repository.users
    ensures auth.repository.users[input.email] ==
      User(old(auth.repository.nextId), input.firstname, input.lastname, input.email,
           auth.hashing.hashPassword(input.password, salt).value)
    ensures auth.repository.users == old(auth.repository.users)[input.email := auth.repository.users[input.email]]
  {
    ghost var steps;
    registered, steps := auth.RegisterUser(input, salt);
    accepted := auth.LoginUser(LoginRequest(input.email, input.password), now);
    rejected := auth.LoginUser(LoginRequest(input.email, wrong), now);
    again, steps := auth.RegisterUser(input, salt);
  }
}
