/**
  The user service: user management outside registration and login. Each
  operation is one call on the user repository, translated into an envelope
  holding the public projection of the user, or an `AppError`.
*/
module UserService {
  import opened Wrappers
  import opened Errors
  import opened Domain
  import opened Format
  import Envelope

  datatype UserRepository = UserRepository(
    findByEmailExists: string -> Result<bool, DbErr>,
    createUser: CreateUserRequest -> Result<User, DbErr>,
    findByEmail: string -> Result<Option<User>, DbErr>,
    findById: int -> Result<Option<User>, DbErr>,
    updateUser: UpdateUserRequest -> Result<User, DbErr>,
    deleteUser: string -> Result<(), DbErr>)

  function CreateUser(repo: UserRepository, input: CreateUserRequest): (r: Result<ApiResponse<UserResponse>, AppError>)
    ensures r.Ok? <==> repo.createUser(input).Ok?
    ensures repo.createUser(input).Err? ==> r == Err(DbError(repo.createUser(input).error))
    ensures r.Ok? ==>
      r.value.status == "success" &&
      r.value.message == "User created successfully" &&
      r.value.data == FromUser(repo.createUser(input).value)
  {
    Envelope.Written(repo.createUser(input), FromUser, "User created successfully")
  }

  /** The data is the repository's answer; the message says which answer it was. */
  function FindByEmailExists(repo: UserRepository, email: string): (r: Result<ApiResponse<bool>, AppError>)
    ensures r.Ok? <==> repo.findByEmailExists(email).Ok?
    ensures repo.findByEmailExists(email).Err? ==> r == Err(DbError(repo.findByEmailExists(email).error))
    ensures r.Ok? ==>
      r.value.status == "success" &&
      r.value.data == repo.findByEmailExists(email).value &&
      (r.value.message == "User exists" <==> r.value.data) &&
      (!r.value.data ==> r.value.message == "User does not exist")
  {
    match repo.findByEmailExists(email)
    case Err(e) => Err(DbError(e))
    case Ok(present) =>
      Ok(Success(if present then "User exists" else "User does not exist", present))
  }

  function FindUserByEmail(repo: UserRepository, email: string): (r: Result<Option<ApiResponse<UserResponse>>, AppError>)
    ensures r != Ok(None)
    ensures r.Ok? <==> repo.findByEmail(email).Ok? && repo.findByEmail(email).value.Some?
    ensures repo.findByEmail(email).Err? ==> r == Err(DbError(repo.findByEmail(email).error))
    ensures repo.findByEmail(email) == Ok(None) ==> r == Err(NotFound("User with email " + email + " not found"))
    ensures r.Ok? ==>
      r.value.value.status == "success" &&
      r.value.value.message == "User retrieved successfully" &&
      r.value.value.data == FromUser(repo.findByEmail(email).value.value)
  {
    Envelope.ReadOne(repo.findByEmail(email), FromUser, "User retrieved successfully",
                     "User with email " + email + " not found")
  }

  function FindById(repo: UserRepository, id: int): (r: Result<Option<ApiResponse<UserResponse>>, AppError>)
    ensures r != Ok(None)
    ensures r.Ok? <==> repo.findById(id).Ok? && repo.findById(id).value.Some?
    ensures repo.findById(id).Err? ==> r == Err(DbError(repo.findById(id).error))
    ensures repo.findById(id) == Ok(None) ==> r == Err(NotFound("User with id " + IntToString(id) + " not found"))
    ensures r.Ok? ==>
      r.value.value.status == "success" &&
      r.value.value.message == "User retrieved successfully" &&
      r.value.value.data == FromUser(repo.findById(id).value.value)
  {
    Envelope.ReadOne(repo.findById(id), FromUser, "User retrieved successfully",
                     "User with id " + IntToString(id) + " not found")
  }

  function UpdateUser(repo: UserRepository, input: UpdateUserRequest): (r: Result<Option<ApiResponse<UserResponse>>, AppError>)
    ensures r.Ok? <==> repo.updateUser(input).Ok?
    ensures r != Ok(None)
    ensures repo.updateUser(input).Err? ==> r == Err(DbError(repo.updateUser(input).error))
    ensures r.Ok? ==>
      r.value.value.status == "success" &&
      r.value.value.message == "User updated successfully" &&
      r.value.value.data == FromUser(repo.updateUser(input).value)
  {
    Envelope.Updated(repo.updateUser(input), FromUser, "User updated successfully")
  }

  function DeleteUser(repo: UserRepository, email: string): (r: Result<ApiResponse<()>, AppError>)
    ensures r.Ok? <==> repo.deleteUser(email).Ok?
    ensures repo.deleteUser(email).Err? ==> r == Err(DbError(repo.deleteUser(email).error))
    ensures r.Ok? ==> r.value.status == "success" && r.value.message == "User deleted successfully"
  {
    Envelope.Deleted(repo.deleteUser(email), "User deleted successfully")
  }

  /** The not-found message of a lookup by email names the email it was asked for. */
  lemma MissingEmailsAreDistinguished(repo: UserRepository, a: string, b: string)
    requires repo.findByEmail(a) == Ok(None) && repo.findByEmail(b) == Ok(None)
    ensures FindUserByEmail(repo, a) == FindUserByEmail(repo, b) <==> a == b
  {
    FramedInjective("User with email ", a, b, " not found");
  }

  /** The not-found message of a lookup by id names the id it was asked for. */
  lemma MissingIdsAreDistinguished(repo: UserRepository, a: int, b: int)
    requires repo.findById(a) == Ok(None) && repo.findById(b) == Ok(None)
    ensures FindById(repo, a) == FindById(repo, b) <==> a == b
  {
    FramedInjective("User with id ", IntToString(a), IntToString(b), " not found");
    IntToStringInjective(a, b);
  }
}
