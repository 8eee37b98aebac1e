/** The error values that cross the repository and service boundaries. */
module Errors {

  /** Storage errors as the ORM reports them; the services never look inside one. */
  datatype DbErr =
    | RecordNotFound(message: string)
    | Exec(message: string)
    | Query(message: string)

  /** Whatever the password hasher reports when it cannot hash or cannot match. */
  datatype HashError = HashError(reason: string)

  /** The application error, restricted to the variants the services construct. */
  datatype AppError =
    | DbError(dbErr: DbErr)
    | NotFound(message: string)
    | EmailAlreadyExists
    | HashingError(hashErr: HashError)
    | InvalidCredentials
}
