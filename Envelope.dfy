/**
  The one translation every resource service applies to what its repository
  returns: a storage error becomes `AppError.DbError`, a missing row on a
  read becomes `AppError.NotFound`, and any row that comes back is projected
  and wrapped in a "success" envelope.
*/
module Envelope {
  import opened Wrappers
  import opened Errors
  import opened Domain

  /** One envelope per item, in the order of the items. */
  function Envelopes<M, R>(items: seq<M>, project: M -> R, message: string): (r: seq<ApiResponse<R>>)
    ensures |r| == |items|
    ensures forall i | 0 <= i < |items| :: r[i] == Success(message, project(items[i]))
  {
    if items == [] then []
    else [Success(message, project(items[0]))] + Envelopes(items[1..], project, message)
  }

  /** The answer of a list query. */
  function ListAll<M, R>(found: Result<seq<M>, DbErr>, project: M -> R, message: string)
    : Result<seq<ApiResponse<R>>, AppError>
  {
    match found
    case Err(e) => Err(DbError(e))
    case Ok(items) => Ok(Envelopes(items, project, message))
  }

  /** The answer of a read by key: absence is an error, so `Ok(None)` is never produced. */
  function ReadOne<M, R>(found: Result<Option<M>, DbErr>, project: M -> R, message: string, missing: string)
    : Result<Option<ApiResponse<R>>, AppError>
  {
    match found
    case Err(e) => Err(DbError(e))
    case Ok(None) => Err(NotFound(missing))
    case Ok(Some(row)) => Ok(Some(Success(message, project(row))))
  }

  /** The answer of a create. */
  function Written<M, R>(done: Result<M, DbErr>, project: M -> R, message: string)
    : Result<ApiResponse<R>, AppError>
  {
    match done
    case Err(e) => Err(DbError(e))
    case Ok(row) => Ok(Success(message, project(row)))
  }

  /** The answer of an update: on success it is always `Some`. */
  function Updated<M, R>(done: Result<M, DbErr>, project: M -> R, message: string)
    : Result<Option<ApiResponse<R>>, AppError>
  {
    match done
    case Err(e) => Err(DbError(e))
    case Ok(row) => Ok(Some(Success(message, project(row))))
  }

  /** The answer of a delete: unit data. */
  function Deleted(done: Result<(), DbErr>, message: string): Result<ApiResponse<()>, AppError>
  {
    match done
    case Err(e) => Err(DbError(e))
    case Ok(_) => Ok(Success(message, ()))
  }
}
