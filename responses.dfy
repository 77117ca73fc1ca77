/** Outcomes shared by every service: the optional values TypeORM returns from a
    lookup, and the exceptions a service throws, as a tagged result. */
module Responses {

  datatype Option<+T> = None | Some(value: T)

  /** The HTTP exceptions the services throw. `Failure` stands for every plain
      `Error` (a database constraint violation, a signing error, a relabelled
      image-host error); the HTTP layer reports those as status 500. */
  datatype Error =
    | Conflict(message: string)
    | NotFound(message: string)
    | Unauthorized(message: string)
    | Failure(message: string)

  datatype Result<+T> = Ok(value: T) | Err(error: Error)

  /** Postgres' reports of the two constraints the entities declare. */
  const UniqueViolation := "duplicate key value violates unique constraint"
  const NotNullViolation := "null value violates not-null constraint"

  /** TypeORM's refusal of an `update` that sets no column. */
  const UpdateValuesMissing := "Cannot perform update query because update values are not defined"
}
