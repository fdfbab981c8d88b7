/**
 * The failures a request handler can raise: NestJS's `HttpException`
 * (a status and a response message), Zod's `ZodError` (raised by schema
 * validation, carrying the names of the offending fields) and any other
 * error, which only has a message.
 */
module Exceptions {

  datatype Failure =
    | HttpException(status: int, response: string)
    | ZodError(issues: seq<string>)
    | OtherError(message: string)

  /** Raised by registration when the username is taken. */
  const UsernameTaken: Failure := HttpException(400, "Username already exists")

  /** Raised by login for an unknown username and for a wrong password alike. */
  const InvalidCredentials: Failure := HttpException(401, "Username or password is invalid")

  /** Raised by the `Auth` guard when the request carries no identity. */
  const Unauthorized: Failure := HttpException(401, "Unauthorized")
}
