/** What a handler sends back: a status code with a JSON body, or with an `{ error }` body. */
module Http {

  datatype Response<T> = Json(status: int, body: T) | Error(status: int, error: string)

  const OK := 200
  const Created := 201
  const BadRequest := 400
  const Unauthorized := 401
  const NotFound := 404
  const InternalServerError := 500
}
