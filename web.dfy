/** What a controller handler answers: 200 with a body, or 404 with none. */
module Web {
  datatype Response<T> = Ok(body: T) | NotFound
}
