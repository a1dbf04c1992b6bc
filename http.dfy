/** What a handler writes to its `http.ResponseWriter`.

    A handler may write several times; net/http sends the status of the FIRST
    write and ignores later status codes (a "superfluous WriteHeader"), while
    the bodies are appended. A handler that writes nothing answers 200 with an
    empty body. */
module Http {

  const STATUS_OK := 200
  const STATUS_BAD_REQUEST := 400
  const STATUS_UNAUTHORIZED := 401
  const STATUS_NOT_FOUND := 404
  const STATUS_METHOD_NOT_ALLOWED := 405
  const STATUS_INTERNAL_SERVER_ERROR := 500

  /** One write: `http.Error(w, message, status)` or a JSON document sent
      with `status` (an `Encode` without an explicit `WriteHeader` sends 200). */
  datatype Write<+D> =
    | ErrorText(status: int, message: string)
    | JsonBody(status: int, doc: D)

  type Response<D> = seq<Write<D>>

  /** The status code the client receives. */
  function Status<D>(r: Response<D>): int {
    if r == [] then STATUS_OK else r[0].status
  }
}
