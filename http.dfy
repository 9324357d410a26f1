/** What a request handler gives back: the HTTP status code and, for the
    handlers that serialise a record, the record it serialises. */
module Http {

  datatype Option<T> = None | Some(value: T) {
    /** The value, or `default` when absent (Python's `dict.get(key, default)`). */
    function GetOr(default: T): T {
      match this
      case Some(v) => v
      case None => default
    }
  }

  /** A float column (`cost`, `price`). The model never computes with it. */
  datatype Float = Float(bits: bv64)

  const OK := 200
  const CREATED := 201
  const BAD_REQUEST := 400
  const UNAUTHORIZED := 401
  const NOT_FOUND := 404
  const CONFLICT := 409
  const UNPROCESSABLE := 422

  /** `body` is `None` when the handler answers with a message or error map only. */
  datatype Response<T> = Response(status: int, body: Option<T>)
}
