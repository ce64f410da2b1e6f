/** Types shared by the model's modules: the request cache's keys and values. */
module Common {

  datatype Option<+T> = None | Some(value: T)

  type Bytes = seq<bv8>

  /** The full cache key: user, actual path, verb and the Idempotency-Key header. */
  datatype CacheKey = CacheKey(userID: string, path: string, httpVerb: string, requestID: string)

  /** What a response is replayed from: body, status code and content type. */
  datatype Payload = Payload(response: Bytes, statusCode: int, contentType: string)

  datatype CacheValue = CacheValue(payload: Payload, createdAt: int)

  /** One row of the request_cache table, without its key. */
  datatype Row = Row(payload: Payload, createdAt: int, expiresAt: int)

  function Max(a: int, b: int): int {
    if a >= b then a else b
  }
}
