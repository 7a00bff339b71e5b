/** Shared vocabulary of the two-tier cache: bytes, Go's fixed-width integers,
    optional values, results and the errors the core can return. */
module Base {

  /** One octet of a Go []byte or string. */
  type byte = x: int | 0 <= x < 256

  /** Go's int64 and uint64. */
  type int64 = x: int | -0x8000_0000_0000_0000 <= x < 0x8000_0000_0000_0000
  type uint64 = x: int | 0 <= x < 0x1_0000_0000_0000_0000

  predicate InInt64(x: int) {
    -0x8000_0000_0000_0000 <= x < 0x8000_0000_0000_0000
  }

  datatype Option<+T> = None | Some(value: T)

  /** A Go `(value, error)` pair: `Failure(e)` stands for the zero value
      returned together with a non-nil error `e`. */
  datatype Result<+T> = Success(value: T) | Failure(error: Error)

  datatype Error =
    | NotFound              // GET of a missing key (go-redis reports it as redis.Nil)
    | Unavailable(reason: string)  // a network or service failure of one attempt
    | NotInteger            // INCRBY on a value that is not a decimal int64
    | Overflow              // INCRBY whose result leaves the int64 range
    | Unencodable           // the structured-serialization fallback of encode failed
    | NotBytes              // GetProto found a value that is not a byte slice
}
