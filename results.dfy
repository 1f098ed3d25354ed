/** The error values of the post core and the shapes of Go's `(value, error)`
    returns. */
module Results {

  /** Every error the modelled code can return or pass on. The first three are
      the sentinel errors of config/constants.go; the others stand for errors
      raised inside the BSON and driver libraries. */
  datatype Error =
    | EmptyTitle                 // config.ErrEmptyTitle
    | EmptyContent               // config.ErrEmptyContent
    | PostNotFound               // config.ErrPostNotFound
    | InvalidHex                 // bson.ErrInvalidHex: an id whose length is not 24
    | InvalidHexByte(c: char)    // hex.InvalidByteError: the first non-hex character
    | DecodeMismatch(key: string)  // a document field of the wrong BSON type
    | DuplicateKey               // an insert whose _id is already stored
    | Other(message: string)     // any other error, e.g. errors.New("fail") in a test double

  /** `(T, error)`: a value when the error is nil, otherwise the error. */
  datatype Result<+T> = Ok(value: T) | Err(error: Error)

  /** A bare `error` return: nil (`Pass`) or an error. */
  datatype Outcome = Pass | Fail(error: Error)

  /** A Go pointer that may be nil. */
  datatype Option<+T> = None | Some(value: T)
}
