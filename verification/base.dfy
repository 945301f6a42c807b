/** Shared vocabulary of the logging filter model: optional values (Java's
    nullable references), bytes, and the exceptions that can leave the filter. */
module Base {

  /** A nullable value: `None` stands for Java's `null`. */
  datatype Option<+T> = None | Some(value: T)

  /** One octet of a captured body. */
  newtype byte = x: int | 0 <= x < 256

  /** The exceptions the filter can raise or let through. Each stands for a
      JVM exception class; the payload says what caused it. */
  datatype Exception =
    | DownstreamException(id: nat)          // anything thrown by the rest of the filter chain
    | InvalidMediaType(contentType: string) // MediaType.valueOf on a malformed content type
    | NullContentType                       // a null content type where a String is required
    | CharsetLookupFailure                  // charset(name) on an illegal or unknown charset name
    | UnknownStatus(code: int)              // HttpStatus.valueOf on a code it has no constant for

  /** A computation that either yields a value or throws. */
  datatype Result<+T> = Ok(value: T) | Err(error: Exception)

  /** How a call finished: normally, or by throwing. */
  datatype Completion = Normal | Raised(exception: Exception)
}
