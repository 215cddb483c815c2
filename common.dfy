/**
  Types shared by every part of the model: identifiers, bytes, the optional
  and result wrappers, and the first response a request handler sends.
 */
module Common {

  datatype Option<+T> = None | Some(value: T)

  datatype Result<+T, +E> = Ok(value: T) | Err(error: E)

  /** A MongoDB ObjectId. Users, tracks and GridFS files share one id space. */
  type ObjectId = nat

  /**
    An id as it arrives in a request: either it passes `ObjectID.isValid`
    and denotes an ObjectId, or it is malformed. Every valid spelling of one
    ObjectId (lower- or upper-case hex, a 12-character string) is the same
    `Valid` id here.
   */
  datatype RawId = Valid(id: ObjectId) | Malformed

  newtype byte = x: int | 0 <= x < 256

  datatype ErrorKind = Required | MaxLength | EnumMismatch | UserDefined

  /** One entry of a mongoose `ValidationError.errors` object. */
  datatype ValidatorError = ValidatorError(kind: ErrorKind, message: string)

  /**
    One value of an `errors` object in a response body: a plain text, or a
    whole validator error object copied in.
   */
  datatype ErrorEntry = Text(text: string) | ErrorObject(error: ValidatorError)

  /**
    The first response a handler sends: the HTTP status, the `message` of the
    JSON body (empty for a bare `sendStatus`), and the `errors` object that
    the user-update handler attaches (empty everywhere else).
   */
  datatype Response = Response(status: nat, message: string, errors: map<string, ErrorEntry>)

  function Reply(status: nat, message: string): Response
  {
    Response(status, message, map[])
  }

  /** JavaScript truthiness of an optional string field: present and not "". */
  predicate Present(s: Option<string>)
  {
    s.Some? && s.value != ""
  }
}
