/** Types shared by every route of the API: identities decoded from a token,
    request-body fields, SQL parameters, and the HTTP responses the handlers send. */
module Http {

  datatype Option<+T> = None | Some(value: T)

  /** A field of a JSON request body. `undefined` (key missing) and `null`
      are different to JavaScript's `!== undefined` but the same to SQL. */
  datatype Field<+T> = Absent | Null | Given(value: T)

  /** Row keys (SERIAL columns) and the `id` claim of a token. */
  type Id = nat

  /** The `{ id, user_type }` payload the middleware stores in `req.user`. */
  datatype Identity = Identity(id: Id, userType: string)

  const DONOR: string := "donor"
  const ORGANIZATION: string := "organization"

  /** A handler's error reply: its class fixes the status code, the message is the source's text. */
  datatype Error =
    | BadRequest(message: string)
    | Unauthorized(message: string)
    | Forbidden(message: string)
    | NotFound(message: string)
    | Conflict(message: string)
  {
    function Code(): (c: nat)
      ensures 400 <= c < 500
    {
      match this
      case BadRequest(_) => 400
      case Unauthorized(_) => 401
      case Forbidden(_) => 403
      case NotFound(_) => 404
      case Conflict(_) => 409
    }
  }

  /** What a handler sends: a success status with a JSON body, or an error. */
  datatype Response<+T> = Ok(code: nat, value: T) | Err(error: Error)

  /** The value node-postgres binds for a body field: `undefined` and `null` both become NULL. */
  function Param<T>(f: Field<T>): (p: Option<T>)
    ensures p.Some? <==> f.Given?
    ensures p.Some? ==> p.value == f.value
  {
    match f
    case Given(v) => Some(v)
    case _ => None
  }

  /** JavaScript truthiness of a string field: present, not null and not "". */
  predicate Filled(f: Field<string>)
  {
    f.Given? && f.value != ""
  }

  /** JavaScript truthiness of a numeric field: present, not null and not 0. */
  predicate NonZero(f: Field<real>)
  {
    f.Given? && f.value != 0.0
  }

  /** SQL `COALESCE($n, column)` on a NOT NULL column. */
  function Coalesce<T>(p: Option<T>, stored: T): (r: T)
    ensures p.None? ==> r == stored
    ensures p.Some? ==> r == p.value
  {
    if p.Some? then p.value else stored
  }

  /** SQL `COALESCE($n, column)` on a nullable column. */
  function CoalesceNullable<T>(p: Option<T>, stored: Option<T>): (r: Option<T>)
    ensures p.None? ==> r == stored
    ensures p.Some? ==> r == p
  {
    if p.Some? then p else stored
  }
}
