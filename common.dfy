// Types shared by every part of the clinic back end: optional values, the
// HTTP outcomes the handlers answer with, JSON values of a dynamic request
// body, nullable table cells and the role names.
module Common {

  datatype Option<T> = None | Some(value: T)

  /** The HTTP status a handler answers with. */
  datatype Status =
    | OK            // 200
    | Created       // 201
    | BadRequest    // 400
    | Unauthorized  // 401
    | Forbidden     // 403
    | NotFound      // 404
    | Conflict      // 409
    | InternalError // 500
    | NotImplemented // 501

  function Code(s: Status): (c: int)
    ensures 200 <= c < 600
    ensures (c < 300) == (s.OK? || s.Created?)
  {
    match s
    case OK => 200
    case Created => 201
    case BadRequest => 400
    case Unauthorized => 401
    case Forbidden => 403
    case NotFound => 404
    case Conflict => 409
    case InternalError => 500
    case NotImplemented => 501
  }

  /**
   * A value of a JSON object decoded into a Go `map[string]interface{}`:
   * a string, `null`, or any other JSON value (number, boolean, array,
   * object), carried as the text the database driver would store for it.
   */
  datatype JsonValue = JStr(str: string) | JNull | JOther(rendered: string)

  /** A nullable text column of a table row. */
  datatype Cell = Text(text: string) | Null

  /** What the driver stores when a JSON value is bound as a statement argument. */
  function ToCell(v: JsonValue): (c: Cell)
    ensures c.Null? <==> v.JNull?
    ensures v.JStr? ==> c == Text(v.str)
  {
    match v
    case JStr(s) => Text(s)
    case JNull => Null
    case JOther(t) => Text(t)
  }

  /**
   * Binding "" as NULL: the profile handlers store an empty string as NULL
   * and every other value as given.
   */
  function EmptyAsNull(v: JsonValue): (c: Cell)
    ensures c.Null? <==> (v == JStr("") || v.JNull?)
    ensures c.Text? ==> c == ToCell(v)
  {
    if v == JStr("") then Null else ToCell(v)
  }

  /** Go's `value, ok := body[key].(string)` with the zero value on failure. */
  function StringField(body: map<string, JsonValue>, key: string): (s: string)
    ensures key in body && body[key].JStr? ==> s == body[key].str
    ensures !(key in body && body[key].JStr?) ==> s == ""
  {
    if key in body && body[key].JStr? then body[key].str else ""
  }

  /**
   * A string field of a bound request struct tagged `binding:"required"`:
   * present as a string and not "" (None is the binding error).
   */
  function RequiredString(body: map<string, JsonValue>, key: string): (s: Option<string>)
    ensures s.Some? <==> key in body && body[key].JStr? && body[key].str != ""
    ensures s.Some? ==> s.value == body[key].str
  {
    if key in body && body[key].JStr? && body[key].str != "" then Some(body[key].str) else None
  }

  /**
   * A string field of a bound request struct without a tag: absent or
   * null binds as "", a string as itself, any other value is a binding
   * error (None).
   */
  function OptionalString(body: map<string, JsonValue>, key: string): (s: Option<string>)
    ensures s.None? <==> key in body && body[key].JOther?
    ensures s.Some? && key in body && body[key].JStr? ==> s.value == body[key].str
    ensures s.Some? && !(key in body && body[key].JStr?) ==> s.value == ""
  {
    if key !in body || body[key].JNull? then Some("")
    else if body[key].JStr? then Some(body[key].str)
    else None
  }

  // Role names held in the `user_type` claim of a token.
  const CUSTOMER := "CUSTOMER"
  const DOCTOR := "DOCTOR"
  const RECEPTIONIST := "RECEPTIONIST"
  const ACCOUNTANT := "ACCOUNTANT"
  const CLINIC_MANAGER := "CLINIC_MANAGER"
  const OPERATION_MANAGER := "OPERATION_MANAGER"

  /** The caller as the authentication middleware leaves it in the request context. */
  datatype Caller = Caller(userId: string, userType: string)
}
