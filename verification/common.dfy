/** Values shared by the models: optional values and the errors of the services. */
module Common {

  datatype Option<+T> = None | Some(value: T)

  /** The error classes the services throw, plus a row that a table constraint refuses. */
  datatype Error =
    | BadRequest
    | Forbidden
    | NotFound
    | Conflict
    | Stale
    | CheckViolation

  function Max(a: int, b: int): (m: int)
    ensures m >= a && m >= b && (m == a || m == b)
  {
    if a < b then b else a
  }

  function Min(a: int, b: int): (m: int)
    ensures m <= a && m <= b && (m == a || m == b)
  {
    if a < b then a else b
  }
}
