/** Outcome shapes shared by the whole model. */
module Wrappers {

  /** Python's `None` or a value. */
  datatype Option<+T> = None | Some(value: T)

  /** The `{"status": "success", "data": ...}` / `{"status": "error", "message": ...}` shape
      every calculator returns. The message keeps the calculator's own prefix; the text of
      the Python exception that follows it is not modelled. */
  datatype Outcome<+T> = Success(data: T) | Failure(message: string)

  function Min(a: int, b: int): int { if a <= b then a else b }

  function Max(a: int, b: int): int { if a <= b then b else a }

  function MaxReal(a: real, b: real): real { if a < b then b else a }

  function AbsReal(x: real): real { if x < 0.0 then -x else x }
}
