/** Small value types shared by every page of the household app. */
module Basics {

  /** A value that may be absent: JavaScript's `undefined`/`null` for optional fields. */
  datatype Option<+T> = None | Some(value: T) {
    function GetOr(default: T): T {
      match this
      case Some(v) => v
      case None => default
    }
  }

  /** A numeric form field after `Number(...)`: the guard `!field` only tests
      whether the field is blank; a filled field is held as its value in cents. */
  datatype NumberInput = Blank | Entered(cents: int)
}
