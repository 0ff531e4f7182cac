/** The optional value used throughout the model for JavaScript's `null` / `undefined`, and the
    user id shared by the store and the form. */
module Wrappers {

  /** The `id` of a row of `users`, as the session's user carries it. */
  type UserId = nat

  datatype Option<+T> = None | Some(value: T) {

    /** The value, or `default` when there is none (JavaScript's `x || default` on a present-or-absent value). */
    function GetOr(default: T): T {
      match this
      case Some(v) => v
      case None => default
    }
  }
}
