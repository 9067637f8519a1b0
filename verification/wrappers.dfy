/** Optional values: the model's stand-in for C# `null` and for `bool Try…(out x)` results. */
module Wrappers {

  datatype Option<+T> = None | Some(value: T) {

    /** The value, or `default` when there is none (C#'s `??`). */
    function GetOr(default: T): T {
      match this
      case Some(v) => v
      case None => default
    }

    /** C#'s `a ?? b` where `b` is itself nullable. */
    function OrElse(other: Option<T>): Option<T> {
      match this
      case Some(_) => this
      case None => other
    }
  }
}
