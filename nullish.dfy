/** JavaScript's `null`/`undefined`, as far as the report code tells them apart: not at all.
    `None` stands for a property that is absent, `null` or `undefined`; `Some(v)` for a present value. */
module Nullish {

  datatype Option<+T> = None | Some(value: T) {

    /** The value, or `default` when it is nullish (JavaScript's `??`). */
    function OrElse(default: T): T {
      match this
      case Some(v) => v
      case None => default
    }
  }
}
