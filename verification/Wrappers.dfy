module Wrappers {
  datatype Option<+T> = None | Some(value: T)

  /** The numbers below n, in order. */
  function UpTo(n: nat): seq<nat> {
    seq(n, i => i)
  }
}
