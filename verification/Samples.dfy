/** Values and small functions shared by the modules. */
module Samples {

  /** One complex baseband sample; rounding is not modelled. */
  datatype Iq = Iq(re: real, im: real)

  const ZERO := Iq(0.0, 0.0)

  datatype Option<+T> = None | Some(value: T)

  function Min(a: int, b: int): int { if a < b then a else b }

  function Max(a: int, b: int): int { if a < b then b else a }

  /** The input at an index, with silence outside it. */
  function At<T>(x: seq<T>, i: int, silence: T): T {
    if 0 <= i < |x| then x[i] else silence
  }
}
