/** Option and Result values shared by every module, and the exception kinds
    the Python program raises, so that an operation that raises returns Err. */
module Wrappers {
  datatype Option<T> = None | Some(value: T)

  /** The exception classes raised by the modelled code. */
  datatype Error =
    | ValueError
    | KeyError
    | IndexError
    | TypeError
    | NotImplementedError
    | EntityInvalidPos
    | NotEnoughCrumb
    | NotEnoughSkillStamina
    | NotEnoughMoveStamina
    | InvalidMoveTarget
    | InvalidDeck
    | NotAITurn
    | ShortHandSkillCallback
    | ActionInSelectingMode
    | CallbackInNonSelectingMode
    | AttributeError
    | AssertionError
    | ZeroDivisionError
    | RuntimeError
    | Exception

  datatype Result<T> = Ok(value: T) | Err(error: Error)

  /** The position Python's `s[i]` reads in a list of length n: a negative
      index counts from the end; anything else raises IndexError. */
  function PyIndex(n: int, i: int): (r: Option<nat>)
    ensures r.Some? <==> -n <= i < n
    ensures r.Some? ==> r.value < n && (i >= 0 ==> r.value == i) && (i < 0 ==> r.value == n + i)
  {
    if 0 <= i < n then Some(i) else if -n <= i < 0 then Some(n + i) else None
  }

  /** Python's `int(x)` on a float: truncation toward zero (the float is
      modelled as an exact real). */
  function PyInt(x: real): (r: int)
    ensures x >= 0.0 ==> 0 <= r && r as real <= x < r as real + 1.0
    ensures x < 0.0 ==> r <= 0 && r as real - 1.0 < x <= r as real
  {
    if x >= 0.0 then x.Floor else -((-x).Floor)
  }
}
