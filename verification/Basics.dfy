/** Small definitions shared by the other modules. */
module Basics {

  datatype Option<+T> = None | Some(value: T)

  function Min(x: int, y: int): int { if x < y then x else y }

  function Max(x: int, y: int): int { if x < y then y else x }

  function RealMin(x: real, y: real): real { if x < y then x else y }

  function RealMax(x: real, y: real): real { if x < y then y else x }

  /** The last n elements, or all if there are fewer. */
  function LastN<T>(s: seq<T>, n: nat): seq<T> { if |s| <= n then s else s[|s| - n..] }
}
