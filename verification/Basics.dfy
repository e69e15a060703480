/** Small vocabulary shared by every model in this project. */
module Basics {

  datatype Option<+T> = None | Some(value: T)

  datatype Result<+T, +E> = Ok(value: T) | Err(error: E)

  /** One octet of a message or of a file. */
  type byte = x: int | 0 <= x < 256

  type Bytes = seq<byte>

  function Abs(x: real): real {
    if x < 0.0 then -x else x
  }

  function Max(x: int, y: int): int {
    if x < y then y else x
  }

  function Min(x: int, y: int): int {
    if x < y then x else y
  }

  /** Smallest integer that is not below x, Python's `math.ceil`. */
  function Ceil(x: real): (c: int)
    ensures x <= c as real < x + 1.0
  {
    -((-x).Floor)
  }

  /** Python's `round(numerator / denominator)` on an exact quotient: ties go to the even integer. */
  function RoundHalfEven(numerator: int, denominator: int): int
    requires 0 < denominator
  {
    var quotient := numerator / denominator;
    var doubled := 2 * (numerator % denominator);
    if doubled > denominator || (doubled == denominator && quotient % 2 == 1)
    then quotient + 1 else quotient
  }

  /** Python's `round(x)` on a real. */
  function RoundReal(x: real): (r: int)
    ensures -0.5 <= x - r as real <= 0.5
  {
    var low := x.Floor;
    var rest := x - low as real;
    if rest > 0.5 || (rest == 0.5 && low % 2 == 1) then low + 1 else low
  }
}
