/** Small helpers: MIN, MAX, abs and LIMIT_TO. */
module Arith {

  function Abs(n: int): nat {
    if n < 0 then -n else n
  }

  function Min(a: int, b: int): int {
    if a < b then a else b
  }

  function Max(a: int, b: int): int {
    if a > b then a else b
  }

  function LimitTo(n: int, low: int, high: int): int {
    if n < low then low else if n > high then high else n
  }
}
