/** Go's integer division, which truncates towards zero. */
module GoArith {

  function TruncDiv(a: int, b: int): int
    requires b > 0
  {
    if a >= 0 then a / b else -((-a) / b)
  }
}
