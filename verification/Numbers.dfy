// Rounding as Python and numpy do it.

module Numbers {
  // The nearest whole number, halves to even.
  function Round(x: real): (n: int)
    ensures -0.5 <= n as real - x <= 0.5
  {
    var f := x.Floor;
    var frac := x - f as real;
    if frac < 0.5 then f else if frac > 0.5 then f + 1 else if f % 2 == 0 then f else f + 1
  }

  // A number halfway between two goes to the even one.
  lemma HalvesToEven(x: real)
    ensures x - x.Floor as real == 0.5 ==> Round(x) % 2 == 0
  {}
}
