/** Arithmetic shared by the models. */
module Numbers {

  function Max(a: nat, b: nat): (m: nat)
    ensures m >= a && m >= b && (m == a || m == b)
  {
    if a < b then b else a
  }

  function Min(a: nat, b: nat): (m: nat)
    ensures m <= a && m <= b && (m == a || m == b)
  {
    if a < b then a else b
  }

  function Clamp(x: real, low: real, high: real): (y: real)
    requires low <= high
    ensures low <= y <= high
  {
    if x < low then low else if high < x then high else x
  }

  function Abs(x: real): real {
    if x < 0.0 then -x else x
  }
}
