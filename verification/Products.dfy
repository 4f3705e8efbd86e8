/** Products of exact reals, by name, so that a proof can treat one as a term. */
module Products {
  function Times(a: real, b: real): real {
    a * b
  }

  function RealDot(a: seq<real>, b: seq<real>): real
    requires |a| == |b|
  {
    if a == [] then 0.0 else RealDot(a[..|a| - 1], b[..|b| - 1]) + Times(a[|a| - 1], b[|b| - 1])
  }

  /** A real cut to an integer toward zero, as the cast in C does. */
  function Truncate(x: real): int {
    if x < 0.0 then -(-x).Floor else x.Floor
  }

  function Abs(x: real): (r: real)
    ensures r >= 0.0
  {
    if x < 0.0 then -x else x
  }
}
