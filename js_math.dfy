/**
 * The parts of JavaScript's Math object the controller relies on: Math.PI,
 * Math.abs, Math.atan2 and Math.sqrt, over exact reals. Math.PI is an abstract
 * constant known only to lie in a narrow interval around pi; Math.atan2 and
 * Math.sqrt are abstract functions known only by the range of their results.
 */
module JsMath {
  /** The interval that holds the double nearest to pi. */
  type PiValue = r: real | 3.14159265 < r < 3.14159266 witness 3.141592655

  const MathPi: PiValue
  /** Math.PI */
  const PI: real := MathPi

  /** Math.atan2(y, x): a bearing in [-PI, PI], and nothing else is known. */
  type Atan2Function = f: (real, real) -> real | forall y, x :: -PI <= f(y, x) <= PI
    witness (y: real, x: real) => 0.0
  const Atan2: Atan2Function

  /** Math.sqrt(v): non-negative for a non-negative argument, and nothing else is known. */
  type SqrtFunction = f: real -> real | forall v :: v >= 0.0 ==> f(v) >= 0.0
    witness (v: real) => 0.0
  const Sqrt: SqrtFunction

  /** Math.abs */
  function Abs(x: real): (r: real)
    ensures r >= 0.0 && (r == x || r == -x)
  {
    if x < 0.0 then -x else x
  }

  /** Math.pow(v, 2) */
  function Square(v: real): (r: real)
    ensures r >= 0.0
  {
    v * v
  }

  /** k whole turns, in radians. */
  function FullTurns(k: int): real {
    2.0 * (k as real) * PI
  }

  /** a and b differ by a whole number of turns. */
  ghost predicate SameAngle(a: real, b: real) {
    exists k: int :: a == b + FullTurns(k)
  }
}
