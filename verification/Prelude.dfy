/** Small shared vocabulary: optional values, error results, and real arithmetic helpers. */
module Prelude {

  datatype Option<+T> = None | Some(value: T) {
    function GetOr(default: T): T {
      match this
      case Some(v) => v
      case None => default
    }
  }

  datatype Result<+T, +E> = Success(value: T) | Failure(error: E)

  // Quantities at or below this size are treated as dust (1e-12 in the Python code).
  const EPSILON: real := 0.000000000001

  function Max(x: real, y: real): real {
    if x >= y then x else y
  }

  function Min(x: real, y: real): real {
    if x <= y then x else y
  }

  function Abs(x: real): real {
    if x >= 0.0 then x else -x
  }

  function Clip(x: real, lo: real, hi: real): real {
    Min(Max(x, lo), hi)
  }

  lemma MulNonNeg(x: real, y: real)
    requires x >= 0.0 && y >= 0.0
    ensures x * y >= 0.0
  {
  }

  lemma MulMono(x: real, y: real, k: real)
    requires x <= y && k >= 0.0
    ensures x * k <= y * k
  {
    MulNonNeg(y - x, k);
  }

  lemma MulPos(x: real, y: real)
    requires x > 0.0 && y > 0.0
    ensures x * y > 0.0
  {
  }

  lemma DivMul(x: real, y: real)
    requires y != 0.0
    ensures x / y * y == x
  {
  }

  // The average price of q0 units at p0 and q1 units at p1.
  function WeightedAverage(q0: real, p0: real, q1: real, p1: real): (average: real)
    requires q0 + q1 != 0.0
    ensures average * (q0 + q1) == q0 * p0 + q1 * p1
  {
    DivMul(q0 * p0 + q1 * p1, q0 + q1);
    (q0 * p0 + q1 * p1) / (q0 + q1)
  }

  // What quantity units bought at cost gain at price.
  function Gain(price: real, cost: real, quantity: real): real {
    (price - cost) * quantity
  }

  lemma AverageAbove(q0: real, p0: real, q1: real, p1: real, average: real, lo: real)
    requires q0 >= 0.0 && q1 > 0.0 && lo <= p0 && lo <= p1
    requires average * (q0 + q1) == q0 * p0 + q1 * p1
    ensures lo <= average
  {
    var d0, d1 := p0 - lo, p1 - lo;
    MulNonNeg(q0, d0);
    MulNonNeg(q1, d1);
    assert (average - lo) * (q0 + q1) == q0 * d0 + q1 * d1;
    if average < lo {
      MulPos(lo - average, q0 + q1);
    }
  }

  // A weighted average lies between its two arguments.
  lemma AverageBetween(q0: real, p0: real, q1: real, p1: real, average: real)
    requires q0 >= 0.0 && q1 > 0.0
    requires average * (q0 + q1) == q0 * p0 + q1 * p1
    ensures Min(p0, p1) <= average <= Max(p0, p1)
  {
    AverageAbove(q0, p0, q1, p1, average, Min(p0, p1));
    assert (-average) * (q0 + q1) == -(average * (q0 + q1));
    assert q0 * (-p0) + q1 * (-p1) == -(q0 * p0 + q1 * p1);
    AverageAbove(q0, -p0, q1, -p1, -average, -Max(p0, p1));
  }

  lemma CancelMul(x: real, y: real, k: real)
    requires k != 0.0 && x * k == y * k
    ensures x == y
  {
    assert (x - y) * k == 0.0;
  }

  lemma AverageFromNothing(p0: real, q1: real, p1: real)
    requires q1 != 0.0
    ensures WeightedAverage(0.0, p0, q1, p1) == p1
  {
    CancelMul(WeightedAverage(0.0, p0, q1, p1), p1, q1);
  }

  // Python's round(): half-way cases go to the even neighbour.
  function RoundHalfEven(x: real): int {
    var low := x.Floor;
    var rest := x - low as real;
    if rest < 0.5 || (rest == 0.5 && low % 2 == 0) then low else low + 1
  }

  function Round4(x: real): real {
    RoundHalfEven(x * 10000.0) as real / 10000.0
  }

  function Round6(x: real): real {
    RoundHalfEven(x * 1000000.0) as real / 1000000.0
  }

  // The nearest whole number, and of two the even one.
  lemma RoundsToNearestEven(x: real)
    ensures var r := RoundHalfEven(x);
      && -0.5 <= r as real - x <= 0.5
      && (r as real - x in {-0.5, 0.5} ==> r % 2 == 0)
    ensures Round4(x) * 10000.0 == RoundHalfEven(10000.0 * x) as real
    ensures Round6(x) * 1000000.0 == RoundHalfEven(1000000.0 * x) as real
  {
  }

  lemma Round4Close(x: real)
    ensures -0.00005 <= Round4(x) - x <= 0.00005
  {
    var y := x * 10000.0;
    assert -0.5 <= RoundHalfEven(y) as real - y <= 0.5;
  }
}
