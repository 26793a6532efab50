/** The performance figures of src/analytics/metrics.py and performance_layer.py against their plain definitions. */
module Metrics {
  import opened Prelude

  // ----- Drawdown -----

  // An equity curve starts with the initial capital; fees may later take it to zero or below.
  ghost predicate StartsPositive(curve: seq<real>) {
    curve != [] ==> curve[0] > 0.0
  }

  ghost predicate NeverNegative(curve: seq<real>) {
    forall i :: 0 <= i < |curve| ==> curve[i] >= 0.0
  }

  // The running maximum up to and including position i.
  function RunningMax(curve: seq<real>, i: nat): real
    requires i < |curve|
  {
    if i == 0 then curve[0] else Max(RunningMax(curve, i - 1), curve[i])
  }

  function Ratio(x: real, y: real): real
    requires y != 0.0
  {
    x / y
  }

  lemma {:induction false} RunningMaxIsMax(curve: seq<real>, i: nat)
    requires i < |curve|
    ensures forall k :: 0 <= k <= i ==> curve[k] <= RunningMax(curve, i)
    ensures exists k :: 0 <= k <= i && curve[k] == RunningMax(curve, i)
  {
    if i == 0 {
      assert curve[0] == RunningMax(curve, i);
    } else {
      RunningMaxIsMax(curve, i - 1);
      var k :| 0 <= k <= i - 1 && curve[k] == RunningMax(curve, i - 1);
      assert RunningMax(curve, i) == curve[k] || RunningMax(curve, i) == curve[i];
    }
  }

  // The least value of equity over running maximum minus one, among the first i + 1 positions.
  function LowestDrawdown(curve: seq<real>, i: nat): real
    requires i < |curve| && StartsPositive(curve)
  {
    RunningMaxIsMax(curve, i);
    var here := Ratio(curve[i], RunningMax(curve, i)) - 1.0;
    if i == 0 then here else Min(LowestDrawdown(curve, i - 1), here)
  }

  function MaxDrawdown(curve: seq<real>): real
    requires StartsPositive(curve)
  {
    if curve == [] then 0.0 else Abs(LowestDrawdown(curve, |curve| - 1))
  }

  // The relative fall from position i to position j.
  function Fall(curve: seq<real>, i: nat, j: nat): real
    requires i < |curve| && j < |curve| && curve[i] > 0.0
  {
    1.0 - Ratio(curve[j], curve[i])
  }

  // Position i is the highest so far when the curve reaches position j.
  ghost predicate PeakBefore(curve: seq<real>, i: nat, j: nat) {
    i <= j < |curve| && curve[i] > 0.0 && forall k :: 0 <= k <= j ==> curve[k] <= curve[i]
  }

  lemma RatioAbove(x: real, y: real, z: real)
    requires x >= 0.0 && 0.0 < y <= z
    ensures 0.0 <= Ratio(x, z) <= Ratio(x, y)
    ensures x > 0.0 ==> Ratio(x, z) > 0.0
  {
    DivMul(x, y);
    DivMul(x, z);
    var a, b := x / y, x / z;
    assert (b - a) * y == b * y - a * y && b * (z - y) == b * z - b * y;
    if b < 0.0 {
      MulPos(-b, z);
    } else if a < b {
      MulNonNeg(b, z - y);
      MulPos(b - a, y);
    }
  }

  lemma RatioBelowOne(x: real, z: real)
    requires x <= z && 0.0 < z
    ensures Ratio(x, z) <= 1.0
  {
    DivMul(x, z);
    var b := x / z;
    assert (b - 1.0) * z == b * z - z;
    if b > 1.0 {
      MulPos(b - 1.0, z);
    }
  }

  // The drawdown at one position is its fall from the highest point so far.
  lemma DrawdownAt(curve: seq<real>, j: nat) returns (i: nat)
    requires StartsPositive(curve) && j < |curve|
    ensures RunningMax(curve, j) > 0.0
    ensures PeakBefore(curve, i, j) && Fall(curve, i, j) == 1.0 - Ratio(curve[j], RunningMax(curve, j)) >= 0.0
  {
    RunningMaxIsMax(curve, j);
    i :| 0 <= i <= j && curve[i] == RunningMax(curve, j);
    RatioBelowOne(curve[j], RunningMax(curve, j));
  }

  // All falls from a highest point so far, among the first n + 1 positions, have d as their greatest.
  ghost predicate WorstFallFromPeak(curve: seq<real>, n: nat, d: real)
    requires n < |curve|
  {
    && (forall i, j :: 0 <= i <= j <= n && PeakBefore(curve, i, j) ==> Fall(curve, i, j) <= d)
    && (exists i, j :: 0 <= i <= j <= n && PeakBefore(curve, i, j) && Fall(curve, i, j) == d)
    && d >= 0.0
  }

  lemma PeaksAgree(curve: seq<real>, i: nat, k: nat, j: nat)
    requires PeakBefore(curve, i, j) && PeakBefore(curve, k, j)
    ensures Fall(curve, i, j) == Fall(curve, k, j)
  {
    assert curve[i] == curve[k];
  }

  lemma {:induction false} LowestIsWorst(curve: seq<real>, n: nat)
    requires StartsPositive(curve) && n < |curve|
    ensures WorstFallFromPeak(curve, n, -LowestDrawdown(curve, n))
  {
    hide Fall, Ratio;
    var peak := DrawdownAt(curve, n);
    forall i | 0 <= i <= n && PeakBefore(curve, i, n) ensures Fall(curve, i, n) == Fall(curve, peak, n) {
      PeaksAgree(curve, i, peak, n);
    }
    if n > 0 {
      LowestIsWorst(curve, n - 1);
      var k, l :| 0 <= k <= l <= n - 1 && PeakBefore(curve, k, l) && Fall(curve, k, l) == -LowestDrawdown(curve, n - 1);
    }
  }

  // The running-peak drawdown is the greatest fall from a highest point so far.
  lemma DrawdownIsWorstFallFromPeak(curve: seq<real>)
    requires StartsPositive(curve) && curve != []
    ensures WorstFallFromPeak(curve, |curve| - 1, MaxDrawdown(curve))
  {
    LowestIsWorst(curve, |curve| - 1);
  }

  // A fall from a highest point so far is at least the fall from any other point before.
  lemma FallFromPeakIsGreatest(curve: seq<real>, i: nat, peak: nat, j: nat)
    requires NeverNegative(curve) && i <= j && PeakBefore(curve, peak, j) && curve[i] > 0.0
    ensures Fall(curve, i, j) <= Fall(curve, peak, j)
  {
    RatioAbove(curve[j], curve[i], curve[peak]);
  }

  lemma FallBelowOne(curve: seq<real>, i: nat, j: nat)
    requires NeverNegative(curve) && i < |curve| && j < |curve| && curve[i] > 0.0
    ensures Fall(curve, i, j) <= 1.0 && (Fall(curve, i, j) < 1.0 <==> curve[j] > 0.0)
  {
    RatioAbove(curve[j], curve[i], curve[i]);
    DivMul(curve[j], curve[i]);
  }

  // On a curve that is never negative the drawdown is the worst fall over all pairs of positions; it
  // is at most one, and one only for a curve that reaches zero.
  lemma DrawdownIsWorstFall(curve: seq<real>)
    requires StartsPositive(curve) && NeverNegative(curve) && curve != []
    ensures var d := MaxDrawdown(curve);
      && (forall i, j :: 0 <= i <= j < |curve| && curve[i] > 0.0 ==> Fall(curve, i, j) <= d)
      && (exists i, j :: 0 <= i <= j < |curve| && curve[i] > 0.0 && Fall(curve, i, j) == d)
      && 0.0 <= d <= 1.0
      && (d < 1.0 <==> forall i :: 0 <= i < |curve| ==> curve[i] > 0.0)
  {
    var d := MaxDrawdown(curve);
    DrawdownIsWorstFallFromPeak(curve);
    hide Fall, MaxDrawdown;
    forall i, j | 0 <= i <= j < |curve| && curve[i] > 0.0
      ensures Fall(curve, i, j) <= d && (curve[j] == 0.0 ==> d >= 1.0)
    {
      var peak := DrawdownAt(curve, j);
      FallFromPeakIsGreatest(curve, i, peak, j);
      FallBelowOne(curve, i, j);
    }
    var k, l :| 0 <= k <= l <= |curve| - 1 && PeakBefore(curve, k, l) && Fall(curve, k, l) == d;
    FallBelowOne(curve, k, l);
    assert forall j :: 0 <= j < |curve| && curve[j] == 0.0 ==> Fall(curve, 0, j) <= d;
  }

  // Below zero the pairs no longer agree with the peaks: falling from 1 to 2 and on to -1, the
  // drawdown is 1.5 although the fall from the first point is 2.
  lemma NegativeCurveFallsFurther()
    ensures StartsPositive([1.0, 2.0, -1.0])
    ensures MaxDrawdown([1.0, 2.0, -1.0]) == 1.5 && Fall([1.0, 2.0, -1.0], 0, 2) == 2.0
  {
    var curve := [1.0, 2.0, -1.0];
    assert LowestDrawdown(curve, 0) == 0.0;
    assert LowestDrawdown(curve, 1) == 0.0;
    assert RunningMax(curve, 2) == 2.0;
  }

  // ----- Returns -----

  // No bar's return divides by zero.
  ghost predicate HasReturns(curve: seq<real>) {
    forall i :: 0 <= i < |curve| - 1 ==> curve[i] != 0.0
  }

  function TotalReturn(curve: seq<real>): real
    requires |curve| >= 2 ==> curve[0] != 0.0
  {
    if |curve| < 2 then 0.0 else Ratio(curve[|curve| - 1], curve[0]) - 1.0
  }

  // Per-bar returns: zero for the first bar, then the relative change.
  function BarReturn(curve: seq<real>, i: nat): real
    requires i < |curve| && HasReturns(curve)
  {
    if i == 0 then 0.0 else Ratio(curve[i], curve[i - 1]) - 1.0
  }

  function Returns(curve: seq<real>): seq<real>
    requires HasReturns(curve)
  {
    seq(|curve|, i requires 0 <= i < |curve| => BarReturn(curve, i))
  }

  // The growth of one unit through the first n returns.
  function Compound(changes: seq<real>, n: nat): real
    requires n <= |changes|
  {
    if n == 0 then 1.0 else Compound(changes, n - 1) * (1.0 + changes[n - 1])
  }

  lemma RatioChain(x: real, y: real, z: real)
    requires x != 0.0 && y != 0.0
    ensures Ratio(y, x) * Ratio(z, y) == Ratio(z, x)
  {
    DivMul(z, y);
    DivMul(y, x);
    DivMul(z, x);
    assert y / x * (z / y) * x == z;
    CancelMul(y / x * (z / y), z / x, x);
  }

  lemma {:induction false} ReturnsTelescope(curve: seq<real>, n: nat)
    requires HasReturns(curve) && 0 < n <= |curve| && curve[0] != 0.0
    ensures Compound(Returns(curve), n) == Ratio(curve[n - 1], curve[0])
  {
    if n == 1 {
      assert Compound(Returns(curve), 1) == Compound(Returns(curve), 0) * 1.0;
    } else {
      ReturnsTelescope(curve, n - 1);
      RatioChain(curve[0], curve[n - 2], curve[n - 1]);
    }
  }

  // Compounding the per-bar returns gives the total return.
  lemma CompoundingIsTotalReturn(curve: seq<real>)
    requires HasReturns(curve) && curve != []
    ensures Compound(Returns(curve), |curve|) == 1.0 + TotalReturn(curve)
  {
    if |curve| == 1 {
      assert Compound(Returns(curve), 1) == Compound(Returns(curve), 0) * 1.0;
    } else {
      ReturnsTelescope(curve, |curve|);
    }
  }

  // The equity curve of one unit, as the analytics layer rebuilds it from returns.
  function CurveOf(changes: seq<real>): seq<real> {
    seq(|changes|, i requires 0 <= i < |changes| => Compound(changes, i + 1))
  }

  lemma {:induction false} ScaledDrawdown(curve: seq<real>, scaled: seq<real>, unit: real, i: nat)
    requires StartsPositive(curve) && unit > 0.0 && i < |curve| == |scaled|
    requires forall k :: 0 <= k < |curve| ==> scaled[k] == Ratio(curve[k], unit)
    ensures StartsPositive(scaled)
    ensures RunningMax(scaled, i) == Ratio(RunningMax(curve, i), unit)
    ensures LowestDrawdown(scaled, i) == LowestDrawdown(curve, i)
  {
    RatioAbove(curve[0], unit, unit);
    hide Ratio;
    if i > 0 {
      ScaledDrawdown(curve, scaled, unit, i - 1);
      RatioOrder(RunningMax(curve, i - 1), curve[i], unit);
    }
    RunningMaxIsMax(curve, i);
    RunningMaxIsMax(scaled, i);
    RatioOfRatios(curve[i], RunningMax(curve, i), unit);
  }

  lemma RatioOrder(x: real, y: real, unit: real)
    requires unit > 0.0
    ensures x >= y <==> Ratio(x, unit) >= Ratio(y, unit)
  {
    var a, b := Ratio(x, unit), Ratio(y, unit);
    DivMul(x, unit);
    DivMul(y, unit);
    assert (a - b) * unit == x - y;
    if a >= b {
      MulNonNeg(a - b, unit);
    } else {
      MulPos(b - a, unit);
    }
  }

  lemma RatioOfRatios(x: real, y: real, unit: real)
    requires unit > 0.0 && y > 0.0
    ensures Ratio(y, unit) != 0.0
    ensures Ratio(Ratio(x, unit), Ratio(y, unit)) == Ratio(x, y)
  {
    RatioAbove(y, unit, unit);
    RatioChain(unit, y, x);
    DivMul(x / unit, y / unit);
    CancelMul(x / unit / (y / unit), x / y, y / unit);
  }

  // The drawdown computed from an equity curve and the one computed from its returns are the same.
  lemma BothDrawdownsAgree(curve: seq<real>)
    requires StartsPositive(curve) && HasReturns(curve)
    ensures StartsPositive(CurveOf(Returns(curve)))
    ensures MaxDrawdown(CurveOf(Returns(curve))) == MaxDrawdown(curve)
  {
    if curve != [] {
      forall k | 0 <= k < |curve| ensures CurveOf(Returns(curve))[k] == Ratio(curve[k], curve[0]) {
        ReturnsTelescope(curve, k + 1);
      }
      ScaledDrawdown(curve, CurveOf(Returns(curve)), curve[0], |curve| - 1);
    }
  }

  // ----- Expectancy -----

  function Total(pnls: seq<real>): real {
    if pnls == [] then 0.0 else Total(pnls[..|pnls| - 1]) + pnls[|pnls| - 1]
  }

  function Wins(pnls: seq<real>): seq<real> {
    if pnls == [] then []
    else Wins(pnls[..|pnls| - 1]) + if pnls[|pnls| - 1] > 0.0 then [pnls[|pnls| - 1]] else []
  }

  function Losses(pnls: seq<real>): seq<real> {
    if pnls == [] then []
    else Losses(pnls[..|pnls| - 1]) + if pnls[|pnls| - 1] < 0.0 then [pnls[|pnls| - 1]] else []
  }

  function Mean(xs: seq<real>): real {
    if xs == [] then 0.0 else Total(xs) / |xs| as real
  }

  function Decided(pnls: seq<real>): nat {
    |Wins(pnls)| + |Losses(pnls)|
  }

  function WinRate(pnls: seq<real>): real {
    if Decided(pnls) == 0 then 0.0 else |Wins(pnls)| as real / Decided(pnls) as real
  }

  function Expectancy(pnls: seq<real>): real {
    WinRate(pnls) * Mean(Wins(pnls)) - (1.0 - WinRate(pnls)) * Abs(Mean(Losses(pnls)))
  }

  function CountWhere(pnls: seq<real>, sign: real): nat {
    if pnls == [] then 0
    else CountWhere(pnls[..|pnls| - 1], sign) + if pnls[|pnls| - 1] * sign > 0.0 then 1 else 0
  }

  // Wins are the positive results and losses the negative ones, so the decided ones are those not zero.
  lemma {:induction false} DecidedAreNotZero(pnls: seq<real>)
    ensures |Wins(pnls)| == CountWhere(pnls, 1.0) && |Losses(pnls)| == CountWhere(pnls, -1.0)
    ensures forall x :: (x in Wins(pnls) <==> x in pnls && x > 0.0) && (x in Losses(pnls) <==> x in pnls && x < 0.0)
  {
    if pnls != [] {
      DecidedAreNotZero(pnls[..|pnls| - 1]);
      assert pnls == pnls[..|pnls| - 1] + [pnls[|pnls| - 1]];
    }
  }

  lemma TotalAppend(xs: seq<real>, x: real)
    ensures Total(xs + [x]) == Total(xs) + x
  {
    assert (xs + [x])[..|xs|] == xs;
  }

  lemma {:induction false} WinsAndLosses(pnls: seq<real>)
    ensures Total(pnls) == Total(Wins(pnls)) + Total(Losses(pnls))
    ensures Total(Losses(pnls)) <= 0.0
  {
    if pnls != [] {
      var front, last := pnls[..|pnls| - 1], pnls[|pnls| - 1];
      WinsAndLosses(front);
      WinsStep(pnls);
      LossesStep(pnls);
      hide Wins, Losses;
    }
  }

  lemma WinsStep(pnls: seq<real>)
    requires pnls != []
    ensures Total(Wins(pnls)) == Total(Wins(pnls[..|pnls| - 1])) + Max(pnls[|pnls| - 1], 0.0)
  {
    var front, last := Wins(pnls[..|pnls| - 1]), pnls[|pnls| - 1];
    TotalAppend(front, last);
    assert front + [] == front;
  }

  lemma LossesStep(pnls: seq<real>)
    requires pnls != []
    ensures Total(Losses(pnls)) == Total(Losses(pnls[..|pnls| - 1])) + Min(pnls[|pnls| - 1], 0.0)
  {
    var front, last := Losses(pnls[..|pnls| - 1]), pnls[|pnls| - 1];
    TotalAppend(front, last);
    assert front + [] == front;
  }

  lemma MeanTimesCount(xs: seq<real>)
    ensures Mean(xs) * |xs| as real == Total(xs)
    ensures Total(xs) <= 0.0 ==> Abs(Mean(xs)) * |xs| as real == -Total(xs)
  {
    if xs != [] {
      DivMul(Total(xs), |xs| as real);
      if Mean(xs) > 0.0 {
        MulPos(Mean(xs), |xs| as real);
      }
    }
  }

  lemma RateTimesCount(wins: nat, losses: nat, rate: real, win: real, loss: real)
    requires wins + losses > 0 && rate * (wins + losses) as real == wins as real
    ensures (rate * win - (1.0 - rate) * loss) * (wins + losses) as real == win * wins as real - loss * losses as real
  {
    var n := (wins + losses) as real;
    assert rate * win * n == rate * n * win;
    assert (1.0 - rate) * loss * n == (n - rate * n) * loss;
  }

  // Expectancy is the average result per decided trade: times their number it is the total P&L.
  lemma ExpectancyTimesCount(pnls: seq<real>)
    ensures Expectancy(pnls) * Decided(pnls) as real == Total(pnls)
  {
    hide Wins, Losses, Total, Mean, Abs;
    WinsAndLosses(pnls);
    MeanTimesCount(Wins(pnls));
    MeanTimesCount(Losses(pnls));
    if Decided(pnls) > 0 {
      RateIsShare(pnls);
      RateTimesCount(|Wins(pnls)|, |Losses(pnls)|, WinRate(pnls), Mean(Wins(pnls)), Abs(Mean(Losses(pnls))));
    }
  }

  lemma RateIsShare(pnls: seq<real>)
    requires Decided(pnls) > 0
    ensures WinRate(pnls) * Decided(pnls) as real == |Wins(pnls)| as real
  {
    hide Wins, Losses, Decided;
    DivMul(|Wins(pnls)| as real, Decided(pnls) as real);
  }
}
