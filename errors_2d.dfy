/** Closed-form registration-error estimates in two dimensions
    (Fitzpatrick, West and Maurer 1998). */
module Errors2d {
  import opened Common
  import opened RealMath

  /** The estimators work in the plane. */
  const Dimension: nat := 2

  // ---------------------------------------------------------------------------
  // Expected FRE (equation 10, after Sibson)
  // ---------------------------------------------------------------------------

  /** Expected squared FRE for the fiducials' row count N: (1 - 2/N) times the
      mean squared FLE. No clamping: N = 2 gives 0 and N = 1 gives a negative
      value; no rows is Python's float division by zero. */
  function ComputeFre2d<T>(fiducials: seq<T>, meanFleSquared: real): (r: Result<real>)
    ensures r.Err? <==> |fiducials| == 0
    ensures r.Err? ==> r.error == ZeroDivisionError
    ensures r.Ok? ==> r.value * (|fiducials| as real) == (|fiducials| as real - 2.0) * meanFleSquared
  {
    if |fiducials| == 0 then Err(ZeroDivisionError)
    else
      var n := |fiducials| as real;
      FreTimesCount(n, meanFleSquared);
      Ok((1.0 - 2.0 / n) * meanFleSquared)
  }

  lemma FreTimesCount(n: real, m: real)
    requires 0.0 < n
    ensures (1.0 - 2.0 / n) * m * n == (n - 2.0) * m
  {
    calc {
      (1.0 - 2.0 / n) * m * n;
    ==
      (n - 2.0 / n * n) * m;
    ==
      (n - 2.0) * m;
    }
  }

  /** With two fiducials the expected FRE vanishes; with one it is the negated FLE. */
  lemma FreFewFiducials<T>(fiducials: seq<T>, meanFleSquared: real)
    ensures |fiducials| == 2 ==> ComputeFre2d(fiducials, meanFleSquared) == Ok(0.0)
    ensures |fiducials| == 1 ==> ComputeFre2d(fiducials, meanFleSquared) == Ok(-meanFleSquared)
  {
  }

  /** From two fiducials on, the expected squared FRE lies between 0 and the
      mean squared FLE, and it grows with the number of fiducials. */
  lemma FreBounds<T>(fewer: seq<T>, more: seq<T>, meanFleSquared: real)
    requires 2 <= |fewer| <= |more| && 0.0 <= meanFleSquared
    ensures 0.0 <= ComputeFre2d(fewer, meanFleSquared).value
    ensures ComputeFre2d(fewer, meanFleSquared).value <= ComputeFre2d(more, meanFleSquared).value
    ensures ComputeFre2d(more, meanFleSquared).value <= meanFleSquared
  {
    var a, b := |fewer| as real, |more| as real;
    assert 2.0 / b <= 2.0 / a by {
      calc {
        2.0 / b;
      ==
        (2.0 / a) * (a / b);
      <=
        2.0 / a;
      }
    }
    assert 0.0 <= 2.0 / b && 2.0 / a <= 1.0;
    MulMonotone(1.0 - 2.0 / a, 1.0 - 2.0 / b, meanFleSquared);
    MulMonotone(0.0, 1.0 - 2.0 / a, meanFleSquared);
    MulMonotone(1.0 - 2.0 / b, 1.0, meanFleSquared);
  }

  // ---------------------------------------------------------------------------
  // Expected absolute value of a zero-mean normal error
  // ---------------------------------------------------------------------------

  /** The folded-normal expected absolute value sqrt(2 / pi) * norm(stdDevs);
      a negative standard deviation is rejected with ValueError. */
  function ExpectedAbsoluteValue(stdDevs: seq<real>, pi: real, sqrt: real -> real): (r: Result<real>)
    requires 0.0 < pi && IsSqrt(sqrt)
    ensures r.Err? <==> exists i | 0 <= i < |stdDevs| :: stdDevs[i] < 0.0
    ensures r.Err? ==> r.error == ValueError
    ensures r.Ok? ==> 0.0 <= r.value
  {
    if exists i | 0 <= i < |stdDevs| :: stdDevs[i] < 0.0 then Err(ValueError)
    else
      var factor, norm := sqrt(2.0 / pi), Norm(stdDevs, sqrt);
      MulNonNegative(factor, norm);
      Ok(factor * norm)
  }

  /** The square of the expected absolute value is 2 / pi times the sum of the
      variances. */
  lemma ExpectedAbsoluteValueSquared(stdDevs: seq<real>, pi: real, sqrt: real -> real)
    requires 0.0 < pi && IsSqrt(sqrt)
    requires ExpectedAbsoluteValue(stdDevs, pi, sqrt).Ok?
    ensures Square(ExpectedAbsoluteValue(stdDevs, pi, sqrt).value) == 2.0 / pi * SumOfSquares(stdDevs)
  {
    var factor, norm := sqrt(2.0 / pi), Norm(stdDevs, sqrt);
    SquareOfProduct(factor, norm);
  }

  lemma ExpectedAbsoluteValueIs(stdDevs: seq<real>, pi: real, sqrt: real -> real)
    requires 0.0 < pi && IsSqrt(sqrt)
    requires forall i | 0 <= i < |stdDevs| :: 0.0 <= stdDevs[i]
    ensures ExpectedAbsoluteValue(stdDevs, pi, sqrt).Ok?
    ensures ExpectedAbsoluteValue(stdDevs, pi, sqrt).value == sqrt(2.0 / pi) * Norm(stdDevs, sqrt)
  {
  }

  /** A vector of zero standard deviations has expected absolute value exactly 0. */
  lemma ExpectedAbsoluteValueOfZero(stdDevs: seq<real>, pi: real, sqrt: real -> real)
    requires 0.0 < pi && IsSqrt(sqrt)
    requires forall i | 0 <= i < |stdDevs| :: stdDevs[i] == 0.0
    ensures ExpectedAbsoluteValue(stdDevs, pi, sqrt) == Ok(0.0)
  {
    SumOfSquaresZero(stdDevs);
    SqrtZeroIff(sqrt, 0.0);
    assert Norm(stdDevs, sqrt) == 0.0;
  }

  /** Scaling every standard deviation by c >= 0 scales the result by c. */
  lemma ExpectedAbsoluteValueScales(stdDevs: seq<real>, c: real, pi: real, sqrt: real -> real)
    requires 0.0 < pi && IsSqrt(sqrt) && 0.0 <= c
    requires ExpectedAbsoluteValue(stdDevs, pi, sqrt).Ok?
    ensures ExpectedAbsoluteValue(Scale(c, stdDevs), pi, sqrt).Ok?
    ensures ExpectedAbsoluteValue(Scale(c, stdDevs), pi, sqrt).value
         == c * ExpectedAbsoluteValue(stdDevs, pi, sqrt).value
  {
    var scaled := Scale(c, stdDevs);
    forall i | 0 <= i < |scaled|
      ensures 0.0 <= scaled[i]
    {
      MulNonNegative(c, stdDevs[i]);
    }
    NormScale(sqrt, c, stdDevs);
    ExpectedAbsoluteValueIs(scaled, pi, sqrt);
    ExpectedAbsoluteValueIs(stdDevs, pi, sqrt);
    MulCongruence(sqrt(2.0 / pi), Norm(scaled, sqrt), c * Norm(stdDevs, sqrt));
    MulRearrange(sqrt(2.0 / pi), c, Norm(stdDevs, sqrt));
  }

  // ---------------------------------------------------------------------------
  // Expected TRE (equation 46)
  // ---------------------------------------------------------------------------

  /** A numpy argument: something that is not an array, a one-dimensional
      array of `size` entries (it has no `shape[1]`), or a two-dimensional
      array of `rows` with `cols` columns. */
  datatype ArrayArg = NotAnArray | Array1D(size: nat) | Array2D(cols: nat, rows: seq<seq<real>>)

  /** At least three fiducials, two coordinates each. */
  predicate IsFiducialArray(a: ArrayArg) {
    a.Array2D? && a.cols == Dimension && 3 <= |a.rows|
  }

  /** A single point with two coordinates. */
  predicate IsTargetArray(a: ArrayArg) {
    a.Array2D? && a.cols == Dimension && |a.rows| == 1
  }

  /** The argument checks of compute_tre_from_fle_2d, in the order it makes
      them. Reading `shape[1]` of a one-dimensional array raises IndexError. */
  function ValidateTreInputs(fiducials: ArrayArg, targetPoint: ArrayArg): (r: Outcome)
    ensures r.Pass? <==> IsFiducialArray(fiducials) && IsTargetArray(targetPoint)
    ensures r.Fail? ==> (r.error == TypeError <==> fiducials.NotAnArray? || (IsFiducialArray(fiducials) && targetPoint.NotAnArray?))
    ensures r.Fail? ==> (r.error == IndexError <==> fiducials.Array1D? || (IsFiducialArray(fiducials) && targetPoint.Array1D?))
    ensures r.Fail? ==> r.error in {TypeError, IndexError, ValueError}
  {
    if fiducials.NotAnArray? then Fail(TypeError)
    else if fiducials.Array1D? then Fail(IndexError)
    else if fiducials.cols != Dimension then Fail(ValueError)
    else if |fiducials.rows| < 3 then Fail(ValueError)
    else if targetPoint.NotAnArray? then Fail(TypeError)
    else if targetPoint.Array1D? then Fail(IndexError)
    else if targetPoint.cols != Dimension then Fail(ValueError)
    else if |targetPoint.rows| != 1 then Fail(ValueError)
    else Pass
  }

  /** The root-mean-square of the fiducials' distances from one principal axis. */
  function AxisRms(distances: seq<real>, n: nat, sqrt: real -> real): real
    requires 0 < n
  {
    sqrt(SumOfSquares(distances) / n as real)
  }

  function AxisRmsValues(fiducialDistances: seq<seq<real>>, n: nat, sqrt: real -> real): (f: seq<real>)
    requires 0 < n
    ensures |f| == |fiducialDistances|
    ensures forall k | 0 <= k < |f| :: f[k] == AxisRms(fiducialDistances[k], n, sqrt)
  {
    seq(|fiducialDistances|, k requires 0 <= k < |fiducialDistances| => AxisRms(fiducialDistances[k], n, sqrt))
  }

  /** f_k is non-negative and its square is the mean of the squared distances. */
  lemma AxisRmsIsRootMeanSquare(distances: seq<real>, n: nat, sqrt: real -> real)
    requires 0 < n && IsSqrt(sqrt)
    ensures 0.0 <= AxisRms(distances, n, sqrt)
    ensures Square(AxisRms(distances, n, sqrt)) * (n as real) == SumOfSquares(distances)
  {
    var mean := SumOfSquares(distances) / n as real;
    assert 0.0 <= mean;
    assert mean * (n as real) == SumOfSquares(distances);
  }

  predicate NoZero(f: seq<real>) {
    forall k | 0 <= k < |f| :: f[k] != 0.0
  }

  /** The sum of d_k^2 / f_k, as the code divides: by f_k, not by f_k^2. */
  function InnerSumAsWritten(f: seq<real>, d: seq<real>): real
    requires |f| == |d| && NoZero(f)
  {
    if f == [] then 0.0
    else InnerSumAsWritten(f[..|f| - 1], d[..|d| - 1]) + Square(d[|d| - 1]) / f[|f| - 1]
  }

  /** (m / N) * (1 + (1/2) * innerSum), the outer form of equation 46. */
  function Combine(meanFleSquared: real, n: nat, innerSum: real): real
    requires 0 < n
  {
    (meanFleSquared / n as real) * (1.0 + (1.0 / Dimension as real) * innerSum)
  }

  /** Equation 46 as the code combines it: (m / N) * (1 + (1/2) * sum of d_k^2 / f_k).
      An f_k of 0 is a division by zero. */
  function TreAsWritten(meanFleSquared: real, n: nat, f: seq<real>, d: seq<real>): Result<real>
    requires 0 < n && |f| == |d|
  {
    if !NoZero(f) then Err(ZeroDivisionError)
    else Ok(Combine(meanFleSquared, n, InnerSumAsWritten(f, d)))
  }

  /** The sum of d_k^2 / f_k^2 that equation 46 prescribes. */
  function InnerSum(f: seq<real>, d: seq<real>): real
    requires |f| == |d| && NoZero(f)
  {
    if f == [] then 0.0
    else
      SquarePositive(f[|f| - 1]);
      InnerSum(f[..|f| - 1], d[..|d| - 1]) + Square(d[|d| - 1]) / Square(f[|f| - 1])
  }

  /** Equation 46 as published: (m / N) * (1 + (1/2) * sum of d_k^2 / f_k^2). */
  function ExpectedTreSquared(meanFleSquared: real, n: nat, f: seq<real>, d: seq<real>): Result<real>
    requires 0 < n && |f| == |d|
  {
    if !NoZero(f) then Err(ZeroDivisionError)
    else Ok(Combine(meanFleSquared, n, InnerSum(f, d)))
  }

  lemma {:induction false} InnerSumsVanishOnAxes(f: seq<real>, d: seq<real>)
    requires |f| == |d| && NoZero(f)
    requires forall k | 0 <= k < |d| :: d[k] == 0.0
    ensures InnerSumAsWritten(f, d) == 0.0 && InnerSum(f, d) == 0.0
  {
    if f != [] {
      var n := |f|;
      InnerSumsVanishOnAxes(f[..n - 1], d[..n - 1]);
      assert Square(d[n - 1]) == 0.0;
      SquarePositive(f[n - 1]);
      assert Square(d[n - 1]) / Square(f[n - 1]) == 0.0;
    }
  }

  /** A target on every principal axis (all d_k = 0) gets TRE^2 = m / N, by the
      code and by the published equation alike. */
  lemma TreOnAxes(meanFleSquared: real, n: nat, f: seq<real>, d: seq<real>)
    requires 0 < n && |f| == |d| && NoZero(f)
    requires forall k | 0 <= k < |d| :: d[k] == 0.0
    ensures TreAsWritten(meanFleSquared, n, f, d) == Ok(meanFleSquared / n as real)
    ensures ExpectedTreSquared(meanFleSquared, n, f, d) == Ok(meanFleSquared / n as real)
  {
    InnerSumsVanishOnAxes(f, d);
  }

  lemma CancelFactor(k: real, a: real, b: real)
    requires k != 0.0 && b != 0.0
    ensures k * b != 0.0
    ensures (k * a) / (k * b) == a / b
  {
  }

  lemma RatioOfScaledSquares(c: real, x: real, y: real, cx: real, cy: real)
    requires c != 0.0 && y != 0.0 && cx == c * x && cy == c * y
    ensures Square(cy) != 0.0 && Square(y) != 0.0
    ensures Square(cx) / Square(cy) == Square(x) / Square(y)
  {
    SquareOfProduct(c, x);
    SquareOfProduct(c, y);
    SquarePositive(c);
    SquarePositive(y);
    CancelFactor(Square(c), Square(x), Square(y));
  }

  lemma InnerSumLast(f: seq<real>, d: seq<real>)
    requires |f| == |d| && NoZero(f) && f != []
    ensures Square(f[|f| - 1]) != 0.0
    ensures InnerSum(f, d) == InnerSum(f[..|f| - 1], d[..|d| - 1]) + Square(d[|d| - 1]) / Square(f[|f| - 1])
  {
    SquarePositive(f[|f| - 1]);
  }

  lemma ScaleNoZero(c: real, f: seq<real>)
    requires c != 0.0 && NoZero(f)
    ensures NoZero(Scale(c, f))
  {
    var cf := Scale(c, f);
    forall k | 0 <= k < |cf|
      ensures cf[k] != 0.0
    {
      assert cf[k] == c * f[k];
    }
  }

  /** Two inner sums agree when their prefixes agree and their last terms agree. */
  lemma InnerSumStep(f: seq<real>, d: seq<real>, g: seq<real>, e: seq<real>)
    requires |f| == |d| == |g| == |e| && f != [] && NoZero(f) && NoZero(g)
    requires InnerSum(g[..|g| - 1], e[..|e| - 1]) == InnerSum(f[..|f| - 1], d[..|d| - 1])
    requires Square(g[|g| - 1]) != 0.0 && Square(f[|f| - 1]) != 0.0
    requires Square(e[|e| - 1]) / Square(g[|g| - 1]) == Square(d[|d| - 1]) / Square(f[|f| - 1])
    ensures InnerSum(g, e) == InnerSum(f, d)
  {
    InnerSumLast(f, d);
    InnerSumLast(g, e);
  }

  lemma {:induction false} InnerSumScaleInvariant(c: real, f: seq<real>, d: seq<real>)
    requires c != 0.0 && |f| == |d| && NoZero(f)
    ensures NoZero(Scale(c, f))
    ensures InnerSum(Scale(c, f), Scale(c, d)) == InnerSum(f, d)
  {
    ScaleNoZero(c, f);
    if f != [] {
      var n := |f|;
      var cf, cd := Scale(c, f), Scale(c, d);
      ScalePrefix(c, f, n - 1);
      ScalePrefix(c, d, n - 1);
      InnerSumScaleInvariant(c, f[..n - 1], d[..n - 1]);
      RatioOfScaledSquares(c, d[n - 1], f[n - 1], cd[n - 1], cf[n - 1]);
      InnerSumStep(f, d, cf, cd);
    }
  }

  /** Equation 46 is unit-free in the geometry: measuring every distance in
      another unit (scaling all f_k and d_k by c != 0) leaves TRE^2 unchanged. */
  lemma ExpectedTreScaleInvariant(meanFleSquared: real, n: nat, f: seq<real>, d: seq<real>, c: real)
    requires 0 < n && |f| == |d| && c != 0.0
    ensures ExpectedTreSquared(meanFleSquared, n, Scale(c, f), Scale(c, d))
         == ExpectedTreSquared(meanFleSquared, n, f, d)
  {
    if NoZero(f) {
      InnerSumScaleInvariant(c, f, d);
      assert NoZero(Scale(c, f));
    } else {
      var k :| 0 <= k < |f| && f[k] == 0.0;
      assert Scale(c, f)[k] == 0.0;
    }
  }

  /** The code's combination is not unit-free: the same configuration measured
      in units twice as small changes its estimate. */
  lemma TreAsWrittenDependsOnUnits()
    ensures TreAsWritten(1.0, 3, [2.0, 2.0], [2.0, 0.0]) == Ok(2.0 / 3.0)
    ensures TreAsWritten(1.0, 3, Scale(2.0, [2.0, 2.0]), Scale(2.0, [2.0, 0.0])) == Ok(1.0)
    ensures ExpectedTreSquared(1.0, 3, [2.0, 2.0], [2.0, 0.0]) == Ok(0.5)
  {
    assert Scale(2.0, [2.0, 2.0]) == [4.0, 4.0];
    assert Scale(2.0, [2.0, 0.0]) == [4.0, 0.0];
    assert [2.0, 2.0][..1] == [2.0] && [2.0, 0.0][..1] == [2.0];
    assert [4.0, 4.0][..1] == [4.0] && [4.0, 0.0][..1] == [4.0];
    assert InnerSumAsWritten([2.0, 2.0], [2.0, 0.0]) == 2.0;
    assert InnerSumAsWritten([4.0, 4.0], [4.0, 0.0]) == 4.0;
    assert InnerSum([2.0, 2.0], [2.0, 0.0]) == 1.0;
  }

  /** The inner loop of compute_tre_from_fle_2d: sum_f_k_squared over the fiducials. */
  method SumSquaredDistances(distances: seq<real>) returns (sum: real)
    ensures sum == SumOfSquares(distances)
  {
    sum := 0.0;
    var i := 0;
    while i < |distances|
      invariant 0 <= i <= |distances|
      invariant sum == SumOfSquares(distances[..i])
    {
      assert distances[..i + 1][..i] == distances[..i];
      sum := sum + Square(distances[i]);
      i := i + 1;
    }
    assert distances[..i] == distances;
  }

  /** The outer loop of compute_tre_from_fle_2d: f_array[k] is the RMS distance
      of the n fiducials from principal axis k. */
  method FillAxisRms(fiducialDistances: seq<seq<real>>, n: nat, sqrt: real -> real)
    returns (fArray: array<real>)
    requires 0 < n
    ensures fresh(fArray)
    ensures fArray[..] == AxisRmsValues(fiducialDistances, n, sqrt)
  {
    fArray := new real[|fiducialDistances|];
    var axis := 0;
    while axis < |fiducialDistances|
      invariant 0 <= axis <= |fiducialDistances|
      invariant forall k | 0 <= k < axis :: fArray[k] == AxisRms(fiducialDistances[k], n, sqrt)
    {
      var sumFkSquared := SumSquaredDistances(fiducialDistances[axis]);
      fArray[axis] := sqrt(sumFkSquared / n as real);
      axis := axis + 1;
    }
  }

  /** compute_tre_from_fle_2d: validates its arguments, fills f_array with the
      per-axis RMS distances of the fiducials and combines them with the
      target's distances. The principal axes come from an eigen-decomposition
      the model does not perform: `fiducialDistances[k][i]` is fiducial i's
      distance from axis k and `targetDistances[k]` the target's. */
  method ComputeTreFromFle2d(fiducials: ArrayArg, meanFleSquared: real, targetPoint: ArrayArg,
                             fiducialDistances: seq<seq<real>>, targetDistances: seq<real>,
                             sqrt: real -> real)
    returns (r: Result<real>)
    requires |fiducialDistances| == Dimension && |targetDistances| == Dimension
    requires fiducials.Array2D? ==>
               forall k | 0 <= k < Dimension :: |fiducialDistances[k]| == |fiducials.rows|
    ensures ValidateTreInputs(fiducials, targetPoint).Fail? ==>
              r == Err(ValidateTreInputs(fiducials, targetPoint).error)
    ensures ValidateTreInputs(fiducials, targetPoint).Pass? ==>
              r == TreAsWritten(meanFleSquared, |fiducials.rows|,
                                AxisRmsValues(fiducialDistances, |fiducials.rows|, sqrt),
                                targetDistances)
  {
    var check := ValidateTreInputs(fiducials, targetPoint);
    if check.Fail? {
      return Err(check.error);
    }
    var n := |fiducials.rows|;
    var fArray := FillAxisRms(fiducialDistances, n, sqrt);
    ghost var f := fArray[..];
    var innerSum := 0.0;
    var axis := 0;
    while axis < Dimension
      invariant 0 <= axis <= Dimension
      invariant fArray[..] == f
      invariant NoZero(f[..axis])
      invariant innerSum == InnerSumAsWritten(f[..axis], targetDistances[..axis])
    {
      if fArray[axis] == 0.0 {
        assert !NoZero(f);
        return Err(ZeroDivisionError);
      }
      assert f[..axis + 1][..axis] == f[..axis];
      assert targetDistances[..axis + 1][..axis] == targetDistances[..axis];
      innerSum := innerSum + Square(targetDistances[axis]) / fArray[axis];
      axis := axis + 1;
    }
    assert f[..Dimension] == f && targetDistances[..Dimension] == targetDistances;
    r := Ok(Combine(meanFleSquared, n, innerSum));
  }
}
