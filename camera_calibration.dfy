/** The calibration workshop's helpers: transforming ID-tagged points by a
    homogeneous 4x4 matrix, and a mouse handler that collects fiducials and,
    from the third one on, reports the expected registration error. */
module CameraCalibration {
  import opened Common
  import opened RealMath
  import opened Geometry
  import opened Errors2d

  /** One row of a 4x4 matrix. */
  datatype Row4 = Row4(c0: real, c1: real, c2: real, c3: real)

  datatype Matrix4 = Matrix4(r0: Row4, r1: Row4, r2: Row4, r3: Row4)

  /** A row of the input array: the point ID, then x, y and z. */
  datatype IdPoint = IdPoint(id: real, position: Vec3)

  /** One row of the matrix times the homogeneous point (x, y, z, 1). */
  function ApplyRow(row: Row4, p: Vec3): real {
    row.c0 * p.x + row.c1 * p.y + row.c2 * p.z + row.c3 * 1.0
  }

  /** The first three homogeneous coordinates of matrix * (x, y, z, 1); the
      fourth is dropped without dividing by it. */
  function TransformPosition(m: Matrix4, p: Vec3): Vec3 {
    Vec3(ApplyRow(m.r0, p), ApplyRow(m.r1, p), ApplyRow(m.r2, p))
  }

  /** multiply_points_by_matrix: each point is transformed, its ID kept. */
  function MultiplyPointsByMatrix(points: seq<IdPoint>, m: Matrix4): (out: seq<IdPoint>)
    ensures |out| == |points|
    ensures forall i | 0 <= i < |out| :: out[i].id == points[i].id
  {
    seq(|points|, i requires 0 <= i < |points| => IdPoint(points[i].id, TransformPosition(m, points[i].position)))
  }

  const Identity: Matrix4 :=
    Matrix4(Row4(1.0, 0.0, 0.0, 0.0), Row4(0.0, 1.0, 0.0, 0.0),
            Row4(0.0, 0.0, 1.0, 0.0), Row4(0.0, 0.0, 0.0, 1.0))

  /** The identity matrix leaves every point, ID and position, unchanged. */
  lemma IdentityLeavesPoints(points: seq<IdPoint>)
    ensures MultiplyPointsByMatrix(points, Identity) == points
  {
    var out := MultiplyPointsByMatrix(points, Identity);
    forall i | 0 <= i < |points|
      ensures out[i] == points[i]
    {
      var p := points[i].position;
      assert TransformPosition(Identity, p) == p;
    }
  }

  /** A matrix whose bottom row is (0, 0, 0, 1): a rigid or affine transform. */
  predicate IsAffine(m: Matrix4) {
    m.r3 == Row4(0.0, 0.0, 0.0, 1.0)
  }

  /** A row of a times the matrix b. */
  function RowTimes(row: Row4, b: Matrix4): Row4 {
    Row4(row.c0 * b.r0.c0 + row.c1 * b.r1.c0 + row.c2 * b.r2.c0 + row.c3 * b.r3.c0,
         row.c0 * b.r0.c1 + row.c1 * b.r1.c1 + row.c2 * b.r2.c1 + row.c3 * b.r3.c1,
         row.c0 * b.r0.c2 + row.c1 * b.r1.c2 + row.c2 * b.r2.c2 + row.c3 * b.r3.c2,
         row.c0 * b.r0.c3 + row.c1 * b.r1.c3 + row.c2 * b.r2.c3 + row.c3 * b.r3.c3)
  }

  /** The matrix product a * b. */
  function MatMul(a: Matrix4, b: Matrix4): Matrix4 {
    Matrix4(RowTimes(a.r0, b), RowTimes(a.r1, b), RowTimes(a.r2, b), RowTimes(a.r3, b))
  }

  lemma ApplyRowTimes(row: Row4, b: Matrix4, p: Vec3)
    requires IsAffine(b)
    ensures ApplyRow(RowTimes(row, b), p) == ApplyRow(row, TransformPosition(b, p))
  {
  }

  /** Transforming by b and then by a is transforming by a * b, provided b is
      affine: the dropped fourth coordinate of b's output is then always 1. */
  lemma ComposeAffine(points: seq<IdPoint>, a: Matrix4, b: Matrix4)
    requires IsAffine(b)
    ensures MultiplyPointsByMatrix(MultiplyPointsByMatrix(points, b), a)
         == MultiplyPointsByMatrix(points, MatMul(a, b))
  {
    var once := MultiplyPointsByMatrix(points, b);
    var twice := MultiplyPointsByMatrix(once, a);
    var direct := MultiplyPointsByMatrix(points, MatMul(a, b));
    forall i | 0 <= i < |points|
      ensures twice[i] == direct[i]
    {
      var p := points[i].position;
      ApplyRowTimes(a.r0, b, p);
      ApplyRowTimes(a.r1, b, p);
      ApplyRowTimes(a.r2, b, p);
    }
  }

  /** The constructor's guards: the moving FLE must be zero, and the fixed FLE
      isotropic in x and y and zero in z. */
  function CheckFle(fixedFle: Vec3, movingFle: Vec3): (r: Outcome)
    ensures r.Pass? <==> movingFle == Zero && fixedFle.x == fixedFle.y && fixedFle.z == 0.0
    ensures r.Fail? ==> r.error == NotImplementedError
  {
    if !(movingFle.x == 0.0 && movingFle.y == 0.0 && movingFle.z == 0.0) then Fail(NotImplementedError)
    else if fixedFle.x != fixedFle.y then Fail(NotImplementedError)
    else if fixedFle.z != 0.0 then Fail(NotImplementedError)
    else Pass
  }

  /** What a click shows once a registration is possible. */
  datatype Estimates = Estimates(meanFleSquared: real, expectedFre: real)

  class AddFiducialMarker {
    var target: Vec3
    var fixedPoints: seq<Vec3>
    var movingPoints: seq<Vec3>
    var fixedFle: Vec3
    var movingFle: Vec3

    /** The two point lists are co-indexed and the FLE passed the guards. */
    ghost predicate Valid()
      reads this
    {
      |fixedPoints| == |movingPoints| && CheckFle(fixedFle, movingFle).Pass?
    }

    constructor (target: Vec3, fixedFle: Vec3, movingFle: Vec3)
      requires CheckFle(fixedFle, movingFle).Pass?
      ensures Valid()
      ensures this.target == target && this.fixedFle == fixedFle && this.movingFle == movingFle
      ensures fixedPoints == [] && movingPoints == []
    {
      this.target := target;
      this.fixedPoints := [];
      this.movingPoints := [];
      this.fixedFle := fixedFle;
      this.movingFle := movingFle;
    }

    /** AddFiducialMarker(...): raises NotImplementedError unless the FLE
        passes the guards, otherwise starts with no points. */
    static method New(target: Vec3, fixedFle: Vec3, movingFle: Vec3) returns (r: Result<AddFiducialMarker>)
      ensures r.Err? <==> CheckFle(fixedFle, movingFle).Fail?
      ensures r.Err? ==> r.error == NotImplementedError
      ensures r.Ok? ==> fresh(r.value) && r.value.Valid()
      ensures r.Ok? ==> r.value.fixedPoints == [] && r.value.movingPoints == []
    {
      var check := CheckFle(fixedFle, movingFle);
      if check.Fail? {
        return Err(check.error);
      }
      var marker := new AddFiducialMarker(target, fixedFle, movingFle);
      return Ok(marker);
    }

    /** A mouse press. A press on the axes adds the clicked location, with
        fixed FLE noise, to the fixed points and, exactly (the moving FLE is
        zero), to the moving points. A negative fixed FLE makes the sampler
        raise ValueError before either list changes. With more than two points
        it reports the squared mean FLE and the expected FRE. `fixedDraw`
        holds the standard-normal samples and `meanFle` the expected absolute
        FLE. */
    method Click(event: MouseEvent, fixedDraw: Vec3, movingDraw: Vec3, meanFle: real, sqrt: real -> real)
      returns (report: Result<Option<Estimates>>)
      requires Valid() && IsSqrt(sqrt)
      modifies this
      ensures Valid()
      ensures target == old(target) && fixedFle == old(fixedFle) && movingFle == old(movingFle)
      ensures report.Err? <==> event.OnAxes? && fixedFle.x < 0.0
      ensures report.Err? ==> report.error == ValueError
      ensures !(event.OnAxes? && 0.0 <= fixedFle.x) ==>
                fixedPoints == old(fixedPoints) && movingPoints == old(movingPoints)
      ensures event.OnAxes? && 0.0 <= fixedFle.x ==>
                fixedPoints == old(fixedPoints) + [Perturb(ClickLocation(event.xdata, event.ydata), fixedFle, fixedDraw).value]
      ensures event.OnAxes? && 0.0 <= fixedFle.x ==>
                movingPoints == old(movingPoints) + [ClickLocation(event.xdata, event.ydata)]
      ensures report.Ok? && report.value.Some? <==> event.OnAxes? && 0.0 <= fixedFle.x && |fixedPoints| > 2
      ensures report.Ok? && report.value.Some? ==> report.value.value.meanFleSquared == meanFle * meanFle
      ensures report.Ok? && report.value.Some? ==>
                var estimates := report.value.value;
                ComputeFre2d(movingPoints, estimates.meanFleSquared).Ok? &&
                0.0 <= estimates.expectedFre &&
                Square(estimates.expectedFre) == ComputeFre2d(movingPoints, estimates.meanFleSquared).value
    {
      report := Ok(None);
      if event.OnAxes? {
        var location := ClickLocation(event.xdata, event.ydata);
        if IsValidFiducial(location) {
          var fixedPoint := Perturb(location, fixedFle, fixedDraw);
          if fixedPoint.Err? {
            return Err(fixedPoint.error);
          }
          // The moving FLE passed the guards, so it is zero and never raises.
          var movingPoint := Perturb(location, movingFle, movingDraw);
          assert movingPoint.Ok?;
          fixedPoints := fixedPoints + [fixedPoint.value];
          movingPoints := movingPoints + [movingPoint.value];
          if |fixedPoints| > 2 {
            var meanFleSquared := meanFle * meanFle;
            var fre := ComputeFre2d(movingPoints, meanFleSquared);
            SquareNonNegative(meanFle);
            FreBounds(movingPoints, movingPoints, meanFleSquared);
            var expectedFre := sqrt(fre.value);
            report := Ok(Some(Estimates(meanFleSquared, expectedFre)));
          }
        }
      }
    }
  }
}
