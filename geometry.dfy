/** Points in space, as the 1x3 numpy rows the system passes around. */
module Geometry {
  import opened Common
  import opened RealMath

  datatype Vec3 = Vec3(x: real, y: real, z: real)

  function AsSeq(v: Vec3): seq<real> {
    [v.x, v.y, v.z]
  }

  function Add(a: Vec3, b: Vec3): Vec3 {
    Vec3(a.x + b.x, a.y + b.y, a.z + b.z)
  }

  function Sub(a: Vec3, b: Vec3): Vec3 {
    Vec3(a.x - b.x, a.y - b.y, a.z - b.z)
  }

  /** Entry-by-entry product, as numpy's `*` on two rows. */
  function Times(a: Vec3, b: Vec3): Vec3 {
    Vec3(a.x * b.x, a.y * b.y, a.z * b.z)
  }

  const Zero: Vec3 := Vec3(0.0, 0.0, 0.0)

  /** numpy.linalg.norm(to - from). */
  function Distance(from: Vec3, to: Vec3, sqrt: real -> real): real {
    Norm(AsSeq(Sub(to, from)), sqrt)
  }

  lemma SquareOfNegation(x: real)
    ensures Square(-x) == Square(x)
  {
    calc {
      Square(-x);
    ==
      (-x) * (-x);
    ==
      x * x;
    }
  }

  lemma SumOfSquaresOfThree(p: real, q: real, r: real)
    ensures SumOfSquares([p, q, r]) == Square(p) + Square(q) + Square(r)
  {
    assert [p, q, r][..2] == [p, q];
    assert [p, q][..1] == [p];
    assert [p][..0] == [];
    calc {
      SumOfSquares([p, q, r]);
    ==
      SumOfSquares([p, q]) + Square(r);
    ==
      SumOfSquares([p]) + Square(q) + Square(r);
    ==
      SumOfSquares([]) + Square(p) + Square(q) + Square(r);
    }
  }

  /** The distance does not depend on the direction it is measured in. */
  lemma DistanceSymmetric(a: Vec3, b: Vec3, sqrt: real -> real)
    ensures Distance(a, b, sqrt) == Distance(b, a, sqrt)
  {
    SquareOfNegation(b.x - a.x);
    SquareOfNegation(b.y - a.y);
    SquareOfNegation(b.z - a.z);
    SumOfSquaresOfThree(b.x - a.x, b.y - a.y, b.z - a.z);
    SumOfSquaresOfThree(a.x - b.x, a.y - b.y, a.z - b.z);
  }

  /** Two points are at distance zero exactly when they coincide. */
  lemma DistanceZeroIff(a: Vec3, b: Vec3, sqrt: real -> real)
    requires IsSqrt(sqrt)
    ensures 0.0 <= Distance(a, b, sqrt)
    ensures Distance(a, b, sqrt) == 0.0 <==> a == b
  {
    var diff := AsSeq(Sub(b, a));
    SumOfSquaresZero(diff);
    SqrtZeroIff(sqrt, SumOfSquares(diff));
    assert (forall i | 0 <= i < 3 :: diff[i] == 0.0) <==> a == b by {
      assert diff[0] == b.x - a.x && diff[1] == b.y - a.y && diff[2] == b.z - a.z;
    }
  }

  /** A mouse press: outside the axes matplotlib reports no data coordinates. */
  datatype MouseEvent = OffAxes | OnAxes(xdata: real, ydata: real)

  /** A click on the image at (x, y): the fiducial lies in the z = 0 plane. */
  function ClickLocation(xdata: real, ydata: real): (p: Vec3)
    ensures p.z == 0.0 && p.x == xdata && p.y == ydata
  {
    Vec3(xdata, ydata, 0.0)
  }

  /** A standard deviation numpy.random.normal accepts: none of its entries
      is negative. */
  predicate IsScale(sd: Vec3) {
    0.0 <= sd.x && 0.0 <= sd.y && 0.0 <= sd.z
  }

  /** numpy.random.normal(location, sd): `draw` holds the standard-normal
      samples, one per axis, so each axis is moved by its own sd times its
      draw. A negative standard deviation raises ValueError. */
  function Perturb(location: Vec3, sd: Vec3, draw: Vec3): (r: Result<Vec3>)
    ensures r.Err? <==> sd.x < 0.0 || sd.y < 0.0 || sd.z < 0.0
    ensures r.Err? ==> r.error == ValueError
    ensures r.Ok? && sd.x == 0.0 ==> r.value.x == location.x
    ensures r.Ok? && sd.y == 0.0 ==> r.value.y == location.y
    ensures r.Ok? && sd.z == 0.0 ==> r.value.z == location.z
  {
    if !IsScale(sd) then Err(ValueError)
    else Ok(Add(location, Times(sd, draw)))
  }

  /** Every clicked location is accepted as a fiducial. */
  function IsValidFiducial(location: Vec3): (valid: bool)
    ensures valid
  {
    true
  }
}
