/** Scoring for the ablation game: the volume of a sphere and the volume in
    which two spheres overlap. */
module Scores {
  import opened Common
  import opened RealMath
  import opened Geometry

  /** 4 pi r^3 / 3, evaluated left to right as the code writes it. */
  function SphereVolume(radius: real, pi: real): (v: real)
    requires 0.0 < pi
    ensures 0.0 <= radius ==> 0.0 <= v
    ensures radius == 0.0 ==> v == 0.0
  {
    CubeTermNonNegative(4.0 * pi, radius);
    4.0 * pi * radius * radius * radius / 3.0
  }

  lemma CubeTermNonNegative(k: real, radius: real)
    requires 0.0 <= k
    ensures 0.0 <= radius ==> 0.0 <= k * radius * radius * radius
  {
    if 0.0 <= radius {
      MulNonNegative(k, radius);
      MulNonNegative(k * radius, radius);
      MulNonNegative(k * radius * radius, radius);
    }
  }

  /** A bigger sphere never has a smaller volume. */
  lemma SphereVolumeMonotone(a: real, b: real, pi: real)
    requires 0.0 < pi && 0.0 <= a <= b
    ensures SphereVolume(a, pi) <= SphereVolume(b, pi)
  {
    var k := 4.0 * pi;
    MulNonNegative(k, a);
    MulNonNegative(k * a, a);
    MulBothMonotone(k * a, k * b, a, b);
    MulBothMonotone(k * a * a, k * b * b, a, b);
  }

  /** The lens-shaped overlap of two spheres whose centres are `distance` apart:
      pi / (12 d) * (s - d)^2 * (d^2 + 2 d s - 3 delta^2), with s the sum and
      delta the absolute difference of the radii. */
  function LensVolume(pi: real, distance: real, sumRadii: real, absDiffRadii: real): real
    requires distance != 0.0
  {
    var firstTerm := pi / (12.0 * distance);
    var secondTerm := (sumRadii - distance) * (sumRadii - distance);
    var thirdTerm := distance * distance + 2.0 * distance * sumRadii - 3.0 * absDiffRadii * absDiffRadii;
    firstTerm * secondTerm * thirdTerm
  }

  /** two_sphere_overlap_volume as written. The lens branch is reached with
      distance 0 when the spheres coincide: pi / 0 is infinite and is then
      multiplied by a third term of 0, giving NaN, modelled as None. */
  function TwoSphereOverlapVolume(centre0: Vec3, centre1: Vec3, radius0: real, radius1: real,
                                  pi: real, sqrt: real -> real): (r: Option<real>)
    requires 0.0 < pi && IsSqrt(sqrt)
    ensures r.None? <==> centre0 == centre1 && radius0 == radius1 && 0.0 < radius0
  {
    var distance := Distance(centre0, centre1, sqrt);
    var sumRadii := radius0 + radius1;
    var absDiffRadii := Abs(radius0 - radius1);
    DistanceZeroIff(centre0, centre1, sqrt);
    if distance >= sumRadii then Some(0.0)
    else if distance < absDiffRadii then
      if radius0 < radius1 then Some(SphereVolume(radius0, pi)) else Some(SphereVolume(radius1, pi))
    else if distance == 0.0 then None
    else Some(LensVolume(pi, distance, sumRadii, absDiffRadii))
  }

  /** Centres at least r0 + r1 apart: the spheres do not overlap. */
  lemma OverlapOfSeparatedSpheres(centre0: Vec3, centre1: Vec3, radius0: real, radius1: real,
                                  pi: real, sqrt: real -> real)
    requires 0.0 < pi && IsSqrt(sqrt)
    requires Distance(centre0, centre1, sqrt) >= radius0 + radius1
    ensures TwoSphereOverlapVolume(centre0, centre1, radius0, radius1, pi, sqrt) == Some(0.0)
  {
  }

  /** Centres closer than |r0 - r1|: the smaller sphere lies inside the other
      and the overlap is its whole volume. */
  lemma OverlapOfNestedSpheres(centre0: Vec3, centre1: Vec3, radius0: real, radius1: real,
                               pi: real, sqrt: real -> real)
    requires 0.0 < pi && IsSqrt(sqrt)
    requires 0.0 <= radius0 && 0.0 <= radius1
    requires Distance(centre0, centre1, sqrt) < Abs(radius0 - radius1)
    ensures TwoSphereOverlapVolume(centre0, centre1, radius0, radius1, pi, sqrt)
         == Some(SphereVolume(Min(radius0, radius1), pi))
  {
  }

  /** Anything in between with distinct centres: the lens formula. */
  lemma OverlapOfIntersectingSpheres(centre0: Vec3, centre1: Vec3, radius0: real, radius1: real,
                                     pi: real, sqrt: real -> real)
    requires 0.0 < pi && IsSqrt(sqrt)
    requires Abs(radius0 - radius1) <= Distance(centre0, centre1, sqrt) < radius0 + radius1
    requires centre0 != centre1
    ensures Distance(centre0, centre1, sqrt) != 0.0
    ensures TwoSphereOverlapVolume(centre0, centre1, radius0, radius1, pi, sqrt)
         == Some(LensVolume(pi, Distance(centre0, centre1, sqrt), radius0 + radius1, Abs(radius0 - radius1)))
  {
    DistanceZeroIff(centre0, centre1, sqrt);
  }

  /** The overlap does not depend on which sphere is called sphere 0. */
  lemma OverlapSymmetric(centre0: Vec3, centre1: Vec3, radius0: real, radius1: real,
                         pi: real, sqrt: real -> real)
    requires 0.0 < pi && IsSqrt(sqrt)
    ensures TwoSphereOverlapVolume(centre0, centre1, radius0, radius1, pi, sqrt)
         == TwoSphereOverlapVolume(centre1, centre0, radius1, radius0, pi, sqrt)
  {
    DistanceSymmetric(centre0, centre1, sqrt);
    assert Abs(radius0 - radius1) == Abs(radius1 - radius0);
  }

  /** The lens formula is non-negative whenever its branch is taken with
      non-negative radii. */
  lemma LensNonNegative(pi: real, distance: real, sumRadii: real, absDiffRadii: real)
    ensures 0.0 < pi && 0.0 < distance && 0.0 <= absDiffRadii <= distance && absDiffRadii <= sumRadii ==>
              0.0 <= LensVolume(pi, distance, sumRadii, absDiffRadii)
  {
    if 0.0 < pi && 0.0 < distance && 0.0 <= absDiffRadii <= distance && absDiffRadii <= sumRadii {
      var d, s, e := distance, sumRadii, absDiffRadii;
      var firstTerm := pi / (12.0 * d);
      var secondTerm := (s - d) * (s - d);
      SquareNonNegative(s - d);
      MulBothMonotone(e, d, e, d);
      MulBothMonotone(e, d, e, s);
      assert 2.0 * d * s == 2.0 * (d * s);
      assert 0.0 <= d * d + 2.0 * d * s - 3.0 * e * e;
      MulNonNegative(firstTerm, secondTerm);
      MulNonNegative(firstTerm * secondTerm, d * d + 2.0 * d * s - 3.0 * e * e);
    }
  }

  /** With non-negative radii no branch yields a negative volume. */
  lemma OverlapNonNegative(centre0: Vec3, centre1: Vec3, radius0: real, radius1: real,
                           pi: real, sqrt: real -> real)
    requires 0.0 < pi && IsSqrt(sqrt)
    requires 0.0 <= radius0 && 0.0 <= radius1
    ensures TwoSphereOverlapVolume(centre0, centre1, radius0, radius1, pi, sqrt).Some? ==>
              0.0 <= TwoSphereOverlapVolume(centre0, centre1, radius0, radius1, pi, sqrt).value
  {
    var distance := Distance(centre0, centre1, sqrt);
    DistanceZeroIff(centre0, centre1, sqrt);
    if Abs(radius0 - radius1) <= distance < radius0 + radius1 && distance != 0.0 {
      LensNonNegative(pi, distance, radius0 + radius1, Abs(radius0 - radius1));
    }
  }

  /** Two coincident spheres of the same positive radius reach the lens
      formula with distance 0 and produce NaN instead of their volume. */
  lemma CoincidentSpheresAsWritten(centre: Vec3, radius: real, pi: real, sqrt: real -> real)
    requires 0.0 < pi && IsSqrt(sqrt) && 0.0 < radius
    ensures TwoSphereOverlapVolume(centre, centre, radius, radius, pi, sqrt) == None
  {
  }

  /** The overlap with the nested-sphere test made inclusive (distance <=
      |r0 - r1|), so coincident equal spheres count as nested. */
  function OverlapVolume(centre0: Vec3, centre1: Vec3, radius0: real, radius1: real,
                         pi: real, sqrt: real -> real): (v: real)
    requires 0.0 < pi && IsSqrt(sqrt)
    ensures 0.0 <= radius0 && 0.0 <= radius1 ==> 0.0 <= v
  {
    var distance := Distance(centre0, centre1, sqrt);
    var sumRadii := radius0 + radius1;
    var absDiffRadii := Abs(radius0 - radius1);
    DistanceZeroIff(centre0, centre1, sqrt);
    LensNonNegative(pi, distance, sumRadii, absDiffRadii);
    if distance >= sumRadii then 0.0
    else if distance <= absDiffRadii then
      if radius0 < radius1 then SphereVolume(radius0, pi) else SphereVolume(radius1, pi)
    else LensVolume(pi, distance, sumRadii, absDiffRadii)
  }

  /** A sphere overlaps itself in its whole volume. */
  lemma OverlapWithItself(centre: Vec3, radius: real, pi: real, sqrt: real -> real)
    requires 0.0 < pi && IsSqrt(sqrt) && 0.0 <= radius
    ensures OverlapVolume(centre, centre, radius, radius, pi, sqrt) == SphereVolume(radius, pi)
  {
    DistanceZeroIff(centre, centre, sqrt);
  }

  /** At distance == |r0 - r1| > 0 the lens formula already equals the smaller
      sphere's volume: pi (s - d)^3 / 6 with s - d twice the smaller radius. */
  lemma LensAtNestingDistance(pi: real, distance: real, sumRadii: real, smaller: real)
    requires 0.0 < pi && 0.0 < distance && sumRadii - distance == 2.0 * smaller
    ensures LensVolume(pi, distance, sumRadii, distance) == SphereVolume(smaller, pi)
  {
    var d, s, m := distance, sumRadii, smaller;
    var firstTerm := pi / (12.0 * d);
    var thirdTerm := d * d + 2.0 * d * s - 3.0 * d * d;
    assert thirdTerm == 2.0 * d * (s - d);
    assert firstTerm * (2.0 * d) == pi / 6.0;
    calc {
      LensVolume(pi, d, s, d);
    ==
      firstTerm * ((s - d) * (s - d)) * thirdTerm;
    ==
      firstTerm * ((2.0 * m) * (2.0 * m)) * (2.0 * d * (2.0 * m));
    ==
      (firstTerm * (2.0 * d)) * (8.0 * (m * m * m));
    ==
      pi / 6.0 * (8.0 * (m * m * m));
    ==
      4.0 * pi * m * m * m / 3.0;
    }
  }

  /** Whenever the centres are distinct the corrected overlap and the code
      agree, so the correction changes only the coincident case. */
  lemma OverlapVolumeAgreesAwayFromCoincidence(centre0: Vec3, centre1: Vec3, radius0: real, radius1: real,
                                               pi: real, sqrt: real -> real)
    requires 0.0 < pi && IsSqrt(sqrt) && centre0 != centre1
    ensures TwoSphereOverlapVolume(centre0, centre1, radius0, radius1, pi, sqrt).Some?
    ensures TwoSphereOverlapVolume(centre0, centre1, radius0, radius1, pi, sqrt).value
         == OverlapVolume(centre0, centre1, radius0, radius1, pi, sqrt)
  {
    var distance := Distance(centre0, centre1, sqrt);
    var sumRadii := radius0 + radius1;
    DistanceZeroIff(centre0, centre1, sqrt);
    if distance < sumRadii && distance == Abs(radius0 - radius1) {
      LensAtNestingDistance(pi, distance, sumRadii, Min(radius0, radius1));
    }
  }
}
