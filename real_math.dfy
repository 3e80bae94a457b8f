/** Real-number helpers: the square root is a parameter of the model, known only
    through `IsSqrt`, and a vector norm is the square root of a sum of squares. */
module RealMath {

  /** `sqrt` is the non-negative square root on the non-negative reals. */
  ghost predicate IsSqrt(sqrt: real -> real) {
    forall x: real :: 0.0 <= x ==> 0.0 <= sqrt(x) && Square(sqrt(x)) == x
  }

  function Abs(x: real): real {
    if x < 0.0 then -x else x
  }

  function Min(a: real, b: real): real {
    if a <= b then a else b
  }

  lemma SquareNonNegative(x: real)
    ensures 0.0 <= Square(x)
  {
    if x < 0.0 {
      calc {
        Square(x);
      ==
        (-x) * (-x);
      >=
        0.0;
      }
    } else {
      calc {
        Square(x);
      ==
        x * x;
      >=
        0.0;
      }
    }
  }

  lemma SquarePositive(x: real)
    requires x != 0.0
    ensures 0.0 < Square(x)
  {
    if x < 0.0 {
      calc {
        Square(x);
      ==
        (-x) * (-x);
      >
        0.0;
      }
    } else {
      calc {
        Square(x);
      ==
        x * x;
      >
        0.0;
      }
    }
  }

  /** Squaring is strictly increasing on the non-negative reals. */
  lemma SquareLess(a: real, b: real)
    requires 0.0 <= a < b
    ensures Square(a) < Square(b)
  {
    calc {
      Square(a);
    ==
      a * a;
    <=
      a * b;
    <
      b * b;
    ==
      Square(b);
    }
  }

  function Square(x: real): real {
    x * x
  }

  lemma SquareOfProduct(c: real, x: real)
    ensures Square(c * x) == Square(c) * Square(x)
  {
    calc {
      Square(c * x);
    ==
      (c * x) * (c * x);
    ==
      (c * c) * (x * x);
    }
  }

  /** The sum of the squares of the entries, accumulated from the left. */
  function SumOfSquares(s: seq<real>): (r: real)
    ensures 0.0 <= r
  {
    if s == [] then 0.0
    else
      SquareNonNegative(s[|s| - 1]);
      SumOfSquares(s[..|s| - 1]) + Square(s[|s| - 1])
  }

  /** The sum of squares vanishes exactly when every entry does. */
  lemma {:induction false} SumOfSquaresZero(s: seq<real>)
    ensures SumOfSquares(s) == 0.0 <==> forall i | 0 <= i < |s| :: s[i] == 0.0
  {
    if s != [] {
      var n := |s|;
      var front, last := s[..n - 1], s[n - 1];
      SumOfSquaresZero(front);
      assert SumOfSquares(s) == SumOfSquares(front) + Square(last);
      if last != 0.0 {
        SquarePositive(last);
      } else {
        assert Square(last) == 0.0;
        assert (forall i | 0 <= i < n :: s[i] == 0.0) <==> (forall i | 0 <= i < n - 1 :: front[i] == 0.0);
      }
    }
  }

  /** `s` with every entry multiplied by `c`. */
  function Scale(c: real, s: seq<real>): (r: seq<real>)
    ensures |r| == |s|
    ensures forall i | 0 <= i < |s| :: r[i] == c * s[i]
  {
    seq(|s|, i requires 0 <= i < |s| => c * s[i])
  }

  lemma ScalePrefix(c: real, s: seq<real>, k: nat)
    requires k <= |s|
    ensures Scale(c, s)[..k] == Scale(c, s[..k])
  {
    var a, b := Scale(c, s)[..k], Scale(c, s[..k]);
    forall i | 0 <= i < k
      ensures a[i] == b[i]
    {
    }
  }

  /** The Euclidean norm, as numpy.linalg.norm computes it. */
  function Norm(s: seq<real>, sqrt: real -> real): real {
    sqrt(SumOfSquares(s))
  }

  /** A non-negative root of x is the value `sqrt` gives. */
  lemma SqrtUnique(sqrt: real -> real, x: real, y: real)
    requires IsSqrt(sqrt)
    requires 0.0 <= y && Square(y) == x
    ensures sqrt(x) == y
  {
    var s := sqrt(x);
    assert 0.0 <= s && Square(s) == x;
    if s < y {
      SquareLess(s, y);
    } else if y < s {
      SquareLess(y, s);
    }
  }

  lemma SqrtZeroIff(sqrt: real -> real, x: real)
    requires IsSqrt(sqrt) && 0.0 <= x
    ensures sqrt(x) == 0.0 <==> x == 0.0
  {
    if x == 0.0 {
      SqrtUnique(sqrt, x, 0.0);
    } else {
      var s := sqrt(x);
      assert Square(s) == x;
    }
  }

  /** Scaling every entry by c >= 0 scales the sum of squares by c squared. */
  lemma {:induction false} SumOfSquaresScale(c: real, s: seq<real>)
    ensures SumOfSquares(Scale(c, s)) == Square(c) * SumOfSquares(s)
  {
    if s != [] {
      var n := |s|;
      var front, scaledFront := Scale(c, s)[..n - 1], Scale(c, s[..n - 1]);
      forall i | 0 <= i < n - 1
        ensures front[i] == scaledFront[i]
      {
      }
      assert front == scaledFront;
      SumOfSquaresScale(c, s[..n - 1]);
      var last := s[n - 1];
      assert Scale(c, s)[n - 1] == c * last;
      SquareOfProduct(c, last);
      var a, b, k := SumOfSquares(s[..n - 1]), Square(last), Square(c);
      calc {
        SumOfSquares(Scale(c, s));
      ==
        SumOfSquares(front) + Square(c * last);
      ==
        k * a + k * b;
      ==
        k * (a + b);
      ==
        k * SumOfSquares(s);
      }
    }
  }

  /** The norm is absolutely homogeneous: norm(c * s) == c * norm(s) for c >= 0. */
  lemma NormScale(sqrt: real -> real, c: real, s: seq<real>)
    requires IsSqrt(sqrt) && 0.0 <= c
    ensures Norm(Scale(c, s), sqrt) == c * Norm(s, sqrt)
  {
    SumOfSquaresScale(c, s);
    var n := Norm(s, sqrt);
    assert 0.0 <= n && Square(n) == SumOfSquares(s);
    SquareOfProduct(c, n);
    SqrtUnique(sqrt, SumOfSquares(Scale(c, s)), c * n);
  }

  lemma MulMonotone(a: real, b: real, m: real)
    requires a <= b && 0.0 <= m
    ensures a * m <= b * m
  {
    calc {
      b * m - a * m;
    ==
      (b - a) * m;
    >=
      0.0;
    }
  }

  lemma MulNonNegative(a: real, b: real)
    requires 0.0 <= a && 0.0 <= b
    ensures 0.0 <= a * b
  {
  }

  lemma MulCongruence(a: real, x: real, y: real)
    requires x == y
    ensures a * x == a * y
  {
  }

  lemma MulRearrange(a: real, b: real, x: real)
    ensures a * (b * x) == b * (a * x)
  {
  }

  lemma MulBothMonotone(a: real, b: real, x: real, y: real)
    requires 0.0 <= a <= b && 0.0 <= x <= y
    ensures a * x <= b * y
  {
    MulMonotone(a, b, x);
    MulMonotone(x, y, b);
  }
}
