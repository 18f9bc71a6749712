/**
  Three-component vectors with a Euclidean length, standing in for the host's
  vector type: the difference of two translations and its length.

  Square roots of reals cannot be constructed inside the verifier, so `Sqrt`
  chooses a root when one is known to exist (`HasRoot`). Over the real numbers
  every non-negative value has one; the other branch is never taken there.
*/
module Vectors {

  datatype Vec3 = Vec3(x: real, y: real, z: real)

  const Zero := Vec3(0.0, 0.0, 0.0)

  function Add(a: Vec3, b: Vec3): (r: Vec3)
    ensures Sub(r, b) == a
  {
    Vec3(a.x + b.x, a.y + b.y, a.z + b.z)
  }

  function Sub(a: Vec3, b: Vec3): (r: Vec3)
    ensures r == Zero <==> a == b
  {
    Vec3(a.x - b.x, a.y - b.y, a.z - b.z)
  }

  /** The squared Euclidean length. */
  function SqNorm(v: Vec3): (n: real)
    ensures n >= 0.0
  {
    v.x * v.x + v.y * v.y + v.z * v.z
  }

  /** The squared length is zero exactly for the zero vector. */
  lemma SqNormPositive(v: Vec3)
    ensures SqNorm(v) > 0.0 <==> v != Zero
  {
    if v == Zero {
      assert SqNorm(v) == 0.0 * 0.0 + 0.0 * 0.0 + 0.0 * 0.0;
    } else {
      assert v.x != 0.0 || v.y != 0.0 || v.z != 0.0;
      SquarePositive(v.x);
      SquarePositive(v.y);
      SquarePositive(v.z);
      calc {
        SqNorm(v);
      ==
        v.x * v.x + v.y * v.y + v.z * v.z;
      >
        0.0;
      }
    }
  }

  /** A square is never negative, and positive unless the number is zero. */
  lemma SquarePositive(a: real)
    ensures a * a >= 0.0
    ensures a != 0.0 ==> a * a > 0.0
  {
    if a < 0.0 {
      assert a * a == (-a) * (-a);
    }
  }

  /** `q` is the non-negative square root of `s`. */
  predicate IsRoot(q: real, s: real)
  {
    q >= 0.0 && q * q == s
  }

  ghost predicate HasRoot(s: real)
  {
    exists q :: IsRoot(q, s)
  }

  /** A non-negative real has at most one non-negative square root. */
  lemma RootUnique(a: real, b: real, s: real)
    requires IsRoot(a, s) && IsRoot(b, s)
    ensures a == b
  {
    if a != b {
      var lo, hi := if a < b then a else b, if a < b then b else a;
      assert (hi - lo) * (hi + lo) == hi * hi - lo * lo;
      PositiveProduct(hi - lo, hi + lo);
    }
  }

  /** The product of two positive numbers is positive. */
  lemma PositiveProduct(x: real, y: real)
    requires x > 0.0 && y > 0.0
    ensures x * y > 0.0
  {
  }

  ghost function Sqrt(s: real): (r: real)
    requires s >= 0.0
    ensures r >= 0.0
    ensures HasRoot(s) ==> IsRoot(r, s)
  {
    if HasRoot(s) then
      var q :| IsRoot(q, s);
      q
    else
      s
  }

  /** The root is positive exactly when the number is. */
  lemma SqrtPositive(s: real)
    requires s >= 0.0
    ensures Sqrt(s) > 0.0 <==> s > 0.0
  {
    var r := Sqrt(s);
    if HasRoot(s) {
      assert r * r == s;
      if r > 0.0 {
        calc {
          s;
        ==
          r * r;
        > { SquarePositive(r); }
          0.0;
        }
      } else {
        assert r == 0.0;
        assert s == 0.0 * 0.0;
      }
    }
  }

  /** The root of a square is the non-negative number squared. */
  lemma SqrtOfSquare(q: real)
    requires q >= 0.0
    ensures Sqrt(q * q) == q
  {
    SquarePositive(q);
    assert IsRoot(q, q * q);
    RootUnique(Sqrt(q * q), q, q * q);
  }

  /** The Euclidean length of a vector. */
  ghost function Length(v: Vec3): (len: real)
    ensures len >= 0.0
    ensures HasRoot(SqNorm(v)) ==> len * len == SqNorm(v)
  {
    Sqrt(SqNorm(v))
  }

  /** Only the zero vector has length zero. */
  lemma LengthPositive(v: Vec3)
    ensures Length(v) > 0.0 <==> v != Zero
  {
    SqNormPositive(v);
    SqrtPositive(SqNorm(v));
  }

  /** The length of a difference does not depend on its direction. */
  lemma {:induction false} LengthSubSymmetric(a: Vec3, b: Vec3)
    ensures Length(Sub(a, b)) == Length(Sub(b, a))
  {
    assert SqNorm(Sub(a, b)) == SqNorm(Sub(b, a)) by {
      SquareOfNegation(a.x - b.x);
      SquareOfNegation(a.y - b.y);
      SquareOfNegation(a.z - b.z);
    }
  }

  /** A number and its negation have the same square. */
  lemma SquareOfNegation(d: real)
    ensures d * d == (-d) * (-d)
  {
  }

  /** Moving both points by the same offset leaves their difference unchanged. */
  lemma SubShiftInvariant(a: Vec3, b: Vec3, v: Vec3)
    ensures Sub(Add(a, v), Add(b, v)) == Sub(a, b)
  {
  }
}
