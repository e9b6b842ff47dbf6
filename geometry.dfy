/** Points of three-dimensional space with exact real coordinates. */
module Geometry {

  /** One row of a mesh-point array: the x, y and z coordinates of a point. */
  datatype Vec3 = Vec3(x: real, y: real, z: real)

  /** The three coordinate axes, in the order the arrays store them. */
  datatype Axis = X | Y | Z

  const Zero: Vec3 := Vec3(0.0, 0.0, 0.0)

  function Add(a: Vec3, b: Vec3): Vec3 {
    Vec3(a.x + b.x, a.y + b.y, a.z + b.z)
  }

  function Sub(a: Vec3, b: Vec3): Vec3 {
    Vec3(a.x - b.x, a.y - b.y, a.z - b.z)
  }

  /** Multiplication of every coordinate of `v` by the scalar `s`. */
  function Scale(s: real, v: Vec3): Vec3 {
    Vec3(s * v.x, s * v.y, s * v.z)
  }

  /** The coordinate of `v` along axis `a` (column 0, 1 or 2 of a point row). */
  function Coord(v: Vec3, a: Axis): real {
    match a
    case X => v.x
    case Y => v.y
    case Z => v.z
  }

  /** Every row of `pts` translated by `-o` (a broadcast subtraction of one row). */
  function SubAll(pts: seq<Vec3>, o: Vec3): (r: seq<Vec3>)
    ensures |r| == |pts|
    ensures forall p :: 0 <= p < |pts| ==> Add(r[p], o) == pts[p]
  {
    seq(|pts|, p requires 0 <= p < |pts| => Sub(pts[p], o))
  }

  /** Every row of `pts` translated by `o` (a broadcast addition of one row). */
  function AddAll(pts: seq<Vec3>, o: Vec3): (r: seq<Vec3>)
    ensures |r| == |pts|
    ensures forall p :: 0 <= p < |pts| ==> Sub(r[p], o) == pts[p]
  {
    seq(|pts|, p requires 0 <= p < |pts| => Add(pts[p], o))
  }

  /** The row-by-row sum of two point arrays of the same shape. */
  function AddRows(a: seq<Vec3>, b: seq<Vec3>): (r: seq<Vec3>)
    requires |a| == |b|
    ensures |r| == |a|
    ensures forall p :: 0 <= p < |a| ==> Sub(r[p], b[p]) == a[p]
  {
    seq(|a|, p requires 0 <= p < |a| => Add(a[p], b[p]))
  }
}
