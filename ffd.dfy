/**
 * Free Form Deformation of a mesh by a lattice of control points: the mesh is
 * mapped into the unit reference cube of the lattice, every point inside the
 * cube is moved by the Bernstein-weighted sum of the control displacements,
 * and the result is mapped back to physical space.
 */
module Ffd {
  import opened Wrappers
  import opened Geometry
  import opened Bernstein

  /**
   * A three-dimensional array of reals with its shape n x m x t; only the
   * entries at indices below the shape are ever read.
   */
  datatype Array3 = Array3(n: nat, m: nat, t: nat, at: (nat, nat, nat) -> real)

  /** The lattice: the box origin, three box vertices and the control displacements along x, y and z. */
  datatype FFDParameters = FFDParameters(
    originBox: Vec3,
    positionVertex1: Vec3,
    positionVertex2: Vec3,
    positionVertex3: Vec3,
    arrayMuX: Array3,
    arrayMuY: Array3,
    arrayMuZ: Array3)

  /** A deformation request: the lattice and the mesh points it moves, one row per point. */
  datatype FFD = FFD(parameters: FFDParameters, originalMeshPoints: seq<Vec3>)

  /** Why a deformation raises instead of returning points. */
  datatype FFDError =
    | DegenerateBox     // the affine fit between the box and the unit cube has no solution
    | IndexOutOfRange   // mu_y or mu_z is smaller than mu_x along some axis

  /** A pointwise map of space, as the affine fit returns it. */
  type PointMap = Vec3 -> Vec3

  /**
   * The fit of the affine map sending each point of the first frame to the
   * matching point of the second; None when no such map can be fitted.
   */
  type AffineFit = (seq<Vec3>, seq<Vec3>) -> Option<PointMap>

  /** The box edges from the origin, followed by the origin itself (at 0). */
  function PhysicalFrame(p: FFDParameters): seq<Vec3> {
    [Sub(p.positionVertex1, p.originBox), Sub(p.positionVertex2, p.originBox),
     Sub(p.positionVertex3, p.originBox), Zero]
  }

  /** The unit cube's edges from its origin, followed by the origin. */
  const ReferenceFrame: seq<Vec3> :=
    [Vec3(1.0, 0.0, 0.0), Vec3(0.0, 1.0, 0.0), Vec3(0.0, 0.0, 1.0), Zero]

  /** The number of control points along each axis, read from the shape of mu_x. */
  function Dim(p: FFDParameters, a: Axis): nat {
    match a
    case X => p.arrayMuX.n
    case Y => p.arrayMuX.m
    case Z => p.arrayMuX.t
  }

  /** Whether every index below n x m x t lies inside the shape of `a`. */
  predicate Covers(a: Array3, n: nat, m: nat, t: nat) {
    n <= a.n && m <= a.m && t <= a.t
  }

  /**
   * Whether the loop over the control points of mu_x's shape reads mu_y or
   * mu_z out of range; when one axis has no control point the loop reads nothing.
   */
  predicate IndexingFails(p: FFDParameters): (fails: bool)
    ensures fails <==> exists i: nat, j: nat, k: nat :: ReadsOutside(p, i, j, k)
  {
    var (n, m, t) := (Dim(p, X), Dim(p, Y), Dim(p, Z));
    var fails := n > 0 && m > 0 && t > 0 &&
      !(Covers(p.arrayMuY, n, m, t) && Covers(p.arrayMuZ, n, m, t));
    assert fails ==> ReadsOutside(p, n - 1, m - 1, t - 1);
    fails
  }

  /** Whether (i, j, k) is a control point of mu_x's shape at which mu_y or mu_z has no entry. */
  predicate ReadsOutside(p: FFDParameters, i: nat, j: nat, k: nat) {
    i < Dim(p, X) && j < Dim(p, Y) && k < Dim(p, Z) &&
    !(Covers(p.arrayMuY, i + 1, j + 1, k + 1) && Covers(p.arrayMuZ, i + 1, j + 1, k + 1))
  }

  /** The displacement of control point (i, j, k). */
  function ControlDisplacement(p: FFDParameters, i: nat, j: nat, k: nat): Vec3 {
    Vec3(p.arrayMuX.at(i, j, k), p.arrayMuY.at(i, j, k), p.arrayMuZ.at(i, j, k))
  }

  /**
   * The contribution of control point (i, j, k) to the shift of a point with
   * reference coordinates r: its displacement weighted by the product of the three basis entries.
   */
  function ShiftTerm(p: FFDParameters, r: Vec3, i: nat, j: nat, k: nat): Vec3 {
    Scale(BasisEntry(Dim(p, X), i, r.x) * (BasisEntry(Dim(p, Y), j, r.y) * BasisEntry(Dim(p, Z), k, r.z)),
          ControlDisplacement(p, i, j, k))
  }

  /** The terms of the shift of the point r, indexed by control point. */
  function ShiftTerms(p: FFDParameters, r: Vec3): Term {
    (i: nat, j: nat, k: nat) => ShiftTerm(p, r, i, j, k)
  }

  /** A family of points indexed by a control point (i, j, k). */
  type Term = (nat, nat, nat) -> Vec3

  /** f(i, j, 0) + ... + f(i, j, k - 1). */
  function SumK(f: Term, i: nat, j: nat, k: nat): Vec3 {
    if k == 0 then Zero else Add(SumK(f, i, j, k - 1), f(i, j, k - 1))
  }

  /** The sums over k < t of the rows (i, 0), ..., (i, j - 1). */
  function SumJ(f: Term, i: nat, j: nat, t: nat): Vec3 {
    if j == 0 then Zero else Add(SumJ(f, i, j - 1, t), SumK(f, i, j - 1, t))
  }

  /** The sum of f over the indices below i x m x t, in the order of the triple loop. */
  function SumI(f: Term, i: nat, m: nat, t: nat): Vec3 {
    if i == 0 then Zero else Add(SumI(f, i - 1, m, t), SumJ(f, i - 1, m, t))
  }

  /** The lattice shift of a point with reference coordinates r, before masking. */
  function TensorShift(p: FFDParameters, r: Vec3): (s: Vec3)
    ensures Dim(p, X) == 0 || Dim(p, Y) == 0 || Dim(p, Z) == 0 ==> s == Zero
  {
    EmptySumI(ShiftTerms(p, r), Dim(p, X), Dim(p, Y), Dim(p, Z));
    SumI(ShiftTerms(p, r), Dim(p, X), Dim(p, Y), Dim(p, Z))
  }

  /** A sum over rows (i, j') with j' < j is empty when no k is summed. */
  lemma {:induction false} EmptySumJ(f: Term, i: nat, j: nat, t: nat)
    ensures j == 0 || t == 0 ==> SumJ(f, i, j, t) == Zero
  {
    if j > 0 {
      EmptySumJ(f, i, j - 1, t);
    }
  }

  /** The triple sum is Zero when any of its three ranges is empty. */
  lemma {:induction false} EmptySumI(f: Term, i: nat, m: nat, t: nat)
    ensures i == 0 || m == 0 || t == 0 ==> SumI(f, i, m, t) == Zero
  {
    if i > 0 {
      EmptySumI(f, i - 1, m, t);
      EmptySumJ(f, i - 1, m, t);
    }
  }

  /** Whether reference coordinates lie outside the closed unit cube. */
  predicate OutsideLattice(r: Vec3): (outside: bool)
    ensures outside <==> exists a: Axis :: Coord(r, a) < 0.0 || Coord(r, a) > 1.0
  {
    assert Coord(r, X) == r.x && Coord(r, Y) == r.y && Coord(r, Z) == r.z;
    r.x < 0.0 || r.y < 0.0 || r.z < 0.0 || r.x > 1.0 || r.y > 1.0 || r.z > 1.0
  }

  /** The shift actually applied: none outside the unit cube. */
  function MaskedShift(p: FFDParameters, r: Vec3): (s: Vec3)
    ensures OutsideLattice(r) || Dim(p, X) == 0 || Dim(p, Y) == 0 || Dim(p, Z) == 0 ==> s == Zero
  {
    if OutsideLattice(r) then Zero else TensorShift(p, r)
  }

  /**
   * The deformed position of the mesh point `pt`, given the fitted map T to
   * reference coordinates and the fitted map Ti back.
   */
  function DeformPoint(p: FFDParameters, T: PointMap, Ti: PointMap, pt: Vec3): (q: Vec3)
    ensures OutsideLattice(T(Sub(pt, p.originBox))) ==> q == Add(Ti(T(Sub(pt, p.originBox))), p.originBox)
  {
    var r := T(Sub(pt, p.originBox));
    Add(Ti(Add(MaskedShift(p, r), r)), p.originBox)
  }

  /**
   * The outcome of the deformation: the fit errors first, then the indexing
   * error of the control loop, else every mesh row deformed on its own.
   */
  function Deform(ffd: FFD, fit: AffineFit): (r: Result<seq<Vec3>, FFDError>)
    ensures r.Success? ==> |r.value| == |ffd.originalMeshPoints|
    ensures r == Failure(DegenerateBox) <==>
      fit(PhysicalFrame(ffd.parameters), ReferenceFrame).None? || fit(ReferenceFrame, PhysicalFrame(ffd.parameters)).None?
    ensures r == Failure(IndexOutOfRange) <==>
      fit(PhysicalFrame(ffd.parameters), ReferenceFrame).Some? && fit(ReferenceFrame, PhysicalFrame(ffd.parameters)).Some? &&
      IndexingFails(ffd.parameters)
  {
    var p := ffd.parameters;
    var pts := ffd.originalMeshPoints;
    match (fit(PhysicalFrame(p), ReferenceFrame), fit(ReferenceFrame, PhysicalFrame(p)))
    case (Some(T), Some(Ti)) =>
      if IndexingFails(p) then Failure(IndexOutOfRange)
      else Success(seq(|pts|, q requires 0 <= q < |pts| => DeformPoint(p, T, Ti, pts[q])))
    case _ => Failure(DegenerateBox)
  }

  /** Deform returns the deformed rows whenever both fits exist and the control loop stays in range. */
  lemma DeformSucceeds(ffd: FFD, fit: AffineFit, rows: seq<Vec3>)
    requires fit(PhysicalFrame(ffd.parameters), ReferenceFrame).Some?
    requires fit(ReferenceFrame, PhysicalFrame(ffd.parameters)).Some?
    requires !IndexingFails(ffd.parameters)
    requires |rows| == |ffd.originalMeshPoints|
    requires forall q :: 0 <= q < |rows| ==> rows[q] == DeformPoint(ffd.parameters,
      fit(PhysicalFrame(ffd.parameters), ReferenceFrame).value,
      fit(ReferenceFrame, PhysicalFrame(ffd.parameters)).value, ffd.originalMeshPoints[q])
    ensures Deform(ffd, fit) == Success(rows)
  {
    var p, pts := ffd.parameters, ffd.originalMeshPoints;
    var T, Ti := fit(PhysicalFrame(p), ReferenceFrame).value, fit(ReferenceFrame, PhysicalFrame(p)).value;
    assert rows == seq(|pts|, q requires 0 <= q < |pts| => DeformPoint(p, T, Ti, pts[q]));
  }

  /** The result of applying `transformation` to every row of `originalPoints`, in a freshly zeroed array. */
  method TransformPoints(originalPoints: seq<Vec3>, transformation: PointMap) returns (modifiedPoints: seq<Vec3>)
    ensures |modifiedPoints| == |originalPoints|
    ensures forall q :: 0 <= q < |originalPoints| ==> modifiedPoints[q] == transformation(originalPoints[q])
  {
    var nRows := |originalPoints|;
    var rows := new Vec3[nRows](_ => Zero);
    for i := 0 to nRows
      invariant forall q :: 0 <= q < i ==> rows[q] == transformation(originalPoints[q])
    {
      rows[i] := transformation(originalPoints[i]);
    }
    modifiedPoints := rows[..];
  }

  /**
   * Fills every column i of the basis matrix `b` of one axis: row q holds the
   * basis entry i of degree b.Length1 - 1 at the coordinate of point q along the axis.
   */
  method FillBernstein(b: array2<real>, refPoints: seq<Vec3>, axis: Axis)
    requires b.Length0 == |refPoints|
    modifies b
    ensures forall q, i :: 0 <= q < b.Length0 && 0 <= i < b.Length1 ==>
      b[q, i] == BasisEntry(b.Length1, i, Coord(refPoints[q], axis))
    ensures b.Length1 == 1 ==> forall q :: 0 <= q < b.Length0 ==> b[q, 0] == 1.0
  {
    var dim := b.Length1;
    for i := 0 to dim
      invariant forall q, i' :: 0 <= q < b.Length0 && 0 <= i' < i ==>
        b[q, i'] == BasisEntry(dim, i', Coord(refPoints[q], axis))
    {
      forall q | 0 <= q < b.Length0 {
        b[q, i] := Binom(dim - 1, i) * (Pow(1.0 - Coord(refPoints[q], axis), dim - 1 - i) * Pow(Coord(refPoints[q], axis), i));
      }
    }
  }

  /**
   * The sum of f over the control points the triple loop visits before
   * (i, j, k): all of the rows below i, the rows (i, j') below j and the
   * points (i, j, k') below k.
   */
  function Visited(f: Term, i: nat, j: nat, k: nat, m: nat, t: nat): Vec3 {
    Add(Add(SumI(f, i, m, t), SumJ(f, i, j, t)), SumK(f, i, j, k))
  }

  lemma VisitedNextK(f: Term, i: nat, j: nat, k: nat, m: nat, t: nat, acc: Vec3)
    ensures Add(Add(acc, Visited(f, i, j, k, m, t)), f(i, j, k)) == Add(acc, Visited(f, i, j, k + 1, m, t))
  {
  }

  lemma VisitedNextJ(f: Term, i: nat, j: nat, m: nat, t: nat)
    ensures Visited(f, i, j, t, m, t) == Visited(f, i, j + 1, 0, m, t)
  {
  }

  lemma VisitedNextI(f: Term, i: nat, m: nat, t: nat)
    ensures Visited(f, i, m, 0, m, t) == Visited(f, i + 1, 0, 0, m, t)
  {
  }

  lemma VisitedStart(f: Term, i: nat, m: nat, t: nat)
    ensures Visited(f, i, 0, 0, m, t) == SumI(f, i, m, t)
  {
  }

  /** The term of control point (i, j, k), from the three basis entries as stored. */
  lemma ShiftTermOfBasis(p: FFDParameters, r: Vec3, i: nat, j: nat, k: nat, bi: real, bj: real, bk: real)
    requires bi == BasisEntry(Dim(p, X), i, r.x)
    requires bj == BasisEntry(Dim(p, Y), j, r.y)
    requires bk == BasisEntry(Dim(p, Z), k, r.z)
    ensures ShiftTerms(p, r)(i, j, k) == Scale(bi * (bj * bk), ControlDisplacement(p, i, j, k))
  {
  }

  /**
   * Adds to every row q of `shift` the contribution of control point (i, j, k)
   * to the point refPoints[q], all rows at once.
   */
  method AddControlPoint(shift: array<Vec3>, basisX: array2<real>, basisY: array2<real>, basisZ: array2<real>,
                         p: FFDParameters, ghost refPoints: seq<Vec3>, i: nat, j: nat, k: nat)
    requires shift.Length == |refPoints| == basisX.Length0 == basisY.Length0 == basisZ.Length0
    requires basisX.Length1 == Dim(p, X) && basisY.Length1 == Dim(p, Y) && basisZ.Length1 == Dim(p, Z)
    requires i < basisX.Length1 && j < basisY.Length1 && k < basisZ.Length1
    requires forall q :: 0 <= q < shift.Length ==> basisX[q, i] == BasisEntry(basisX.Length1, i, refPoints[q].x)
    requires forall q :: 0 <= q < shift.Length ==> basisY[q, j] == BasisEntry(basisY.Length1, j, refPoints[q].y)
    requires forall q :: 0 <= q < shift.Length ==> basisZ[q, k] == BasisEntry(basisZ.Length1, k, refPoints[q].z)
    modifies shift
    ensures forall q :: 0 <= q < shift.Length ==> shift[q] == Add(old(shift[q]), ShiftTerms(p, refPoints[q])(i, j, k))
  {
    forall q | 0 <= q < shift.Length {
      shift[q] := Add(shift[q], Scale(basisX[q, i] * (basisY[q, j] * basisZ[q, k]), ControlDisplacement(p, i, j, k)));
    }
    forall q | 0 <= q < shift.Length
      ensures shift[q] == Add(old(shift[q]), ShiftTerms(p, refPoints[q])(i, j, k))
    {
      ShiftTermOfBasis(p, refPoints[q], i, j, k, basisX[q, i], basisY[q, j], basisZ[q, k]);
    }
  }

  /**
   * Adds to every row q of `shift` the lattice shift of the reference point
   * refPoints[q], given the three basis matrices; the control displacements are
   * read in the order i, j, k.
   */
  method AccumulateShift(shift: array<Vec3>, basisX: array2<real>, basisY: array2<real>, basisZ: array2<real>,
                         p: FFDParameters, ghost refPoints: seq<Vec3>)
    requires shift.Length == |refPoints| == basisX.Length0 == basisY.Length0 == basisZ.Length0
    requires basisX.Length1 == Dim(p, X) && basisY.Length1 == Dim(p, Y) && basisZ.Length1 == Dim(p, Z)
    requires forall q, i :: 0 <= q < basisX.Length0 && 0 <= i < basisX.Length1 ==> basisX[q, i] == BasisEntry(basisX.Length1, i, refPoints[q].x)
    requires forall q, j :: 0 <= q < basisY.Length0 && 0 <= j < basisY.Length1 ==> basisY[q, j] == BasisEntry(basisY.Length1, j, refPoints[q].y)
    requires forall q, k :: 0 <= q < basisZ.Length0 && 0 <= k < basisZ.Length1 ==> basisZ[q, k] == BasisEntry(basisZ.Length1, k, refPoints[q].z)
    requires !IndexingFails(p)
    modifies shift
    ensures forall q :: 0 <= q < shift.Length ==> shift[q] == Add(old(shift[q]), TensorShift(p, refPoints[q]))
  {
    var dimN, dimM, dimT := basisX.Length1, basisY.Length1, basisZ.Length1;
    for i := 0 to dimN
      invariant forall q :: 0 <= q < shift.Length ==>
        shift[q] == Add(old(shift[q]), Visited(ShiftTerms(p, refPoints[q]), i, 0, 0, dimM, dimT))
    {
      for j := 0 to dimM
        invariant forall q :: 0 <= q < shift.Length ==>
          shift[q] == Add(old(shift[q]), Visited(ShiftTerms(p, refPoints[q]), i, j, 0, dimM, dimT))
      {
        for k := 0 to dimT
          invariant forall q :: 0 <= q < shift.Length ==>
            shift[q] == Add(old(shift[q]), Visited(ShiftTerms(p, refPoints[q]), i, j, k, dimM, dimT))
        {
          AddControlPoint(shift, basisX, basisY, basisZ, p, refPoints, i, j, k);
          forall q | 0 <= q < shift.Length
            ensures shift[q] == Add(old(shift[q]), Visited(ShiftTerms(p, refPoints[q]), i, j, k + 1, dimM, dimT))
          {
            VisitedNextK(ShiftTerms(p, refPoints[q]), i, j, k, dimM, dimT, old(shift[q]));
          }
        }
        forall q | 0 <= q < shift.Length {
          VisitedNextJ(ShiftTerms(p, refPoints[q]), i, j, dimM, dimT);
        }
      }
      forall q | 0 <= q < shift.Length {
        VisitedNextI(ShiftTerms(p, refPoints[q]), i, dimM, dimT);
      }
    }
    forall q | 0 <= q < shift.Length {
      VisitedStart(ShiftTerms(p, refPoints[q]), dimN, dimM, dimT);
    }
  }

  /** Sets to zero the shift of every point whose reference coordinates lie outside the unit cube. */
  method MaskOutside(shift: array<Vec3>, refPoints: seq<Vec3>)
    requires shift.Length == |refPoints|
    modifies shift
    ensures forall q :: 0 <= q < shift.Length ==>
      shift[q] == if OutsideLattice(refPoints[q]) then Zero else old(shift[q])
  {
    for i := 0 to shift.Length
      invariant forall q :: 0 <= q < i ==>
        shift[q] == if OutsideLattice(refPoints[q]) then Zero else old(shift[q])
      invariant forall q :: i <= q < shift.Length ==> shift[q] == old(shift[q])
    {
      if refPoints[i].x < 0.0 || refPoints[i].y < 0.0 || refPoints[i].z < 0.0
        || refPoints[i].x > 1.0 || refPoints[i].y > 1.0 || refPoints[i].z > 1.0
      {
        shift[i] := Zero;
      }
    }
  }

  lemma AddZeroLeft(v: Vec3)
    ensures Add(Zero, v) == v
  {
  }

  /**
   * The unmasked shift of every reference point, in a fresh array: the basis
   * matrices of the three axes, then the accumulated control displacements.
   */
  method LatticeShift(p: FFDParameters, referenceFrameMeshPoints: seq<Vec3>) returns (shiftMeshPoints: array<Vec3>)
    requires !IndexingFails(p)
    ensures fresh(shiftMeshPoints)
    ensures shiftMeshPoints.Length == |referenceFrameMeshPoints|
    ensures forall q :: 0 <= q < shiftMeshPoints.Length ==>
      shiftMeshPoints[q] == TensorShift(p, referenceFrameMeshPoints[q])
  {
    var nRows := |referenceFrameMeshPoints|;
    var dimN, dimM, dimT := p.arrayMuX.n, p.arrayMuX.m, p.arrayMuX.t;
    var bernsteinX := new real[nRows, dimN];
    var bernsteinY := new real[nRows, dimM];
    var bernsteinZ := new real[nRows, dimT];
    shiftMeshPoints := new Vec3[nRows](_ => Zero);
    FillBernstein(bernsteinX, referenceFrameMeshPoints, X);
    FillBernstein(bernsteinY, referenceFrameMeshPoints, Y);
    FillBernstein(bernsteinZ, referenceFrameMeshPoints, Z);
    assert forall q :: 0 <= q < nRows ==> shiftMeshPoints[q] == Zero;
    AccumulateShift(shiftMeshPoints, bernsteinX, bernsteinY, bernsteinZ, p, referenceFrameMeshPoints);
    forall q | 0 <= q < nRows
      ensures shiftMeshPoints[q] == TensorShift(p, referenceFrameMeshPoints[q])
    {
      AddZeroLeft(TensorShift(p, referenceFrameMeshPoints[q]));
    }
  }

  /** The masked shift of every reference point: its lattice shift inside the unit cube, none outside. */
  method ShiftMeshPoints(p: FFDParameters, referenceFrameMeshPoints: seq<Vec3>) returns (shift: seq<Vec3>)
    requires !IndexingFails(p)
    ensures |shift| == |referenceFrameMeshPoints|
    ensures forall q :: 0 <= q < |shift| ==> shift[q] == MaskedShift(p, referenceFrameMeshPoints[q])
  {
    var shiftMeshPoints := LatticeShift(p, referenceFrameMeshPoints);
    MaskOutside(shiftMeshPoints, referenceFrameMeshPoints);
    shift := shiftMeshPoints[..];
  }

  /**
   * The deformation of the mesh: map it to reference coordinates, shift the
   * points inside the lattice and map the shifted points back.
   */
  method Perform(ffd: FFD, fit: AffineFit) returns (r: Result<seq<Vec3>, FFDError>)
    ensures r == Deform(ffd, fit)
  {
    var p := ffd.parameters;
    var meshPoints := ffd.originalMeshPoints;
    var translation := p.originBox;
    var fisicalFrame := PhysicalFrame(p);
    var transformation := fit(fisicalFrame, ReferenceFrame);
    var inverseTransformation := fit(ReferenceFrame, fisicalFrame);
    if transformation.None? || inverseTransformation.None? {
      return Failure(DegenerateBox);
    }
    var referenceFrameMeshPoints := TransformPoints(SubAll(meshPoints, translation), transformation.value);
    if IndexingFails(p) {
      return Failure(IndexOutOfRange);
    }
    var shiftMeshPoints := ShiftMeshPoints(p, referenceFrameMeshPoints);
    var moved := TransformPoints(AddRows(shiftMeshPoints, referenceFrameMeshPoints), inverseTransformation.value);
    r := Success(AddAll(moved, translation));
    forall q | 0 <= q < |meshPoints|
      ensures r.value[q] == DeformPoint(p, transformation.value, inverseTransformation.value, meshPoints[q])
    {
      assert referenceFrameMeshPoints[q] == transformation.value(Sub(meshPoints[q], translation));
    }
    DeformSucceeds(ffd, fit, r.value);
  }

  /** Sums of points that are multiples of one vector are the multiple of the summed weights. */
  lemma ScaleSum(s1: real, s2: real, v: Vec3)
    ensures Add(Scale(s1, v), Scale(s2, v)) == Scale(s1 + s2, v)
  {
  }

  /** Scaling distributes over the sum of two points. */
  lemma ScaleAdd(s: real, u: Vec3, w: Vec3)
    ensures Add(Scale(s, u), Scale(s, w)) == Scale(s, Add(u, w))
  {
  }

  lemma ScaleZeroWeight(s: real, v: Vec3)
    ensures Scale(s, Scale(0.0, v)) == Zero
  {
  }

  /** Weighting by a product is weighting by each factor in turn. */
  lemma ScaleProduct(term: Vec3, a: real, b: real, c: real, a': real, b': real, c': real, v: Vec3)
    requires term == Scale(a * (b * c), v)
    requires a' == a && b' == b && c' == c
    ensures term == Scale3(a', b', c', v)
  {
    assert a * (b * c) * v.x == a * (b * (c * v.x));
    assert a * (b * c) * v.y == a * (b * (c * v.y));
    assert a * (b * c) * v.z == a * (b * (c * v.z));
  }

  /** v scaled by c, then by b, then by a. */
  function Scale3(a: real, b: real, c: real, v: Vec3): Vec3 {
    Scale(a, Scale(b, Scale(c, v)))
  }

  lemma Scale3Unit(v: Vec3)
    ensures Scale3(1.0, 1.0, 1.0, v) == v
  {
  }

  /** The terms of f at indices below n x m x t are v weighted by a(i), b(j) and c(k). */
  predicate Separable(f: Term, a: nat -> real, b: nat -> real, c: nat -> real, v: Vec3, n: nat, m: nat, t: nat) {
    forall i: nat, j: nat, k: nat :: i < n && j < m && k < t ==> f(i, j, k) == Scale3(a(i), b(j), c(k), v)
  }

  lemma {:induction false} SeparableSumK(f: Term, a: nat -> real, b: nat -> real, c: nat -> real, v: Vec3,
                                         n: nat, m: nat, t: nat, i: nat, j: nat, k: nat)
    requires Separable(f, a, b, c, v, n, m, t)
    requires i < n && j < m && k <= t
    ensures SumK(f, i, j, k) == Scale3(a(i), b(j), SumTo(c, k), v)
  {
    if k == 0 {
      ScaleZeroWeight(b(j), v);
      ScaleZeroWeight(a(i), Scale(b(j), Scale(0.0, v)));
    } else {
      SeparableSumK(f, a, b, c, v, n, m, t, i, j, k - 1);
      ScaleSum(SumTo(c, k - 1), c(k - 1), v);
      ScaleAdd(b(j), Scale(SumTo(c, k - 1), v), Scale(c(k - 1), v));
      ScaleAdd(a(i), Scale(b(j), Scale(SumTo(c, k - 1), v)), Scale(b(j), Scale(c(k - 1), v)));
    }
  }

  lemma {:induction false} SeparableSumJ(f: Term, a: nat -> real, b: nat -> real, c: nat -> real, v: Vec3,
                                         n: nat, m: nat, t: nat, i: nat, j: nat)
    requires Separable(f, a, b, c, v, n, m, t)
    requires i < n && j <= m
    ensures SumJ(f, i, j, t) == Scale3(a(i), SumTo(b, j), SumTo(c, t), v)
  {
    var w := Scale(SumTo(c, t), v);
    if j == 0 {
      ScaleZeroWeight(a(i), w);
    } else {
      SeparableSumJ(f, a, b, c, v, n, m, t, i, j - 1);
      SeparableSumK(f, a, b, c, v, n, m, t, i, j - 1, t);
      ScaleSum(SumTo(b, j - 1), b(j - 1), w);
      ScaleAdd(a(i), Scale(SumTo(b, j - 1), w), Scale(b(j - 1), w));
    }
  }

  /**
   * A triple sum of separable terms factors: it is v weighted by the sums of
   * a, b and c.
   */
  lemma {:induction false} SeparableSumI(f: Term, a: nat -> real, b: nat -> real, c: nat -> real, v: Vec3,
                                         n: nat, m: nat, t: nat, i: nat)
    requires Separable(f, a, b, c, v, n, m, t)
    requires i <= n
    ensures SumI(f, i, m, t) == Scale3(SumTo(a, i), SumTo(b, m), SumTo(c, t), v)
  {
    var w := Scale(SumTo(b, m), Scale(SumTo(c, t), v));
    if i == 0 {
      ScaleZeroWeight(1.0, w);
    } else {
      SeparableSumI(f, a, b, c, v, n, m, t, i - 1);
      SeparableSumJ(f, a, b, c, v, n, m, t, i - 1, m);
      ScaleSum(SumTo(a, i - 1), a(i - 1), w);
    }
  }

  /** Every entry of `a` inside its shape equals c. */
  predicate ConstantArray(a: Array3, c: real) {
    forall i: nat, j: nat, k: nat :: i < a.n && j < a.m && k < a.t ==> a.at(i, j, k) == c
  }

  /** The three control arrays displace every control point by the same vector d. */
  predicate UniformControl(p: FFDParameters, d: Vec3) {
    ConstantArray(p.arrayMuX, d.x) && ConstantArray(p.arrayMuY, d.y) && ConstantArray(p.arrayMuZ, d.z)
  }

  /**
   * Under uniform control displacement d, the shift terms of the point r are
   * d weighted by the three basis rows at r.
   */
  lemma UniformShiftTermsSeparable(p: FFDParameters, r: Vec3, d: Vec3)
    requires UniformControl(p, d) && !IndexingFails(p)
    ensures Separable(ShiftTerms(p, r), BasisRow(Dim(p, X), r.x), BasisRow(Dim(p, Y), r.y), BasisRow(Dim(p, Z), r.z),
                      d, Dim(p, X), Dim(p, Y), Dim(p, Z))
  {
    forall i: nat, j: nat, k: nat | i < Dim(p, X) && j < Dim(p, Y) && k < Dim(p, Z)
      ensures ShiftTerms(p, r)(i, j, k)
           == Scale3(BasisRow(Dim(p, X), r.x)(i), BasisRow(Dim(p, Y), r.y)(j), BasisRow(Dim(p, Z), r.z)(k), d)
    {
      assert ControlDisplacement(p, i, j, k) == d;
      ScaleProduct(ShiftTerms(p, r)(i, j, k), BasisEntry(Dim(p, X), i, r.x), BasisEntry(Dim(p, Y), j, r.y),
        BasisEntry(Dim(p, Z), k, r.z), BasisRow(Dim(p, X), r.x)(i), BasisRow(Dim(p, Y), r.y)(j), BasisRow(Dim(p, Z), r.z)(k), d);
    }
  }

  /**
   * When every control point is displaced by the same vector d, the lattice
   * shift of every point (inside the unit cube or not) is d, because each basis row
   * sums to 1; a lattice with no control point along some axis shifts nothing.
   */
  lemma UniformDisplacement(p: FFDParameters, r: Vec3, d: Vec3)
    requires UniformControl(p, d) && !IndexingFails(p)
    ensures Dim(p, X) >= 1 && Dim(p, Y) >= 1 && Dim(p, Z) >= 1 ==> TensorShift(p, r) == d
    ensures Dim(p, X) == 0 || Dim(p, Y) == 0 || Dim(p, Z) == 0 ==> TensorShift(p, r) == Zero
  {
    var n, m, t := Dim(p, X), Dim(p, Y), Dim(p, Z);
    if n >= 1 && m >= 1 && t >= 1 {
      var a, b, c := BasisRow(n, r.x), BasisRow(m, r.y), BasisRow(t, r.z);
      UniformShiftTermsSeparable(p, r, d);
      SeparableSumI(ShiftTerms(p, r), a, b, c, d, n, m, t, n);
      BasisRowSumsToOne(n, r.x);
      BasisRowSumsToOne(m, r.y);
      BasisRowSumsToOne(t, r.z);
      Scale3Unit(d);
    }
  }

  /** The two fits exist and the one back from the unit cube undoes the one into it. */
  ghost predicate MutualInverses(p: FFDParameters, fit: AffineFit) {
    fit(PhysicalFrame(p), ReferenceFrame).Some? && fit(ReferenceFrame, PhysicalFrame(p)).Some? &&
    forall v :: fit(ReferenceFrame, PhysicalFrame(p)).value(fit(PhysicalFrame(p), ReferenceFrame).value(v)) == v
  }

  /**
   * With all three control arrays zero, no point moves beyond the round trip
   * through the reference frame: row q of the output is Ti(T(pt - origin)) + origin.
   */
  lemma ZeroDisplacement(ffd: FFD, fit: AffineFit)
    requires UniformControl(ffd.parameters, Zero)
    requires Deform(ffd, fit).Success?
    ensures forall q :: 0 <= q < |ffd.originalMeshPoints| ==>
      Deform(ffd, fit).value[q] == Add(fit(ReferenceFrame, PhysicalFrame(ffd.parameters)).value(
        fit(PhysicalFrame(ffd.parameters), ReferenceFrame).value(Sub(ffd.originalMeshPoints[q], ffd.parameters.originBox))),
        ffd.parameters.originBox)
  {
    var p := ffd.parameters;
    var T := fit(PhysicalFrame(p), ReferenceFrame).value;
    forall q | 0 <= q < |ffd.originalMeshPoints|
      ensures MaskedShift(p, T(Sub(ffd.originalMeshPoints[q], p.originBox))) == Zero
    {
      UniformDisplacement(p, T(Sub(ffd.originalMeshPoints[q], p.originBox)), Zero);
    }
  }

  /** With all three control arrays zero and mutually inverse fits, the deformation returns the mesh unchanged. */
  lemma ZeroDisplacementIsIdentity(ffd: FFD, fit: AffineFit)
    requires UniformControl(ffd.parameters, Zero)
    requires MutualInverses(ffd.parameters, fit)
    requires !IndexingFails(ffd.parameters)
    ensures Deform(ffd, fit) == Success(ffd.originalMeshPoints)
  {
    var p, pts := ffd.parameters, ffd.originalMeshPoints;
    ZeroDisplacement(ffd, fit);
    forall q | 0 <= q < |pts|
      ensures Deform(ffd, fit).value[q] == pts[q]
    {
      var v := Sub(pts[q], p.originBox);
      assert fit(ReferenceFrame, PhysicalFrame(p)).value(fit(PhysicalFrame(p), ReferenceFrame).value(v)) == v;
    }
    assert Deform(ffd, fit).value == pts;
  }

  /** A mesh point whose reference coordinates leave the unit cube comes back where it was. */
  lemma OutsidePointUnmoved(ffd: FFD, fit: AffineFit, q: nat)
    requires MutualInverses(ffd.parameters, fit)
    requires !IndexingFails(ffd.parameters)
    requires q < |ffd.originalMeshPoints|
    requires OutsideLattice(fit(PhysicalFrame(ffd.parameters), ReferenceFrame).value(
      Sub(ffd.originalMeshPoints[q], ffd.parameters.originBox)))
    ensures Deform(ffd, fit).Success? && Deform(ffd, fit).value[q] == ffd.originalMeshPoints[q]
  {
  }

  /**
   * Under a uniform control displacement d, a mesh point inside the lattice is
   * translated by d in reference coordinates.
   */
  lemma UniformDisplacementTranslatesInside(ffd: FFD, fit: AffineFit, d: Vec3, q: nat)
    requires UniformControl(ffd.parameters, d)
    requires Dim(ffd.parameters, X) >= 1 && Dim(ffd.parameters, Y) >= 1 && Dim(ffd.parameters, Z) >= 1
    requires Deform(ffd, fit).Success?
    requires q < |ffd.originalMeshPoints|
    requires !OutsideLattice(fit(PhysicalFrame(ffd.parameters), ReferenceFrame).value(
      Sub(ffd.originalMeshPoints[q], ffd.parameters.originBox)))
    ensures Deform(ffd, fit).value[q] == Add(fit(ReferenceFrame, PhysicalFrame(ffd.parameters)).value(
      Add(d, fit(PhysicalFrame(ffd.parameters), ReferenceFrame).value(Sub(ffd.originalMeshPoints[q], ffd.parameters.originBox)))),
      ffd.parameters.originBox)
  {
    var p := ffd.parameters;
    UniformDisplacement(p, fit(PhysicalFrame(p), ReferenceFrame).value(Sub(ffd.originalMeshPoints[q], p.originBox)), d);
  }

  /**
   * Row q of the output depends on row q of the input alone: two meshes deformed
   * by the same lattice agree wherever their rows agree, and fail together.
   */
  lemma RowLocality(p: FFDParameters, fit: AffineFit, pts1: seq<Vec3>, pts2: seq<Vec3>, q1: nat, q2: nat)
    requires q1 < |pts1| && q2 < |pts2| && pts1[q1] == pts2[q2]
    ensures Deform(FFD(p, pts1), fit).Success? <==> Deform(FFD(p, pts2), fit).Success?
    ensures Deform(FFD(p, pts1), fit).Success? ==> Deform(FFD(p, pts1), fit).value[q1] == Deform(FFD(p, pts2), fit).value[q2]
  {
  }
}
