# PyGeM free form deformation, modelled in Dafny

This project models two parts of PyGeM, a Python library for the geometrical
morphing of meshes.

- **`FFD.perform` (Free Form Deformation).** The mesh points are first mapped into the reference frame of
  a lattice of control points. The lattice's box, given by its origin and three vertices, becomes the
  unit cube. Each axis then gets its Bernstein basis matrix, and the displacements `array_mu_x/y/z` of
  the control points are accumulated into a shift per point in a triple loop. The shift of every point
  outside the closed unit cube is zeroed. Finally the shifted points are mapped back to physical space.
- **`VFFD.__call__` (volume-constrained FFD).** The signed-volume functional is the sum, over the
  surface triangles, of the determinants of their vertex rows. The step weights `vweight` are
  normalised to absolute values summing to 1. The controlled `indices` are split into the x, y and z
  groups (residue 0, 1 and 2 modulo 3). The constrained corrector then runs three times, once per
  axis. Each pass moves only that axis's indices, with the identity as weight matrix, towards the
  current volume plus the axis's share of the volume deficit. A fourth corrector call produces the
  returned points, and the caller's `indices` are restored.

## Files

- `wrappers.dfy`: `Option` and `Result`, which model the error paths.
- `geometry.dfy`: points with exact real coordinates, and row-wise broadcasts.
- `bernstein.dfy`:
  - binomial coefficients, natural powers and the Bernstein basis;
  - the partition of unity, proved through de Casteljau's recurrence.
- `ffd.dfy`:
  - the lattice deformation as a specification function `Deform`;
  - the imperative `Perform`, built from the same steps as the Python method: the basis matrices in
    `array2`s, the in-place triple loop and the in-place mask;
  - lemmas about the deformation.
- `vffd.dfy`:
  - the volume functional and the weight normalisation, with their lemmas;
  - the residue-group split;
  - the class `VFFD`, whose methods update the fields `vweight`, `indices`, `M`, `fixval` and the
    corrector's control state, and which keeps a ghost log of every corrector request.

## Model

| member | source | states |
|---|---|---|
| Bernstein.Binom | pygem/ffd.py:50 | C(n, 0) is 1 and C(n, k) is 0 when k > n, as `special.binom` gives them |
| Bernstein.PartitionOfUnity | pygem/ffd.py:47-60 | the d Bernstein polynomials of degree d - 1 sum to 1 at every real t, inside [0, 1] or not |
| Bernstein.SingleColumnBasis | pygem/ffd.py:47-50 | an axis with a single control point has basis entry 1 at every coordinate, as numpy's power gives 1 for any base to the power 0 |
| Bernstein.PowNonNegative | pygem/ffd.py:48-49 | a natural power of a non-negative number, as `np.power` computes it, is non-negative |
| Bernstein.BasisEntryNonNegative | pygem/ffd.py:47-60 | on the unit interval every Bernstein entry C(d - 1, i) (1 - t)^(d - 1 - i) t^i is non-negative, so each basis row is a set of convex weights |
| Bernstein.BinomNonNegative | pygem/ffd.py:50 | every binomial coefficient is non-negative |
| Bernstein.BasisRowSumsToOne | pygem/ffd.py:47-60 | every row of an axis's basis matrix with d >= 1 columns sums to 1 |
| Bernstein.BernsteinStep | pygem/ffd.py:48-50 | de Casteljau's recurrence: B(n + 1, i) = (1 - t) B(n, i) + t B(n, i - 1), for every i >= 1 |
| Bernstein.RecurrenceRowsSumToOne | pygem/ffd.py:47-60 | any triangle of numbers obeying de Casteljau's recurrence from a single 1 has rows that sum to 1 |
| Ffd.FillBernstein | pygem/ffd.py:47-60 | after the column loop, entry (q, i) of the basis matrix is C(d - 1, i) (1 - t)^(d - 1 - i) t^i, at point q's reference coordinate t on the axis; with a single column every entry is 1 |
| Ffd.IndexingFails | pygem/ffd.py:62-68 | the loop over mu_x's shape fails exactly when some control point (i, j, k) it visits has no entry in mu_y or mu_z |
| Ffd.TensorShift | pygem/ffd.py:62-71 | the unmasked shift of a point is the sum over all control points of mu_x's shape of the basis-weighted displacements; with no control point along some axis it is zero |
| Ffd.EmptySumI | pygem/ffd.py:62-71 | the triple loop adds nothing when any of its three ranges is empty |
| Ffd.OutsideLattice | pygem/ffd.py:75-77 | a point is outside the lattice exactly when some coordinate axis has its reference coordinate below 0 or above 1 |
| Ffd.MaskedShift | pygem/ffd.py:62-78 | the applied shift is zero for a point outside the unit cube and for a lattice with no control point along some axis |
| Ffd.DeformPoint | pygem/ffd.py:44-81 | a mesh point outside the lattice ends at the inverse fit of its reference coordinates plus the origin, untouched by the control displacements |
| Ffd.TransformPoints | pygem/ffd.py:84-95 | the output has one row per input row, and row q is the map applied to input row q |
| Ffd.AddControlPoint | pygem/ffd.py:65-71 | one step of the triple loop adds to every point's shift that control point's displacement, weighted by the product of the three basis entries |
| Ffd.AccumulateShift | pygem/ffd.py:62-71 | after the triple loop, each point's shift has grown by the sum over all control points of the basis-weighted displacements; the loop invariant is the sum over the points visited so far |
| Ffd.MaskOutside | pygem/ffd.py:74-78 | a point with a reference coordinate below 0 or above 1 gets shift zero; every other point keeps its shift |
| Ffd.LatticeShift | pygem/ffd.py:37-71 | the basis matrices, each entry written by the fill loops, then the shift accumulated from a zeroed array, equal the tensor-product Bernstein sum for every point |
| Ffd.ShiftMeshPoints | pygem/ffd.py:37-78 | the shift of each point is the lattice sum inside the unit cube and zero outside it |
| Ffd.Perform | pygem/ffd.py:19-81 | the imperative deformation returns exactly what the specification `Deform` gives: a fit failure, the out-of-range read of mu_y/mu_z, or the deformed rows |
| Ffd.Deform | pygem/ffd.py:19-81 | on success there is one output row per mesh row; the result is the degenerate-box error exactly when one of the two fits fails, and the index error exactly when both fits succeed and the loop reads outside mu_y or mu_z |
| Ffd.DeformSucceeds | pygem/ffd.py:34-81 | with both fits present and the loop in range, the output is the per-row deformation and nothing else |
| Ffd.SeparableSumI | pygem/ffd.py:62-71 | the triple sum of terms that factor as a(i) b(j) c(k) v equals v scaled by the three one-dimensional sums |
| Ffd.UniformShiftTermsSeparable | pygem/ffd.py:65-68 | with the same displacement d at every control point, each term of the loop is d weighted by the three basis entries |
| Ffd.UniformDisplacement | pygem/ffd.py:62-71 | the same displacement d at every control point shifts every point by exactly d; a lattice with no control point along some axis shifts nothing |
| Ffd.ZeroDisplacement | pygem/ffd.py:34-81 | with all of mu_x, mu_y and mu_z zero, output row q is the inverse fit of the forward fit of (row q - origin), plus the origin |
| Ffd.ZeroDisplacementIsIdentity | pygem/ffd.py:34-81 | with zero control displacements and mutually inverse fits, the deformation returns the mesh unchanged |
| Ffd.OutsidePointUnmoved | pygem/ffd.py:74-81 | a mesh point whose reference coordinates leave the unit cube comes back to where it was, when the fits are mutually inverse |
| Ffd.UniformDisplacementTranslatesInside | pygem/ffd.py:62-81 | under a uniform displacement d, a point inside the lattice is translated by d in reference coordinates |
| Ffd.RowLocality | pygem/ffd.py:23-81 | output row q depends only on input row q: two meshes agree on the rows where they agree, and succeed or fail together |
| Vffd.Resolve | pygem/vffd.py:69 | an index selects a row exactly when -n <= i < n; a negative index counts from the end |
| Vffd.Det3 | pygem/vffd.py:70 | the determinant of the three vertex rows, expanded along the first row, equals the rule of Sarrus |
| Vffd.TriangleDet | pygem/vffd.py:69-70 | a triangle's determinant is defined exactly when its three indices are in range |
| Vffd.Volume | pygem/vffd.py:67-70 | the volume is defined exactly when every triangle indexes inside the points, and an empty triangle list gives 0 |
| Vffd.VolumeAppend | pygem/vffd.py:67-70 | the volume of two triangle lists together is the sum of their volumes |
| Vffd.VolumeFlipped | pygem/vffd.py:67-70 | reversing the orientation of every triangle negates the volume |
| Vffd.DegenerateTriangle | pygem/vffd.py:67-70 | a triangle two of whose indices select the same row, in any two positions and also through a negative index, contributes 0 |
| Vffd.Det3RepeatedRow | pygem/vffd.py:70 | a determinant with two equal rows, in any two positions, is 0 |
| Vffd.AbsAll | pygem/vffd.py:75 | every entry becomes non-negative and equal to the entry or its negation |
| Vffd.Normalised | pygem/vffd.py:75 | the normalised weights are as many as the weights |
| Vffd.NormalisedEntry | pygem/vffd.py:75 | each normalised weight times the sum of the absolute weights is the absolute value of that weight |
| Vffd.NormalisedIsDistribution | pygem/vffd.py:75 | the normalised weights are as many as before, non-negative, and sum to 1 whenever the sum of absolute values is non-zero |
| Vffd.NormalisedIdempotent | pygem/vffd.py:75 | normalising weights that are already normalised leaves them unchanged |
| Vffd.SumDivideAll | pygem/vffd.py:75 | dividing every entry by d divides the sum by d |
| Vffd.ResidueGroup | pygem/vffd.py:77-79 | the group holds exactly the indices with the given residue modulo 3, and is no longer than the list |
| Vffd.ResidueGroupAppend | pygem/vffd.py:77-79 | selecting a group commutes with concatenation, so each group keeps the original relative order |
| Vffd.ResidueGroupsPartition | pygem/vffd.py:77-80 | the three groups together hold every index exactly as often as `indices` does, so they are disjoint and cover it |
| Vffd.ResidueGroupsLengths | pygem/vffd.py:77-80 | the lengths of the three groups add up to the length of `indices` |
| Vffd.Groups | pygem/vffd.py:76-80 | three groups, group k holding exactly the indices with residue k modulo 3; together they hold every index exactly as often as `indices` does |
| Vffd.Identity | pygem/vffd.py:85 | the weight matrix of a pass is n x n for a group of n indices |
| Vffd.VFFD.constructor | pygem/vffd.py:62-72 | the functional is the volume over the given triangles and the step weights start at one third each |
| Vffd.VFFD.Corrector | pygem/vffd.py:88-89 | a corrector call sees the current control state, indices, M, fixval and points, and replaces the control state |
| Vffd.VFFD.AxisPass | pygem/vffd.py:84-88 | pass k sets indices to group k and M to the identity of its size, sets fixval to the current deformed volume plus weight k times the deficit, then calls the corrector once |
| Vffd.VFFD.AxisPasses | pygem/vffd.py:83-88 | the loop makes exactly three corrector calls, pass k with group k and weight k, each starting from the control state the previous pass left |
| Vffd.VFFD.NormaliseWeights | pygem/vffd.py:75 | vweight is replaced by its normalisation, and nothing else changes |
| Vffd.VFFD.TraceOf | pygem/vffd.py:82-89 | three chained passes, each aiming at the then current volume plus its weight's share of the deficit taken before the first pass, followed by a repeat of the third request, make up the trace of a call |
| Vffd.VFFD.Call | pygem/vffd.py:74-91 | the weights are normalised; the corrector runs exactly four times. The trace has x, y and z passes, then once more with the z pass's indices, M and fixval. Each pass is chained on the previous control state, and the deficit is computed once, from the caller's fixval and the volume before any pass. The last call's points are returned, indices are restored, and M and fixval keep the z pass's values |

## Left out

- The affine fit `affine_points_fit` (pygem/affine_trans.py) is not part of this model. `Deform` and
  `Perform` take it as a parameter that returns a point map or `None`; `None` stands for the error
  the fit raises on a degenerate box. The round-trip lemmas take "the two fits are mutual inverses"
  as a hypothesis.
- The constrained optimiser of the `CFFD` superclass (pygem/cffd.py) is not part of this model.
  `super().__call__` is a function-valued field, `correct`, from the request to the new control state
  and the returned points. `self.ffd` is the field `deform`, from a control state and points to
  deformed points. Whether the corrector meets its constraint exactly depends on that optimiser and is
  not stated.
- Floating point: all arithmetic is on exact reals. Rounding, tolerances and NaN are not modelled.
- Mesh arrays always have three columns (`Vec3` rows), and triangles three indices. Reshaping, file
  reading, meshio loading and `deepcopy` are plumbing and are left out.
- An empty triangle list is modelled as an empty (0, 3) index array, whose volume numpy sums to 0. A
  plain empty Python list would instead make `np.linalg.det` raise; that case is not modelled.
- Ffd.Deform: numpy raises the IndexError for a too small mu_y or mu_z at the first out-of-range read
  inside the triple loop, which may come after earlier iterations have added to the shift. The model
  checks for it once, just before that loop. The observable outcome is the same: an error and no output.
- Ffd.FillBernstein: `BasisEntry` reads 0 for a column beyond the matrix. The loop never reads such a
  column.
- Vffd.VFFD.Call: requires that `vweight` has at least three entries. With fewer, the loop raises an
  IndexError part way through, after earlier passes have changed the state.
- Vffd.VFFD.Call: requires that the absolute weights do not sum to 0. numpy would then produce NaN
  weights.
- Vffd.VFFD.Call: requires every triangle to index inside `src`, and that the deformation keeps the
  number of rows (`Valid`). Otherwise the volume raises an IndexError; that error path is not modelled
  for the method.
- Vffd.VFFD.Call: `indices` is compared by value. The model does not capture that the restored object
  is a deep copy of the caller's list.
- Vffd.VFFD.constructor: fixes `triangles` for the life of the object. In the source the volume closure reads
  `self.triangles` on every call, so reassigning it later would change the functional; `__call__`
  never reassigns it.
- Vffd.Identity: its contract states only the matrix size. The entries, 1 on the diagonal and 0
  elsewhere, are its definition.
