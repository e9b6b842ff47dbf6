/**
 * Volume-constrained Free Form Deformation: the signed volume of a triangle
 * mesh, the normalised step weights, the split of the moved control indices by
 * axis, and the object that drives one constrained corrector pass per axis
 * followed by a final pass.
 */
module Vffd {
  import opened Wrappers
  import opened Geometry

  /** A triangle of a surface mesh: three row indices into the point array (negative ones count from the end). */
  datatype Triangle = Triangle(a: int, b: int, c: int)

  /** The row that index i selects in an array of n rows, as numpy resolves it; None when it raises. */
  function Resolve(i: int, n: nat): (r: Option<nat>)
    ensures r.Some? <==> 0 <= i + n && i < n
    ensures r.Some? ==> r.value < n && (r.value == i || r.value == i + n)
  {
    if 0 <= i < n then Some(i as nat)
    else if 0 <= i + n && i < 0 then Some((i + n) as nat)
    else None
  }

  /** Whether all three indices of t select a row of an array of n rows. */
  predicate InRange(t: Triangle, n: nat) {
    0 <= t.a + n && t.a < n && 0 <= t.b + n && t.b < n && 0 <= t.c + n && t.c < n
  }

  /** The determinant of the 3 x 3 matrix whose rows are a, b and c. */
  function Det3(a: Vec3, b: Vec3, c: Vec3): (r: real)
    // the rule of Sarrus: the six signed products of one entry from each row and column
    ensures r == a.x * b.y * c.z + a.y * b.z * c.x + a.z * b.x * c.y
               - a.z * b.y * c.x - a.y * b.x * c.z - a.x * b.z * c.y
  {
    a.x * (b.y * c.z - b.z * c.y) - a.y * (b.x * c.z - b.z * c.x) + a.z * (b.x * c.y - b.y * c.x)
  }

  /** The determinant of the three vertex rows of t; None when an index is out of range. */
  function TriangleDet(points: seq<Vec3>, t: Triangle): (r: Option<real>)
    ensures r.Some? <==> InRange(t, |points|)
  {
    match (Resolve(t.a, |points|), Resolve(t.b, |points|), Resolve(t.c, |points|))
    case (Some(i), Some(j), Some(k)) => Some(Det3(points[i], points[j], points[k]))
    case _ => None
  }

  /**
   * The volume functional: the sum over the triangles of the determinants of
   * their vertex rows; None when some triangle indexes outside the points.
   */
  function Volume(points: seq<Vec3>, triangles: seq<Triangle>): (r: Option<real>)
    ensures r.Some? <==> forall t :: t in triangles ==> InRange(t, |points|)
    ensures triangles == [] ==> r == Some(0.0)
  {
    if triangles == [] then Some(0.0)
    else
      match (TriangleDet(points, triangles[0]), Volume(points, triangles[1..]))
      case (Some(d), Some(v)) => Some(d + v)
      case _ => None
  }

  /** The volume of two triangle lists together is the sum of their volumes, and fails when either fails. */
  lemma {:induction false} VolumeAppend(points: seq<Vec3>, t1: seq<Triangle>, t2: seq<Triangle>)
    ensures Volume(points, t1 + t2) ==
      if Volume(points, t1).Some? && Volume(points, t2).Some?
      then Some(Volume(points, t1).value + Volume(points, t2).value)
      else None
  {
    if t1 != [] {
      assert (t1 + t2)[0] == t1[0];
      assert (t1 + t2)[1..] == t1[1..] + t2;
      VolumeAppend(points, t1[1..], t2);
    } else {
      assert t1 + t2 == t2;
    }
  }

  /** Swapping two rows negates the determinant. */
  lemma Det3Swap(a: Vec3, b: Vec3, c: Vec3)
    ensures Det3(b, a, c) == -Det3(a, b, c)
  {
  }

  /** A determinant with two equal rows is 0, whichever two rows they are. */
  lemma Det3RepeatedRow(a: Vec3, b: Vec3, c: Vec3)
    ensures a == b || b == c || a == c ==> Det3(a, b, c) == 0.0
  {
  }

  /** The triangle with its first two vertices exchanged: the opposite orientation. */
  function Flipped(t: Triangle): Triangle {
    Triangle(t.b, t.a, t.c)
  }

  function FlipAll(triangles: seq<Triangle>): (r: seq<Triangle>)
    ensures |r| == |triangles|
    ensures forall q :: 0 <= q < |r| ==> r[q] == Flipped(triangles[q])
  {
    if triangles == [] then [] else [Flipped(triangles[0])] + FlipAll(triangles[1..])
  }

  /** Reversing the orientation of every triangle negates the volume. */
  lemma {:induction false} VolumeFlipped(points: seq<Vec3>, triangles: seq<Triangle>)
    ensures Volume(points, FlipAll(triangles)).Some? == Volume(points, triangles).Some?
    ensures Volume(points, triangles).Some? ==>
      Volume(points, FlipAll(triangles)).value == -Volume(points, triangles).value
  {
    if triangles != [] {
      VolumeFlipped(points, triangles[1..]);
      var t := triangles[0];
      assert FlipAll(triangles)[1..] == FlipAll(triangles[1..]);
      if InRange(t, |points|) {
        var n := |points|;
        Det3Swap(points[Resolve(t.a, n).value], points[Resolve(t.b, n).value], points[Resolve(t.c, n).value]);
      }
    }
  }

  /**
   * A triangle two of whose indices select the same row (the same index, or a
   * negative index and its positive counterpart) contributes 0.
   */
  lemma DegenerateTriangle(points: seq<Vec3>, t: Triangle)
    requires InRange(t, |points|)
    requires var n := |points|;
      Resolve(t.a, n) == Resolve(t.b, n) || Resolve(t.b, n) == Resolve(t.c, n) || Resolve(t.a, n) == Resolve(t.c, n)
    ensures TriangleDet(points, t) == Some(0.0)
  {
    var n := |points|;
    Det3RepeatedRow(points[Resolve(t.a, n).value], points[Resolve(t.b, n).value], points[Resolve(t.c, n).value]);
  }

  /** The sum of a sequence of reals. */
  function Sum(s: seq<real>): real {
    if s == [] then 0.0 else s[0] + Sum(s[1..])
  }

  function Abs(x: real): real {
    if x < 0.0 then -x else x
  }

  /** The absolute value of every entry. */
  function AbsAll(s: seq<real>): (r: seq<real>)
    ensures |r| == |s|
    ensures forall i :: 0 <= i < |s| ==> r[i] >= 0.0 && (r[i] == s[i] || r[i] == -s[i])
  {
    seq(|s|, i requires 0 <= i < |s| => Abs(s[i]))
  }

  /** The sum of the absolute values of the entries. */
  function AbsSum(s: seq<real>): real {
    Sum(AbsAll(s))
  }

  /** Every entry divided by d. */
  function DivideAll(s: seq<real>, d: real): (r: seq<real>)
    requires d != 0.0
    ensures |r| == |s|
  {
    seq(|s|, i requires 0 <= i < |s| => s[i] / d)
  }

  /** Each entry of DivideAll(s, d), multiplied back by d, gives the entry of s. */
  lemma DivideAllEntry(s: seq<real>, d: real, i: nat)
    requires d != 0.0 && i < |s|
    ensures DivideAll(s, d)[i] * d == s[i]
  {
  }

  /** The step weights made non-negative and scaled to sum to 1. */
  function Normalised(w: seq<real>): (r: seq<real>)
    requires AbsSum(w) != 0.0
    ensures |r| == |w|
  {
    DivideAll(AbsAll(w), AbsSum(w))
  }

  /** Each normalised weight, multiplied back by the sum of absolute values, is the absolute weight. */
  lemma NormalisedEntry(w: seq<real>, i: nat)
    requires AbsSum(w) != 0.0 && i < |w|
    ensures Normalised(w)[i] * AbsSum(w) == Abs(w[i])
  {
    DivideAllEntry(AbsAll(w), AbsSum(w), i);
  }

  lemma {:induction false} SumNonNegative(s: seq<real>)
    requires forall i :: 0 <= i < |s| ==> s[i] >= 0.0
    ensures Sum(s) >= 0.0
  {
    if s != [] {
      SumNonNegative(s[1..]);
    }
  }

  /** Dividing every entry by d divides the sum by d. */
  lemma {:induction false} SumDivideAll(s: seq<real>, d: real)
    requires d != 0.0
    ensures Sum(DivideAll(s, d)) * d == Sum(s)
  {
    if s != [] {
      assert DivideAll(s, d)[1..] == DivideAll(s[1..], d);
      SumDivideAll(s[1..], d);
      DivideAllEntry(s, d, 0);
      var h, t := DivideAll(s, d)[0], Sum(DivideAll(s[1..], d));
      assert (h + t) * d == h * d + t * d;
    }
  }

  lemma QuotientOfSelf(x: real, s: real)
    requires s != 0.0 && x * s == s
    ensures x == 1.0
  {
    assert (x - 1.0) * s == 0.0;
  }

  lemma NonNegativeQuotient(x: real, s: real)
    requires s > 0.0 && x * s >= 0.0
    ensures x >= 0.0
  {
    assert x == (x * s) / s;
  }

  /** The normalised weights are non-negative, as many as before and sum to 1. */
  lemma NormalisedIsDistribution(w: seq<real>)
    requires AbsSum(w) != 0.0
    ensures |Normalised(w)| == |w|
    ensures forall i :: 0 <= i < |w| ==> Normalised(w)[i] >= 0.0
    ensures Sum(Normalised(w)) == 1.0
  {
    var s := AbsSum(w);
    SumNonNegative(AbsAll(w));
    SumDivideAll(AbsAll(w), s);
    QuotientOfSelf(Sum(Normalised(w)), s);
    forall i | 0 <= i < |w|
      ensures Normalised(w)[i] >= 0.0
    {
      DivideAllEntry(AbsAll(w), s, i);
      NonNegativeQuotient(Normalised(w)[i], s);
    }
  }

  /** Normalising weights that are already normalised leaves them unchanged. */
  lemma NormalisedIdempotent(w: seq<real>)
    requires AbsSum(w) != 0.0
    ensures AbsSum(Normalised(w)) == 1.0
    ensures Normalised(Normalised(w)) == Normalised(w)
  {
    var n := Normalised(w);
    NormalisedIsDistribution(w);
    assert AbsAll(n) == n;
    assert DivideAll(n, 1.0) == n;
  }

  /** The indices in `xs` whose residue modulo 3 is r, in their original order. */
  function ResidueGroup(xs: seq<int>, r: int): (g: seq<int>)
    ensures forall x :: x in g <==> x in xs && x % 3 == r
    ensures |g| <= |xs|
  {
    if xs == [] then []
    else (if xs[0] % 3 == r then [xs[0]] else []) + ResidueGroup(xs[1..], r)
  }

  /** The indices of each axis: those of `indices` with residue 0, 1 and 2 modulo 3, which partition `indices`. */
  function Groups(indices: seq<int>): (r: seq<seq<int>>)
    ensures |r| == 3
    ensures forall k, x :: 0 <= k < 3 ==> (x in r[k] <==> x in indices && x % 3 == k)
    ensures multiset(r[0]) + multiset(r[1]) + multiset(r[2]) == multiset(indices)
  {
    ResidueGroupsPartition(indices);
    [ResidueGroup(indices, 0), ResidueGroup(indices, 1), ResidueGroup(indices, 2)]
  }

  /** Selecting a residue group commutes with concatenation, so each group keeps the original relative order. */
  lemma {:induction false} ResidueGroupAppend(xs: seq<int>, ys: seq<int>, r: int)
    ensures ResidueGroup(xs + ys, r) == ResidueGroup(xs, r) + ResidueGroup(ys, r)
  {
    if xs != [] {
      assert (xs + ys)[0] == xs[0];
      assert (xs + ys)[1..] == xs[1..] + ys;
      ResidueGroupAppend(xs[1..], ys, r);
    } else {
      assert xs + ys == ys;
    }
  }

  /** The three residue groups together hold every index exactly as often as `xs` does. */
  lemma {:induction false} ResidueGroupsPartition(xs: seq<int>)
    ensures multiset(ResidueGroup(xs, 0)) + multiset(ResidueGroup(xs, 1)) + multiset(ResidueGroup(xs, 2)) == multiset(xs)
  {
    if xs != [] {
      var h, t := xs[0], xs[1..];
      ResidueGroupsPartition(t);
      assert xs == [h] + t;
      var m0, m1, m2 := multiset(ResidueGroup(xs, 0)), multiset(ResidueGroup(xs, 1)), multiset(ResidueGroup(xs, 2));
      var n0, n1, n2 := multiset(ResidueGroup(t, 0)), multiset(ResidueGroup(t, 1)), multiset(ResidueGroup(t, 2));
      if h % 3 == 0 {
        assert m0 == multiset{h} + n0 && m1 == n1 && m2 == n2;
      } else if h % 3 == 1 {
        assert m0 == n0 && m1 == multiset{h} + n1 && m2 == n2;
      } else {
        assert m0 == n0 && m1 == n1 && m2 == multiset{h} + n2;
      }
      assert m0 + m1 + m2 == multiset{h} + (n0 + n1 + n2);
    }
  }

  /** The three residue groups together are exactly as long as `xs`. */
  lemma ResidueGroupsLengths(xs: seq<int>)
    ensures |ResidueGroup(xs, 0)| + |ResidueGroup(xs, 1)| + |ResidueGroup(xs, 2)| == |xs|
  {
    ResidueGroupsPartition(xs);
    assert |multiset(xs)| == |xs|;
  }

  /** The n x n identity matrix. */
  function Identity(n: nat): (m: seq<seq<real>>)
    ensures |m| == n
    ensures forall i :: 0 <= i < n ==> |m[i]| == n
  {
    seq(n, i => seq(n, j => if i == j then 1.0 else 0.0))
  }

  /**
   * What one call of the volume corrector sees: the control state, the moved
   * indices, the weight matrix, the volume to reach and the points to deform.
   */
  datatype CorrectorRequest<C> = CorrectorRequest(control: C, indices: seq<int>, M: seq<seq<real>>, fixval: real, src: seq<Vec3>)

  class VFFD<C(!new)> {
    /** The triangles of the surface whose volume is constrained. */
    const triangles: seq<Triangle>
    /** The deformation of points under a control state. */
    const deform: (C, seq<Vec3>) -> seq<Vec3>
    /** The corrector: it adjusts the control state to meet the request and returns the deformed points. */
    const correct: CorrectorRequest<C> -> (C, seq<Vec3>)
    /** The constraint functional: the volume over `triangles`. */
    const fun: seq<Vec3> -> Option<real>

    var vweight: seq<real>
    var indices: seq<int>
    var M: seq<seq<real>>
    var fixval: real
    /** The remaining state of the deformation, which only the corrector changes. */
    var control: C
    /** Every request passed to the corrector so far. */
    ghost var calls: seq<CorrectorRequest<C>>

    /** The deformation keeps one output row per input row, and the functional is the volume over the triangles. */
    ghost predicate Valid() {
      (forall c, pts :: |deform(c, pts)| == |pts|) &&
      (forall x {:trigger Volume(x, triangles)} :: fun(x) == Volume(x, triangles))
    }

    /** A new object whose functional is the volume over `triangles`; the step weights start equal. */
    constructor (triangles: seq<Triangle>, deform: (C, seq<Vec3>) -> seq<Vec3>, correct: CorrectorRequest<C> -> (C, seq<Vec3>),
                 control: C, indices: seq<int>, M: seq<seq<real>>, fixval: real)
      requires forall c, pts :: |deform(c, pts)| == |pts|
      ensures Valid()
      ensures this.triangles == triangles && this.deform == deform && this.correct == correct
      ensures this.control == control && this.indices == indices && this.M == M && this.fixval == fixval
      ensures vweight == [1.0 / 3.0, 1.0 / 3.0, 1.0 / 3.0]
      ensures calls == []
    {
      this.triangles := triangles;
      this.deform := deform;
      this.correct := correct;
      this.fun := (x: seq<Vec3>) => Volume(x, triangles);
      this.control := control;
      this.indices := indices;
      this.M := M;
      this.fixval := fixval;
      vweight := [1.0 / 3.0, 1.0 / 3.0, 1.0 / 3.0];
      calls := [];
    }

    /** One call of the corrector on the current fields: it replaces the control state and returns the deformed points. */
    method Corrector(src: seq<Vec3>) returns (out: seq<Vec3>)
      modifies this
      ensures calls == old(calls) + [CorrectorRequest(old(control), indices, M, fixval, src)]
      ensures control == correct(calls[|calls| - 1]).0
      ensures out == correct(calls[|calls| - 1]).1
      ensures vweight == old(vweight) && indices == old(indices) && M == old(M) && fixval == old(fixval)
    {
      var request := CorrectorRequest(control, indices, M, fixval, src);
      calls := calls + [request];
      var result := correct(request);
      control := result.0;
      out := result.1;
    }

    /**
     * Whether `request` is the one of pass k: the k-th index group, the identity
     * of its size, and as target the volume of the points deformed under the
     * request's control state plus the k-th weight's share of the volume deficit.
     */
    ghost predicate PassRequest(request: CorrectorRequest<C>, k: nat, src: seq<Vec3>, groups: seq<seq<int>>,
                                weights: seq<real>, deficit: real)
    {
      k < |groups| && k < |weights| &&
      request.indices == groups[k] &&
      request.M == Identity(|groups[k]|) &&
      fun(deform(request.control, src)).Some? &&
      request.fixval == fun(deform(request.control, src)).value + weights[k] * deficit &&
      request.src == src
    }

    /** Each request after the first starts from the control state the corrector left after the previous one. */
    ghost predicate Chained(run: seq<CorrectorRequest<C>>) {
      forall k :: 0 <= k < |run| - 1 ==> run[k + 1].control == correct(run[k]).0
    }

    /**
     * Whether `run` is the sequence of corrector requests of one call on `src`,
     * starting from control state `control0` with the caller's `indices0` and
     * `fixval0` and the normalised `weights`: the volume deficit is taken once,
     * before any pass; pass k (k < 3) moves group k towards the then current
     * volume plus weight k's share of that deficit, each pass starting from the
     * control state the previous one left; and the fourth request repeats the
     * third from the control state it left.
     */
    ghost predicate Trace(run: seq<CorrectorRequest<C>>, src: seq<Vec3>, control0: C, indices0: seq<int>,
                          fixval0: real, weights: seq<real>)
    {
      |run| == 4 && run[0].control == control0 && Chained(run) &&
      fun(deform(control0, src)).Some? &&
      (forall k :: 0 <= k < 3 ==>
        PassRequest(run[k], k, src, Groups(indices0), weights, fixval0 - fun(deform(control0, src)).value)) &&
      run[3] == run[2].(control := correct(run[2]).0)
    }

    /** Three chained passes followed by a repeat of the last one form the trace of a call. */
    lemma TraceOf(passes: seq<CorrectorRequest<C>>, last: CorrectorRequest<C>, src: seq<Vec3>, control0: C,
                  indices0: seq<int>, fixval0: real, weights: seq<real>)
      requires |passes| == 3 && passes[0].control == control0 && Chained(passes)
      requires fun(deform(control0, src)).Some?
      requires forall k :: 0 <= k < 3 ==>
        PassRequest(passes[k], k, src, Groups(indices0), weights, fixval0 - fun(deform(control0, src)).value)
      requires last == passes[2].(control := correct(passes[2]).0)
      ensures Trace(passes + [last], src, control0, indices0, fixval0, weights)
    {
      var run := passes + [last];
      assert forall k :: 0 <= k < 3 ==> run[k] == passes[k];
    }

    /** The volume of the deformed points is defined under every control state when the triangles fit the points. */
    lemma DeformedVolumeDefined(c: C, src: seq<Vec3>)
      requires Valid()
      requires forall t :: t in triangles ==> InRange(t, |src|)
      ensures fun(deform(c, src)).Some?
    {
      assert |deform(c, src)| == |src|;
      assert Volume(deform(c, src), triangles).Some?;
    }

    /**
     * Pass k of the loop over the axes: move only the indices of group k, with
     * the identity weight matrix, towards the current volume plus weight k's
     * share of `deficit`, and call the corrector.
     */
    method AxisPass(src: seq<Vec3>, groups: seq<seq<int>>, k: nat, deficit: real)
      requires Valid()
      requires forall t :: t in triangles ==> InRange(t, |src|)
      requires k < |groups| && k < |vweight|
      modifies this
      ensures |calls| == |old(calls)| + 1 && calls[..|old(calls)|] == old(calls)
      ensures PassRequest(calls[|calls| - 1], k, src, groups, vweight, deficit)
      ensures calls[|calls| - 1].control == old(control) && control == correct(calls[|calls| - 1]).0
      ensures indices == calls[|calls| - 1].indices && M == calls[|calls| - 1].M && fixval == calls[|calls| - 1].fixval
      ensures vweight == old(vweight)
    {
      DeformedVolumeDefined(control, src);
      indices := groups[k];
      M := Identity(|indices|);
      fixval := fun(deform(control, src)).value + vweight[k] * deficit;
      var passPoints := Corrector(src);
    }

    /**
     * The loop over the three axes: pass k moves the indices of group k towards
     * the current volume plus weight k's share of `deficit`.
     */
    method AxisPasses(src: seq<Vec3>, indexes: seq<seq<int>>, deficit: real) returns (ghost run: seq<CorrectorRequest<C>>)
      requires Valid()
      requires forall t :: t in triangles ==> InRange(t, |src|)
      requires |indexes| == 3 && |vweight| >= 3
      modifies this
      ensures calls == old(calls) + run && |run| == 3
      ensures run[0].control == old(control) && Chained(run) && control == correct(run[2]).0
      ensures forall k :: 0 <= k < 3 ==> PassRequest(run[k], k, src, indexes, vweight, deficit)
      ensures indices == run[2].indices && M == run[2].M && fixval == run[2].fixval
      ensures vweight == old(vweight)
    {
      run := [];
      for i := 0 to 3
        invariant calls == old(calls) + run && |run| == i
        invariant vweight == old(vweight)
        invariant i == 0 ==> control == old(control)
        invariant i > 0 ==> run[0].control == old(control) && control == correct(run[i - 1]).0
        invariant i > 0 ==> indices == run[i - 1].indices && M == run[i - 1].M && fixval == run[i - 1].fixval
        invariant Chained(run)
        invariant forall k :: 0 <= k < i ==> PassRequest(run[k], k, src, indexes, vweight, deficit)
      {
        AxisPass(src, indexes, i, deficit);
        run := run + [calls[|calls| - 1]];
      }
    }

    /** Replaces the step weights by their absolute values divided by the sum of those. */
    method NormaliseWeights()
      requires AbsSum(vweight) != 0.0
      modifies this
      ensures vweight == Normalised(old(vweight))
      ensures indices == old(indices) && M == old(M) && fixval == old(fixval)
      ensures control == old(control) && calls == old(calls)
    {
      vweight := Normalised(vweight);
    }

    /**
     * The volume-constrained deformation of src: one corrector pass per axis
     * moving that axis's indices towards its share of the volume deficit, then
     * a final corrector pass whose points are returned, with the indices restored.
     */
    method Call(src: seq<Vec3>) returns (tmp: seq<Vec3>, ghost run: seq<CorrectorRequest<C>>)
      requires Valid()
      requires forall t :: t in triangles ==> InRange(t, |src|)
      requires |vweight| >= 3
      requires AbsSum(vweight) != 0.0
      modifies this
      ensures vweight == Normalised(old(vweight))
      ensures calls == old(calls) + run
      ensures Trace(run, src, old(control), old(indices), old(fixval), vweight)
      ensures control == correct(run[3]).0 && tmp == correct(run[3]).1
      ensures indices == old(indices) && M == run[3].M && fixval == run[3].fixval
    {
      NormaliseWeights();
      DeformedVolumeDefined(control, src);
      var indicesBak := indices;
      var indexes := Groups(indices);
      var diffvolume := fixval - fun(deform(control, src)).value;
      ghost var passes := AxisPasses(src, indexes, diffvolume);
      tmp := Corrector(src);
      TraceOf(passes, calls[|calls| - 1], src, old(control), indicesBak, old(fixval), vweight);
      run := passes + [calls[|calls| - 1]];
      indices := indicesBak;
    }
  }
}
