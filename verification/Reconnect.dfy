/** Reconnection of B3 across a polar boundary (b_ct boundaries): the row of X3 faces next to the
    pole loses its mean. */
module Reconnect {
  import opened Grid
  import opened Sums
  import opened FaceCT
  import opened BoundaryEMF

  /** The row of zones next to the pole. */
  function PolarRow(m: Mesh, inner: bool): int { if inner then m.Js() else m.Je() }

  /** B3 once the mean has been taken off the first `p` columns of the row. */
  function SubtractedUpTo(m: Mesh, inner: bool, s: Scalar, p: int): Scalar
    requires m.Ok()
  {
    (k, j, i) => if j == PolarRow(m, inner) && 0 <= i < p then s(k, j, i) - LineMean(m, s, 3, k, j, i) else s(k, j, i)
  }

  /** Columns treated: all but the last `buffer` of the allocated ones. */
  function Reach(m: Mesh, buffer: nat): nat
    requires m.Ok()
  {
    if LastZone(m, 1) + 1 <= buffer then 0 else LastZone(m, 1) + 1 - buffer
  }

  /** The field after ReconnectBoundaryB3. */
  function Reconnected(m: Mesh, inner: bool, buffer: nat, b: Field): Field
    requires m.Ok()
  {
    b.(x3 := SubtractedUpTo(m, inner, b.x3, Reach(m, buffer)))
  }

  /** Reconnection changes no zone's net flux: both X3 faces of a zone lose the same mean. */
  lemma ReconnectKeepsNet(m: Mesh, inner: bool, buffer: nat, b: Field, k: int, j: int, i: int)
    requires m.Ok() && m.ndim == 3
    ensures Net(m, Reconnected(m, inner, buffer, b), k, j, i) == Net(m, b, k, j, i)
  {
  }

  /** What reconnection takes off B3: the same value along all of a column, in the zone row next to the
      pole, on all columns but the last `buffer`.  Nothing else changes. */
  lemma ReconnectedFaces(m: Mesh, inner: bool, buffer: nat, b: Field, k: int, j: int, i: int)
    requires m.Ok() && m.InBounds(k, j, i)
    ensures var r := Reconnected(m, inner, buffer, b);
            var column := j == (if inner then m.Js() else m.Je()) && 0 <= i <= m.Ie() + m.ng - buffer;
            && r.x1(k, j, i) == b.x1(k, j, i) && r.x2(k, j, i) == b.x2(k, j, i)
            && (!column ==> r.x3(k, j, i) == b.x3(k, j, i))
            && forall k' :: r.x3(k, j, i) - b.x3(k, j, i) == r.x3(k', j, i) - b.x3(k', j, i)
  {
    forall k' ensures LineMean(m, b.x3, 3, k', j, i) == LineMean(m, b.x3, 3, k, j, i) {
    }
    hide LineMean;
  }

  /** No net B3 threads the polar row afterwards. */
  lemma ReconnectedSumIsZero(m: Mesh, inner: bool, buffer: nat, b: Field, i: int)
    requires m.Ok() && m.ndim == 3 && 0 <= i <= m.Ie() + m.ng - buffer
    ensures var j := if inner then m.Js() else m.Je();
            Sum((k: int) => Reconnected(m, inner, buffer, b).x3(k, j, i), m.Ks(), m.n3) == 0.0
  {
    var j, lo, n := PolarRow(m, inner), Start(m, 3), Count(m, 3);
    var r := Reconnected(m, inner, buffer, b).x3;
    var mean, f, g := LineMean(m, b.x3, 3, 0, j, i), Line(b.x3, 3, 0, j, i), (k: int) => r(k, j, i);
    var one: int -> real := x => 1.0;
    MeanFromSum(m, b.x3, 3, 0, j, i);
    forall x ensures g(x) == Combination(1.0, f(x), -mean, one(x)) {
      assert LineMean(m, b.x3, 3, x, j, i) == mean;
    }
    hide LineMean, Combination;
    SumCombine(f, one, g, 1.0, -mean, lo, n);
    SumConst(one, 1.0, lo, n);
    LessMean(Sum(f, lo, n), mean, n as real);
  }

  lemma LessMean(sum: real, mean: real, n: real)
    requires mean * n == sum
    ensures Combination(1.0, sum, -mean, n * 1.0) == 0.0
  {
  }

  // -- The kernel

  lemma NextColumn(m: Mesh, inner: bool, s: Scalar, o: int, k: int, j: int, i: int)
    requires m.Ok()
    ensures var p, q := SubtractedUpTo(m, inner, s, o), SubtractedUpTo(m, inner, s, o + 1);
            if j == PolarRow(m, inner) && i == o && o >= 0
            then p(k, j, i) == s(k, j, i) && q(k, j, i) == s(k, j, i) - LineMean(m, s, 3, 0, j, i)
            else p(k, j, i) == q(k, j, i)
  {
  }

  lemma ColumnStillOld(m: Mesh, inner: bool, s: Scalar, o: int)
    requires m.Ok()
    ensures LineMean(m, SubtractedUpTo(m, inner, s, o), 3, 0, PolarRow(m, inner), o)
         == LineMean(m, s, 3, 0, PolarRow(m, inner), o)
  {
    var j := PolarRow(m, inner);
    SumSame(Line(SubtractedUpTo(m, inner, s, o), 3, 0, j, o), Line(s, 3, 0, j, o), Start(m, 3), Count(m, 3));
  }

  /** One team of the outer loop. */
  method SubtractColumn(m: Mesh, inner: bool, a: array3<real>, o: int, ghost s: Scalar)
    requires m.Ok() && m.ndim == 3 && 0 <= o <= LastZone(m, 1) && Stores(m, a, SubtractedUpTo(m, inner, s, o))
    modifies a
    ensures Stores(m, a, SubtractedUpTo(m, inner, s, o + 1))
  {
    hide SubtractedUpTo, LineMean;
    var j := PolarRow(m, inner);
    ColumnStillOld(m, inner, s, o);
    var mean := MeanOfLine(m, a, 3, 0, j, o, SubtractedUpTo(m, inner, s, o));
    forall k, j, i { NextColumn(m, inner, s, o, k, j, i); }
    var r := Box(0, m.M3() - 1, j, j, o, o);
    ParFor(m, r, a, (k, j, i) requires r.Has(k, j, i) reads a => a[k, j, i] - mean,
           SubtractedUpTo(m, inner, s, o), SubtractedUpTo(m, inner, s, o + 1));
  }

  method ReconnectBoundaryB3(inner: bool, buffer: nat, b: FieldData)
    requires b.Valid() && b.m.ndim == 3
    modifies b.Repr()
    ensures b.Valid() && b.contents == Reconnected(b.m, inner, buffer, old(b.contents))
  {
    var m := b.m;
    ghost var s := b.contents.x3;
    assert Stores(m, b.x3, SubtractedUpTo(m, inner, s, 0));
    for o := 0 to Reach(m, buffer)
      modifies b.x3
      invariant Stores(m, b.x3, SubtractedUpTo(m, inner, s, o))
    {
      SubtractColumn(m, inner, b.x3, o, s);
    }
    b.contents := Reconnected(m, inner, buffer, b.contents);
  }
}
