/** DerefinePoles as the code runs it: averages into a temporary face field, then written back. */
module DerefineKernels {
  import opened Grid
  import opened BoundaryEMF
  import opened Derefine

  /** Zone rows of the derefined faces. */
  function ZoneRows(m: Mesh, nl: int, inner: bool): (int, int) {
    if inner then (PoleFace(m, true), PoleFace(m, true) + (nl - 1))
    else (PoleFace(m, false) - (nl - 1) - 1, PoleFace(m, false) - 1)
  }

  function Range1(m: Mesh, nl: int, inner: bool): Box {
    var z := ZoneRows(m, nl, inner);
    Box(m.Ks(), m.Ke(), z.0, z.1, m.Is(), m.Ie() + 1)
  }

  function Range2(m: Mesh, nl: int, inner: bool): Box {
    var z := ZoneRows(m, nl, inner);
    Box(m.Ks(), m.Ke(), FaceOfRow(inner, z.0), FaceOfRow(inner, z.1), m.Is(), m.Ie())
  }

  function Range3(m: Mesh, nl: int, inner: bool): Box {
    var z := ZoneRows(m, nl, inner);
    Box(m.Ks(), m.Ke() + 1, z.0, z.1, m.Is(), m.Ie())
  }

  function Target1(m: Mesh, nl: int, inner: bool, b: Field): Scalar {
    (k, jc, i) =>
        if Row(m, nl, inner, FaceOfRow(inner, jc)) then Mean1(m, nl, inner, b, k, FaceOfRow(inner, jc), i) else 0.0
  }

  function Target2(m: Mesh, nl: int, inner: bool, allow: bool, b: Field): Scalar {
    (k, j, i) => if Row(m, nl, inner, j) then Mean2(m, nl, inner, allow, b, k, j, i) else 0.0
  }

  function Target3(m: Mesh, nl: int, inner: bool, b: Field): Scalar {
    (k, jc, i) =>
        if Row(m, nl, inner, FaceOfRow(inner, jc)) then Inner3(m, nl, inner, b, k, FaceOfRow(inner, jc), i) else 0.0
  }

  /** Mean of field times area over the coarse cell of zone `k`. */
  method CoarseMean(m: Mesh, a: array3<real>, area: real, k: int, j: int, i: int, len: int, ghost s: Scalar)
      returns (avg: real)
    requires m.Ok() && Stores(m, a, s) && len > 0
    requires 0 <= k - Fine(m, k, len) && k - Fine(m, k, len) + len <= m.M3() && 0 <= j < m.M2() && 0 <= i < m.M1()
    ensures avg == Total(Weighted(s, area), k - Fine(m, k, len), len, j, i) / len as real
  {
    var kStart := k - Fine(m, k, len);
    avg := 0.0;
    for ktemp := 0 to len
      invariant avg == Total(Weighted(s, area), kStart, ktemp, j, i)
    {
      assert Line(Weighted(s, area), 3, 0, j, i)(kStart + ktemp) == a[kStart + ktemp, j, i] * area;
      avg := avg + a[kStart + ktemp, j, i] * area;
    }
    avg := avg / len as real;
  }

  method AverageF1(m: Mesh, nl: int, inner: bool, b: array3<real>, avg: array3<real>, ghost f: Field, ghost s: Scalar)
    requires Fits(m, nl) && Stores(m, b, f.x1) && avg != b && Stores(m, avg, s)
    modifies avg
    ensures Stores(m, avg, Within(Range1(m, nl, inner), s, Target1(m, nl, inner, f)))
  {
    hide Upto, Stores, Fine, Total;
    var r := Range1(m, nl, inner);
    ghost var t := Target1(m, nl, inner, f);
    BeginLoops(m, avg, r, s, t);
    for k := r.ks to r.ke + 1
      invariant Stores(m, avg, Upto(r, k, r.js, r.iS, s, t))
    {
      for j := r.js to r.je + 1
        invariant Stores(m, avg, Upto(r, k, j, r.iS, s, t))
      {
        CoarseCell(m, nl, inner, FaceOfRow(inner, j), k);
        var len := 2 * Half(m, nl, inner, FaceOfRow(inner, j));
        for i := r.iS to r.iE + 1
          invariant Stores(m, avg, Upto(r, k, j, i, s, t))
        {
          var v := CoarseMean(m, b, m.A1(), k, j, i, len, f.x1);
          assert v == Mean1(m, nl, inner, f, k, FaceOfRow(inner, j), i);
          StorePoint(m, avg, r, k, j, i, v, s, t);
        }
        EndRow(m, avg, r, k, j, s, t);
      }
      EndPlane(m, avg, r, k, s, t);
    }
    EndLoops(m, avg, r, s, t);
  }

  method AverageF2(m: Mesh, nl: int, inner: bool, allow: bool, b: array3<real>, avg: array3<real>, ghost f: Field,
                   ghost s: Scalar)
    requires Fits(m, nl) && Stores(m, b, f.x2) && avg != b && Stores(m, avg, s)
    modifies avg
    ensures Stores(m, avg, Within(Range2(m, nl, inner), s, Target2(m, nl, inner, allow, f)))
  {
    hide Upto, Stores, Fine, Total;
    var r := Range2(m, nl, inner);
    ghost var t := Target2(m, nl, inner, allow, f);
    BeginLoops(m, avg, r, s, t);
    for k := r.ks to r.ke + 1
      invariant Stores(m, avg, Upto(r, k, r.js, r.iS, s, t))
    {
      for j := r.js to r.je + 1
        invariant Stores(m, avg, Upto(r, k, j, r.iS, s, t))
      {
        CoarseCell(m, nl, inner, j, k);
        var len := 2 * Half(m, nl, inner, j);
        for i := r.iS to r.iE + 1
          invariant Stores(m, avg, Upto(r, k, j, i, s, t))
        {
          var v := 0.0;
          if allow || j != PoleFace(m, inner) {
            v := CoarseMean(m, b, m.A2(), k, j, i, len, f.x2);
          }
          assert v == Mean2(m, nl, inner, allow, f, k, j, i);
          StorePoint(m, avg, r, k, j, i, v, s, t);
        }
        EndRow(m, avg, r, k, j, s, t);
      }
      EndPlane(m, avg, r, k, s, t);
    }
    EndLoops(m, avg, r, s, t);
  }

  lemma TotalPrepend(s: Scalar, k0: int, n: nat, j: int, i: int)
    ensures Total(s, k0, n + 1, j, i) == s(k0, j, i) + Total(s, k0 + 1, n, j, i)
  {
    TotalSplits(s, k0, 1, n, j, i);
    TotalOfOne(s, k0, j, i);
  }

  /** X3 flux at face `k` of its coarse cell: kept at the ends, rebuilt inside. */
  method InnerFlux(m: Mesh, nl: int, inner: bool, b2: array3<real>, b3: array3<real>, k: int, j: int, i: int,
                   ghost f: Field)
      returns (v: real)
    requires Fits(m, nl) && Row(m, nl, inner, j) && Stores(m, b2, f.x2) && Stores(m, b3, f.x3)
    requires m.Ks() <= k <= m.Ke() + 1 && m.Is() <= i <= m.Ie()
    ensures v == Inner3(m, nl, inner, f, k, j, i)
  {
    hide Weighted, Total, Interpolate, Fine;
    var half, jc, jo := Half(m, nl, inner, j), ZoneRow(inner, j), j + Away(inner);
    var len := 2 * half;
    var t := Fine(m, k, len);
    if t == 0 {
      CellStartKeepsFlux3(m, nl, inner, f, k, j, i);
      WeightedAt(f.x3, m.A3(), k, jc, i);
      return b3[k, jc, i] * m.A3();
    }
    LastFaceStartsCell(m, nl, inner, j);
    CoarseCell(m, nl, inner, j, k);
    var kStart, kHalf, kEnd := k - t, k - t + half, k - t + len;
    var left, right := HalfSums(m, b2, kHalf, half, jo, i, f.x2);
    var bStart, bEnd := b3[kStart, jc, i] * m.A3(), b3[kEnd, jc, i] * m.A3();
    var bCenter := (bStart + bEnd + Away(inner) as real * (right - left)) / 2.0;
    WeightedAt(f.x3, m.A3(), kStart, jc, i);
    WeightedAt(f.x3, m.A3(), kEnd, jc, i);
    assert kHalf - half == kStart;
    assert bCenter == Central(Away(inner), bStart, bEnd, left, right);
    v := PickInner(t, half, bStart, bCenter, bEnd);
    ghost var w2, w3 := Weighted(f.x2, m.A2()), Weighted(f.x3, m.A3());
    assert bStart == w3(k - t, jc, i);
    assert bEnd == w3(k - t + 2 * half, jc, i);
    assert left == Total(w2, k - t, half, jo, i);
    assert right == Total(w2, k - t + half, half, jo, i);
  }

  lemma WeightedAt(s: Scalar, a: real, k: int, j: int, i: int)
    ensures Weighted(s, a)(k, j, i) == s(k, j, i) * a
  {
  }

  method PickInner(t: int, half: nat, bStart: real, bCenter: real, bEnd: real) returns (v: real)
    requires half > 0 && t > 0
    ensures v == Interpolate(t, half, bStart, bCenter, bEnd)
  {
    if t == half {
      v := bCenter;
    } else if t < half {
      v := ((half - t) as real * bStart + t as real * bCenter) / half as real;
    } else {
      v := ((t - half) as real * bEnd + (2 * half - t) as real * bCenter) / half as real;
    }
  }

  /** The X2 fluxes of both halves of a coarse cell, gathered outwards from its middle. */
  method HalfSums(m: Mesh, b2: array3<real>, kHalf: int, half: nat, j: int, i: int, ghost s: Scalar)
      returns (left: real, right: real)
    requires m.Ok() && Stores(m, b2, s) && 0 <= kHalf - half && kHalf + half <= m.M3()
    requires 0 <= j < m.M2() && 0 <= i < m.M1()
    ensures left == Total(Weighted(s, m.A2()), kHalf - half, half, j, i)
    ensures right == Total(Weighted(s, m.A2()), kHalf, half, j, i)
  {
    left, right := 0.0, 0.0;
    ghost var w := Weighted(s, m.A2());
    for ktemp := 0 to half
      invariant left == Total(w, kHalf - ktemp, ktemp, j, i)
      invariant right == Total(w, kHalf, ktemp, j, i)
    {
      TotalPrepend(w, kHalf - 1 - ktemp, ktemp, j, i);
      assert Line(w, 3, 0, j, i)(kHalf + ktemp) == b2[kHalf + ktemp, j, i] * m.A2();
      left := left + b2[kHalf - 1 - ktemp, j, i] * m.A2();
      right := right + b2[kHalf + ktemp, j, i] * m.A2();
    }
  }

  method AverageF3(m: Mesh, nl: int, inner: bool, b2: array3<real>, b3: array3<real>, avg: array3<real>, ghost f: Field,
                   ghost s: Scalar)
    requires Fits(m, nl) && Stores(m, b2, f.x2) && Stores(m, b3, f.x3) && avg != b2 && avg != b3 && Stores(m, avg, s)
    modifies avg
    ensures Stores(m, avg, Within(Range3(m, nl, inner), s, Target3(m, nl, inner, f)))
  {
    hide Upto, Stores, Inner3;
    var r := Range3(m, nl, inner);
    ghost var t := Target3(m, nl, inner, f);
    BeginLoops(m, avg, r, s, t);
    for k := r.ks to r.ke + 1
      invariant Stores(m, avg, Upto(r, k, r.js, r.iS, s, t))
    {
      for j := r.js to r.je + 1
        invariant Stores(m, avg, Upto(r, k, j, r.iS, s, t))
      {
        assert Row(m, nl, inner, FaceOfRow(inner, j));
        for i := r.iS to r.iE + 1
          invariant Stores(m, avg, Upto(r, k, j, i, s, t))
        {
          var v := InnerFlux(m, nl, inner, b2, b3, k, FaceOfRow(inner, j), i, f);
          StorePoint(m, avg, r, k, j, i, v, s, t);
        }
        EndRow(m, avg, r, k, j, s, t);
      }
      EndPlane(m, avg, r, k, s, t);
    }
    EndLoops(m, avg, r, s, t);
  }

  lemma Target1IsNew(m: Mesh, nl: int, inner: bool, allow: bool, f: Field, k: int, j: int, i: int)
    requires Fits(m, nl)
    ensures Derefined(m, nl, inner, allow, f).x1(k, j, i)
         == if Range1(m, nl, inner).Has(k, j, i) then Target1(m, nl, inner, f)(k, j, i) / m.A1() else f.x1(k, j, i)
    ensures Range1(m, nl, inner).Has(k, j, i) ==> m.InBounds(k, j, i)
  {
  }

  method WriteF1(m: Mesh, nl: int, inner: bool, ghost allow: bool, avg: array3<real>, b: array3<real>, ghost f: Field,
                 ghost s: Scalar)
    requires Fits(m, nl) && avg != b && Stores(m, b, f.x1)
    requires Stores(m, avg, Within(Range1(m, nl, inner), s, Target1(m, nl, inner, f)))
    modifies b
    ensures Stores(m, b, Derefined(m, nl, inner, allow, f).x1)
  {
    hide Derefined, Target1, Range1;
    var r := Range1(m, nl, inner);
    forall k, j, i
      ensures r.Has(k, j, i) ==> m.InBounds(k, j, i)
      ensures r.Has(k, j, i) ==>
                Derefined(m, nl, inner, allow, f).x1(k, j, i) == Target1(m, nl, inner, f)(k, j, i) / m.A1()
      ensures !r.Has(k, j, i) ==> Derefined(m, nl, inner, allow, f).x1(k, j, i) == f.x1(k, j, i)
    {
      Target1IsNew(m, nl, inner, allow, f, k, j, i);
    }
    ParFor(m, r, b, (k, j, i) requires r.Has(k, j, i) reads avg => avg[k, j, i] / m.A1(),
           f.x1, Derefined(m, nl, inner, allow, f).x1);
  }

  lemma Target2IsNew(m: Mesh, nl: int, inner: bool, allow: bool, f: Field, k: int, j: int, i: int)
    requires Fits(m, nl)
    ensures Derefined(m, nl, inner, allow, f).x2(k, j, i)
         == if Range2(m, nl, inner).Has(k, j, i) then Target2(m, nl, inner, allow, f)(k, j, i) / m.A2()
            else f.x2(k, j, i)
    ensures Range2(m, nl, inner).Has(k, j, i) ==> m.InBounds(k, j, i)
  {
  }

  method WriteF2(m: Mesh, nl: int, inner: bool, ghost allow: bool, avg: array3<real>, b: array3<real>, ghost f: Field,
                 ghost s: Scalar)
    requires Fits(m, nl) && avg != b && Stores(m, b, f.x2)
    requires Stores(m, avg, Within(Range2(m, nl, inner), s, Target2(m, nl, inner, allow, f)))
    modifies b
    ensures Stores(m, b, Derefined(m, nl, inner, allow, f).x2)
  {
    hide Derefined, Target2, Range2;
    var r := Range2(m, nl, inner);
    forall k, j, i
      ensures r.Has(k, j, i) ==> m.InBounds(k, j, i)
      ensures r.Has(k, j, i) ==>
                Derefined(m, nl, inner, allow, f).x2(k, j, i) == Target2(m, nl, inner, allow, f)(k, j, i) / m.A2()
      ensures !r.Has(k, j, i) ==> Derefined(m, nl, inner, allow, f).x2(k, j, i) == f.x2(k, j, i)
    {
      Target2IsNew(m, nl, inner, allow, f, k, j, i);
    }
    ParFor(m, r, b, (k, j, i) requires r.Has(k, j, i) reads avg => avg[k, j, i] / m.A2(),
           f.x2, Derefined(m, nl, inner, allow, f).x2);
  }

  lemma Target3IsNew(m: Mesh, nl: int, inner: bool, allow: bool, f: Field, k: int, j: int, i: int)
    requires Fits(m, nl)
    ensures Derefined(m, nl, inner, allow, f).x3(k, j, i)
         == if Range3(m, nl, inner).Has(k, j, i) then Target3(m, nl, inner, f)(k, j, i) / m.A3() else f.x3(k, j, i)
    ensures Range3(m, nl, inner).Has(k, j, i) ==> m.InBounds(k, j, i)
  {
  }

  method WriteF3(m: Mesh, nl: int, inner: bool, ghost allow: bool, avg: array3<real>, b: array3<real>, ghost f: Field,
                 ghost s: Scalar)
    requires Fits(m, nl) && avg != b && Stores(m, b, f.x3)
    requires Stores(m, avg, Within(Range3(m, nl, inner), s, Target3(m, nl, inner, f)))
    modifies b
    ensures Stores(m, b, Derefined(m, nl, inner, allow, f).x3)
  {
    hide Derefined, Target3, Range3;
    var r := Range3(m, nl, inner);
    forall k, j, i
      ensures r.Has(k, j, i) ==> m.InBounds(k, j, i)
      ensures r.Has(k, j, i) ==>
                Derefined(m, nl, inner, allow, f).x3(k, j, i) == Target3(m, nl, inner, f)(k, j, i) / m.A3()
      ensures !r.Has(k, j, i) ==> Derefined(m, nl, inner, allow, f).x3(k, j, i) == f.x3(k, j, i)
    {
      Target3IsNew(m, nl, inner, allow, f, k, j, i);
    }
    ParFor(m, r, b, (k, j, i) requires r.Has(k, j, i) reads avg => avg[k, j, i] / m.A3(),
           f.x3, Derefined(m, nl, inner, allow, f).x3);
  }

  /** Derefinement at one pole. */
  method DerefinePole(nl: int, inner: bool, allow: bool, b: FieldData, avg: FieldData)
    requires b.Valid() && avg.Valid() && avg.m == b.m && Fits(b.m, nl) && b.Repr() !! avg.Repr()
    modifies b.Repr(), avg.Repr()
    ensures b.Valid() && b.contents == Derefined(b.m, nl, inner, allow, old(b.contents))
    ensures avg.Valid()
  {
    var m := b.m;
    ghost var f, a := b.contents, avg.contents;
    AverageF1(m, nl, inner, b.x1, avg.x1, f, a.x1);
    AverageF2(m, nl, inner, allow, b.x2, avg.x2, f, a.x2);
    AverageF3(m, nl, inner, b.x2, b.x3, avg.x3, f, a.x3);
    WriteF1(m, nl, inner, allow, avg.x1, b.x1, f, a.x1);
    WriteF2(m, nl, inner, allow, avg.x2, b.x2, f, a.x2);
    WriteF3(m, nl, inner, allow, avg.x3, b.x3, f, a.x3);
    avg.contents := Field(Within(Range1(m, nl, inner), a.x1, Target1(m, nl, inner, f)),
                          Within(Range2(m, nl, inner), a.x2, Target2(m, nl, inner, allow, f)),
                          Within(Range3(m, nl, inner), a.x3, Target3(m, nl, inner, f)));
    b.contents := Derefined(m, nl, inner, allow, f);
  }

  /** DerefinePoles on a block that touches the poles given. */
  method DerefinePoles(nl: int, atInner: bool, atOuter: bool, allowInner: bool, allowOuter: bool, b: FieldData,
                       avg: FieldData)
    requires b.Valid() && avg.Valid() && avg.m == b.m && Fits(b.m, nl) && b.Repr() !! avg.Repr()
    modifies b.Repr(), avg.Repr()
    ensures b.Valid() && avg.Valid()
    ensures b.contents == DerefinedPoles(b.m, nl, atInner, atOuter, allowInner, allowOuter, old(b.contents))
  {
    if atInner { DerefinePole(nl, true, allowInner, b, avg); }
    if atOuter { DerefinePole(nl, false, allowOuter, b, avg); }
  }
}
