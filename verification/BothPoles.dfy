/** DerefinePoles as a whole: on a block that touches both poles the second pass works on what the
    first one left.  The two passes do not disturb one another, so what holds of one pass holds of
    the routine. */
module BothPoles {
  import opened Grid
  import opened Remainders
  import opened Sums
  import opened FaceCT
  import opened BoundaryEMF
  import opened Derefine

  /** The poles a block touches and those flux is allowed through. */
  datatype Poles = Poles(atInner: bool, atOuter: bool, allowInner: bool, allowOuter: bool) {
    predicate At(inner: bool) { if inner then atInner else atOuter }
    predicate Allow(inner: bool) { if inner then allowInner else allowOuter }
  }

  /** The derefined rows of two poles have no zone in common. */
  predicate Apart(m: Mesh, nl: int, ps: Poles) {
    Fits(m, nl) && (ps.atInner && ps.atOuter ==> 2 * nl <= m.n2)
  }

  function AtPoles(m: Mesh, nl: int, ps: Poles, b: Field): Field
    requires m.Ok()
  {
    DerefinedPoles(m, nl, ps.atInner, ps.atOuter, ps.allowInner, ps.allowOuter, b)
  }

  /** Zone row `jc` is derefined at a pole of the block. */
  predicate InRow(m: Mesh, nl: int, ps: Poles, inner: bool, jc: int) {
    ps.At(inner) && Row(m, nl, inner, FaceOfRow(inner, jc))
  }

  // -- What one pass reads and what it changes

  /** `b` and `c` are the same wherever the pass at this pole reads. */
  ghost predicate SameAtPole(m: Mesh, nl: int, inner: bool, b: Field, c: Field) {
    && (forall k, j, i {:trigger c.x1(k, j, i)} | Row(m, nl, inner, FaceOfRow(inner, j)) ::
        b.x1(k, j, i) == c.x1(k, j, i))
    && (forall k, j, i {:trigger c.x2(k, j, i)} | Row(m, nl, inner, j) || Row(m, nl, inner, j - Away(inner)) ::
          b.x2(k, j, i) == c.x2(k, j, i))
    && (forall k, j, i {:trigger c.x3(k, j, i)} | Row(m, nl, inner, FaceOfRow(inner, j)) ::
        b.x3(k, j, i) == c.x3(k, j, i))
  }

  /** The pass at one pole touches nothing the pass at the other reads. */
  lemma OtherPoleUntouched(m: Mesh, nl: int, inner: bool, allow: bool, b: Field)
    requires Fits(m, nl) && 2 * nl <= m.n2
    ensures SameAtPole(m, nl, !inner, b, Derefined(m, nl, inner, allow, b))
  {
    hide Mean1, Mean2, Inner3;
    var c := Derefined(m, nl, inner, allow, b);
    forall k, j, i
      ensures c.x1(k, j, i) == New1(m, nl, inner, b, k, j, i) && c.x2(k, j, i) == New2(m, nl, inner, allow, b, k, j, i)
           && c.x3(k, j, i) == New3(m, nl, inner, b, k, j, i)
    {
    }
  }

  lemma SameTotal(s: Scalar, t: Scalar, a: real, k0: int, n: nat, j: int, i: int)
    requires forall k :: s(k, j, i) == t(k, j, i)
    ensures Total(Weighted(s, a), k0, n, j, i) == Total(Weighted(t, a), k0, n, j, i)
  {
    var p, q := Line(Weighted(s, a), 3, 0, j, i), Line(Weighted(t, a), 3, 0, j, i);
    forall x ensures p(x) == q(x) {
      assert p(x) == s(x, j, i) * a && q(x) == t(x, j, i) * a;
    }
    SumSame(p, q, k0, n);
  }

  /** What the pass computes in its rows depends on what it reads only. */
  lemma SameMeans(m: Mesh, nl: int, inner: bool, allow: bool, b: Field, c: Field, k: int, j: int, i: int)
    requires Fits(m, nl) && Row(m, nl, inner, j) && SameAtPole(m, nl, inner, b, c)
    ensures Mean1(m, nl, inner, b, k, j, i) == Mean1(m, nl, inner, c, k, j, i)
    ensures Mean2(m, nl, inner, allow, b, k, j, i) == Mean2(m, nl, inner, allow, c, k, j, i)
    ensures Inner3(m, nl, inner, b, k, j, i) == Inner3(m, nl, inner, c, k, j, i)
  {
    hide Interpolate, Central, Total;
    var half, jc, jo := Half(m, nl, inner, j), ZoneRow(inner, j), j + Away(inner);
    var t := Fine(m, k, 2 * half);
    SameTotal(b.x1, c.x1, m.A1(), k - t, 2 * half, jc, i);
    SameTotal(b.x2, c.x2, m.A2(), k - t, 2 * half, j, i);
    SameTotal(b.x2, c.x2, m.A2(), k - t, half, jo, i);
    SameTotal(b.x2, c.x2, m.A2(), k - t + half, half, jo, i);
    assert FaceOfRow(inner, jc) == j;
    assert Weighted(b.x3, m.A3())(k - t, jc, i) == Weighted(c.x3, m.A3())(k - t, jc, i);
    assert Weighted(b.x3, m.A3())(k - t + 2 * half, jc, i) == Weighted(c.x3, m.A3())(k - t + 2 * half, jc, i);
  }

  // -- What each face holds after both passes

  /** Faces of the derefined rows of a pole hold what the pass at that pole makes of the original
      field, every other face what it held. */
  lemma EachPoleOnItsOwn(m: Mesh, nl: int, ps: Poles, b: Field, k: int, j: int, i: int)
    requires Apart(m, nl, ps)
    ensures var d, p, q :=
            AtPoles(m, nl, ps, b), Derefined(m, nl, true, ps.allowInner, b), Derefined(m, nl, false, ps.allowOuter, b);
            && d.x1(k, j, i)
            == (if InRow(m, nl, ps, false, j) then q.x1(k, j, i) else if InRow(m, nl, ps, true, j) then p.x1(k, j, i)
                else b.x1(k, j, i))
            && d.x2(k, j, i)
            == (if ps.atOuter && Row(m, nl, false, j) then q.x2(k, j, i)
                else if ps.atInner && Row(m, nl, true, j) then p.x2(k, j, i) else b.x2(k, j, i))
            && d.x3(k, j, i)
            == (if InRow(m, nl, ps, false, j) then q.x3(k, j, i) else if InRow(m, nl, ps, true, j) then p.x3(k, j, i)
                else b.x3(k, j, i))
  {
    hide Mean1, Mean2, Inner3;
    var p, q := Derefined(m, nl, true, ps.allowInner, b), Derefined(m, nl, false, ps.allowOuter, b);
    var r := Derefined(m, nl, false, ps.allowOuter, p);
    assert p.x1(k, j, i) == New1(m, nl, true, b, k, j, i)
           && p.x2(k, j, i) == New2(m, nl, true, ps.allowInner, b, k, j, i);
    assert p.x3(k, j, i) == New3(m, nl, true, b, k, j, i);
    assert q.x1(k, j, i) == New1(m, nl, false, b, k, j, i)
           && q.x2(k, j, i) == New2(m, nl, false, ps.allowOuter, b, k, j, i);
    assert q.x3(k, j, i) == New3(m, nl, false, b, k, j, i);
    if ps.atInner && ps.atOuter {
      assert r.x1(k, j, i) == New1(m, nl, false, p, k, j, i)
             && r.x2(k, j, i) == New2(m, nl, false, ps.allowOuter, p, k, j, i);
      assert r.x3(k, j, i) == New3(m, nl, false, p, k, j, i);
      OtherPoleUntouched(m, nl, true, ps.allowInner, b);
      if Row(m, nl, false, FaceOfRow(false, j)) {
        SameMeans(m, nl, false, ps.allowOuter, b, p, k, FaceOfRow(false, j), i);
      }
      if Row(m, nl, false, j) { SameMeans(m, nl, false, ps.allowOuter, b, p, k, j, i); }
    }
  }

  lemma AgreesAtPole(m: Mesh, nl: int, ps: Poles, inner: bool, b: Field)
    requires Apart(m, nl, ps) && ps.At(inner)
    ensures SameAtPole(m, nl, inner, Derefined(m, nl, inner, ps.Allow(inner), b), AtPoles(m, nl, ps, b))
  {
    hide Mean1, Mean2, Inner3, AtPoles;
    var p, d := Derefined(m, nl, inner, ps.Allow(inner), b), AtPoles(m, nl, ps, b);
    forall k, j, i
      ensures Row(m, nl, inner, FaceOfRow(inner, j))
              ==> p.x1(k, j, i) == d.x1(k, j, i) && p.x3(k, j, i) == d.x3(k, j, i)
      ensures Row(m, nl, inner, j) || Row(m, nl, inner, j - Away(inner)) ==> p.x2(k, j, i) == d.x2(k, j, i)
    {
      EachPoleOnItsOwn(m, nl, ps, b, k, j, i);
      assert p.x2(k, j, i) == New2(m, nl, inner, ps.Allow(inner), b, k, j, i);
    }
  }

  /** DerefinePoles twice is DerefinePoles once. */
  lemma PolesProjection(m: Mesh, nl: int, ps: Poles, b: Field, k: int, j: int, i: int)
    requires Apart(m, nl, ps)
    ensures var d := AtPoles(m, nl, ps, b); var dd := AtPoles(m, nl, ps, d);
            dd.x1(k, j, i) == d.x1(k, j, i) && dd.x2(k, j, i) == d.x2(k, j, i) && dd.x3(k, j, i) == d.x3(k, j, i)
  {
    hide AtPoles, Derefined;
    var d := AtPoles(m, nl, ps, b);
    EachPoleOnItsOwn(m, nl, ps, b, k, j, i);
    EachPoleOnItsOwn(m, nl, ps, d, k, j, i);
    if ps.atInner { RowsStay(m, nl, ps, true, b, k, j, i); }
    if ps.atOuter { RowsStay(m, nl, ps, false, b, k, j, i); }
  }

  /** A second pass at a pole leaves the derefined rows there as they are. */
  lemma RowsStay(m: Mesh, nl: int, ps: Poles, inner: bool, b: Field, k: int, j: int, i: int)
    requires Apart(m, nl, ps) && ps.At(inner)
    ensures var d := AtPoles(m, nl, ps, b); var r := Derefined(m, nl, inner, ps.Allow(inner), d);
            && (Row(m, nl, inner, FaceOfRow(inner, j))
                ==> r.x1(k, j, i) == d.x1(k, j, i) && r.x3(k, j, i) == d.x3(k, j, i))
            && (Row(m, nl, inner, j) ==> r.x2(k, j, i) == d.x2(k, j, i))
  {
    hide Mean1, Mean2, Inner3, AtPoles;
    var a, d := ps.Allow(inner), AtPoles(m, nl, ps, b);
    var p := Derefined(m, nl, inner, a, b);
    AgreesAtPole(m, nl, ps, inner, b);
    DerefineIsProjection(m, nl, inner, a, b, k, j, i);
    var r, pp := Derefined(m, nl, inner, a, d), Derefined(m, nl, inner, a, p);
    assert r.x1(k, j, i) == New1(m, nl, inner, d, k, j, i) && pp.x1(k, j, i) == New1(m, nl, inner, p, k, j, i);
    assert r.x2(k, j, i) == New2(m, nl, inner, a, d, k, j, i) && pp.x2(k, j, i) == New2(m, nl, inner, a, p, k, j, i);
    assert r.x3(k, j, i) == New3(m, nl, inner, d, k, j, i) && pp.x3(k, j, i) == New3(m, nl, inner, p, k, j, i);
    if Row(m, nl, inner, FaceOfRow(inner, j)) { SameMeans(m, nl, inner, a, p, d, k, FaceOfRow(inner, j), i); }
    if Row(m, nl, inner, j) { SameMeans(m, nl, inner, a, p, d, k, j, i); }
  }

  // -- Net fluxes

  /** Mean net flux of the coarse cell of a zone, and the polar flux discarded there, do not change
      with the field elsewhere. */
  lemma SameCell(m: Mesh, nl: int, inner: bool, allow: bool, b: Field, c: Field, k: int, jc: int, i: int)
    requires Fits(m, nl) && Row(m, nl, inner, FaceOfRow(inner, jc)) && m.Interior(k, jc, i)
             && SameAtPole(m, nl, inner, b, c)
    requires forall x | m.Ks() <= x <= m.Ke() :: Net(m, b, x, jc, i) == Net(m, c, x, jc, i)
    ensures CellMeanNet(m, nl, inner, b, k, jc, i) == CellMeanNet(m, nl, inner, c, k, jc, i)
    ensures Discarded(m, nl, inner, allow, b, k, jc, i) == Discarded(m, nl, inner, allow, c, k, jc, i)
  {
    hide Net, Total;
    var j := FaceOfRow(inner, jc);
    var len := 2 * Half(m, nl, inner, j);
    var k0 := k - Fine(m, k, len);
    CoarseCell(m, nl, inner, j, k);
    forall x | k0 <= x < k0 + len ensures NetLine(m, b, jc, i)(x) == NetLine(m, c, jc, i)(x) {
      assert Net(m, b, x, jc, i) == Net(m, c, x, jc, i);
    }
    SumSame(NetLine(m, b, jc, i), NetLine(m, c, jc, i), k0, len);
    SameTotal(b.x2, c.x2, m.A2(), k0, len, j, i);
  }

  /** What the net flux of a zone becomes, in terms of the field DerefinePoles was given: the mean
      over the coarse cell, but for the polar flux discarded there, in the derefined rows of the
      poles the block touches, and unchanged elsewhere. */
  lemma PolesNet(m: Mesh, nl: int, ps: Poles, b: Field, k: int, jc: int, i: int)
    requires Apart(m, nl, ps) && m.Interior(k, jc, i)
    ensures Net(m, AtPoles(m, nl, ps, b), k, jc, i) ==
            if InRow(m, nl, ps, true, jc)
            then CellMeanNet(m, nl, true, b, k, jc, i) + Discarded(m, nl, true, ps.allowInner, b, k, jc, i)
            else if InRow(m, nl, ps, false, jc)
            then CellMeanNet(m, nl, false, b, k, jc, i) - Discarded(m, nl, false, ps.allowOuter, b, k, jc, i)
            else Net(m, b, k, jc, i)
  {
    hide Net, Derefined, CellMeanNet, Discarded, SameAtPole;
    var p := if ps.atInner then Derefined(m, nl, true, ps.allowInner, b) else b;
    if ps.atInner { OnePoleNet(m, nl, true, ps.allowInner, b, k, jc, i); }
    if ps.atOuter {
      OnePoleNet(m, nl, false, ps.allowOuter, p, k, jc, i);
      if ps.atInner && Row(m, nl, false, FaceOfRow(false, jc)) {
        OtherPoleUntouched(m, nl, true, ps.allowInner, b);
        forall x | m.Ks() <= x <= m.Ke() ensures Net(m, b, x, jc, i) == Net(m, p, x, jc, i) {
          OtherZonesKeepNet(m, nl, true, ps.allowInner, b, x, jc, i);
        }
        SameCell(m, nl, false, ps.allowOuter, b, p, k, jc, i);
      }
    }
  }

  lemma OnePoleNet(m: Mesh, nl: int, inner: bool, allow: bool, b: Field, k: int, jc: int, i: int)
    requires Fits(m, nl) && m.Interior(k, jc, i)
    ensures Net(m, Derefined(m, nl, inner, allow, b), k, jc, i) ==
            if Row(m, nl, inner, FaceOfRow(inner, jc))
            then CellMeanNet(m, nl, inner, b, k, jc, i)
                + Away(inner) as real * Discarded(m, nl, inner, allow, b, k, jc, i)
            else Net(m, b, k, jc, i)
  {
    hide Net, Derefined, CellMeanNet, Discarded;
    if Row(m, nl, inner, FaceOfRow(inner, jc)) {
      DerefinedNetIsMean(m, nl, inner, allow, b, k, jc, i);
    } else {
      OtherZonesKeepNet(m, nl, inner, allow, b, k, jc, i);
    }
  }

  /** Nothing is discarded at any pole the block touches. */
  ghost predicate NothingLost(m: Mesh, nl: int, ps: Poles, b: Field)
    requires Fits(m, nl)
  {
    && (ps.atInner ==> NothingDiscarded(m, nl, true, ps.allowInner, b))
    && (ps.atOuter ==> NothingDiscarded(m, nl, false, ps.allowOuter, b))
  }

  /** A divergence-free field stays so under DerefinePoles exactly when no coarse cell at a pole of
      the block has net flux through its polar face that gets discarded. */
  lemma PolesDivFreeIff(m: Mesh, nl: int, ps: Poles, b: Field)
    requires Apart(m, nl, ps) && DivFree(m, b)
    ensures DivFree(m, AtPoles(m, nl, ps, b)) <==> NothingLost(m, nl, ps, b)
  {
    hide AtPoles, FaceDiv, Discarded;
    var d := AtPoles(m, nl, ps, b);
    forall k, j, i | m.Interior(k, j, i)
      ensures FaceDiv(m, d, k, j, i) == 0.0 <==>
              && (InRow(m, nl, ps, true, j) ==> Discarded(m, nl, true, ps.allowInner, b, k, j, i) == 0.0)
              && (InRow(m, nl, ps, false, j) ==> Discarded(m, nl, false, ps.allowOuter, b, k, j, i) == 0.0)
    {
      DivAfterPoles(m, nl, ps, b, k, j, i);
    }
    var ji, jo := ZoneRow(true, PoleFace(m, true)), ZoneRow(false, PoleFace(m, false));
    assert forall k, i | m.Ks() <= k <= m.Ke() && m.Is() <= i <= m.Ie() :: m.Interior(k, ji, i) && m.Interior(k, jo, i);
    OnlyPolarRowDiscards(m, nl, true, ps.allowInner, b);
    OnlyPolarRowDiscards(m, nl, false, ps.allowOuter, b);
  }

  lemma OnlyPolarRowDiscards(m: Mesh, nl: int, inner: bool, allow: bool, b: Field)
    requires Fits(m, nl)
    ensures forall k, j, i {:trigger Discarded(m, nl, inner, allow, b, k, j, i)} |
              Row(m, nl, inner, FaceOfRow(inner, j)) && j != ZoneRow(inner, PoleFace(m, inner)) ::
              Discarded(m, nl, inner, allow, b, k, j, i) == 0.0
  {
  }

  lemma DivAfterPoles(m: Mesh, nl: int, ps: Poles, b: Field, k: int, j: int, i: int)
    requires Apart(m, nl, ps) && DivFree(m, b) && m.Interior(k, j, i)
    ensures FaceDiv(m, AtPoles(m, nl, ps, b), k, j, i) == 0.0 <==>
            && (InRow(m, nl, ps, true, j) ==> Discarded(m, nl, true, ps.allowInner, b, k, j, i) == 0.0)
            && (InRow(m, nl, ps, false, j) ==> Discarded(m, nl, false, ps.allowOuter, b, k, j, i) == 0.0)
  {
    hide AtPoles, FaceDiv, Discarded, CellMeanNet, Net;
    PolesNet(m, nl, ps, b, k, j, i);
    NetIsDiv(m, AtPoles(m, nl, ps, b), k, j, i);
    assert FaceDiv(m, b, k, j, i) == 0.0;
    NetIsDiv(m, b, k, j, i);
    if Row(m, nl, true, FaceOfRow(true, j)) { MeanOfDivFree(m, nl, true, b, k, j, i); }
    if Row(m, nl, false, FaceOfRow(false, j)) { MeanOfDivFree(m, nl, false, b, k, j, i); }
  }

  // -- Coarse fluxes

  /** DerefinePoles conserves the X1 and X2 fluxes through the coarse faces of every derefined row, but
      for what it discards at a pole, and keeps the X3 faces between coarse cells. */
  lemma PolesConserve(m: Mesh, nl: int, ps: Poles, inner: bool, b: Field, k: int, jc: int, i: int)
    requires Apart(m, nl, ps) && InRow(m, nl, ps, inner, jc) && m.Ks() <= k <= m.Ke() && m.Is() <= i <= m.Ie()
    requires Fine(m, k, 2 * Half(m, nl, inner, FaceOfRow(inner, jc))) == 0
    ensures var d, j, len := AtPoles(m, nl, ps, b), FaceOfRow(inner, jc), 2 * Half(m, nl, inner, FaceOfRow(inner, jc));
            && Total(Weighted(d.x1, m.A1()), k, len, jc, i) == Total(Weighted(b.x1, m.A1()), k, len, jc, i)
            && Total(Weighted(d.x1, m.A1()), k, len, jc, i + 1) == Total(Weighted(b.x1, m.A1()), k, len, jc, i + 1)
            && (ps.Allow(inner) || j != PoleFace(m, inner) ==>
                  Total(Weighted(d.x2, m.A2()), k, len, j, i) == Total(Weighted(b.x2, m.A2()), k, len, j, i))
            && d.x3(k, jc, i) == b.x3(k, jc, i)
  {
    hide Total, Weighted, AtPoles, Derefined;
    var a, d, j := ps.Allow(inner), AtPoles(m, nl, ps, b), FaceOfRow(inner, jc);
    var len, p := 2 * Half(m, nl, inner, j), Derefined(m, nl, inner, a, b);
    AgreesAtPole(m, nl, ps, inner, b);
    SameTotal(p.x1, d.x1, m.A1(), k, len, jc, i);
    SameTotal(p.x1, d.x1, m.A1(), k, len, jc, i + 1);
    SameTotal(p.x2, d.x2, m.A2(), k, len, j, i);
    CoarseFlux1Conserved(m, nl, inner, a, b, k, jc, i);
    CoarseFlux1Conserved(m, nl, inner, a, b, k, jc, i + 1);
    if a || j != PoleFace(m, inner) { CoarseFlux2Conserved(m, nl, inner, a, b, k, j, i); }
    CoarseFlux3Kept(m, nl, inner, a, b, k, jc, i);
  }

  // -- What a derefined row holds, written out

  lemma {:induction false} TotalIsSum(s: Scalar, a: real, k0: int, n: nat, j: int, i: int)
    ensures Total(Weighted(s, a), k0, n, j, i) == Sum(Line(s, 3, 0, j, i), k0, n) * a
  {
    if n > 0 {
      TotalIsSum(s, a, k0, n - 1, j, i);
      assert Line(Weighted(s, a), 3, 0, j, i)(k0 + n - 1) == Line(s, 3, 0, j, i)(k0 + n - 1) * a;
    }
  }

  lemma MeanOfWeighted(x: real, mean: real, sum: real, a: real, len: real)
    requires a > 0.0 && len > 0.0 && x * a == mean && mean == sum * a / len
    ensures x * len == sum
  {
    assert mean * len == sum * a;
    assert (x * len - sum) * a == 0.0;
  }

  lemma OneRow1(m: Mesh, nl: int, inner: bool, allow: bool, b: Field, k: int, jc: int, i: int, len: nat)
    requires Fits(m, nl) && Row(m, nl, inner, FaceOfRow(inner, jc)) && m.Ks() <= k <= m.Ke()
             && m.Is() <= i <= m.Ie() + 1 && len == 2 * Half(m, nl, inner, FaceOfRow(inner, jc))
    ensures Derefined(m, nl, inner, allow, b).x1(k, jc, i) * len as real
            == Sum(Line(b.x1, 3, 0, jc, i), k - Fine(m, k, len), len)
  {
    hide Derefined, Total, Fine, Pow2, Sum;
    var x, k0, mean :=
      Derefined(m, nl, inner, allow, b).x1(k, jc, i), k - Fine(m, k, len),
      Mean1(m, nl, inner, b, k, FaceOfRow(inner, jc), i);
    NewFlux1(m, nl, inner, allow, b, k, jc, i);
    assert x * m.A1() == mean == Total(Weighted(b.x1, m.A1()), k0, len, jc, i) / len as real;
    TotalIsSum(b.x1, m.A1(), k0, len, jc, i);
    hide *;
    MeanOfWeighted(x, mean, Sum(Line(b.x1, 3, 0, jc, i), k0, len), m.A1(), len as real);
  }

  lemma OneRow2(m: Mesh, nl: int, inner: bool, allow: bool, b: Field, k: int, j: int, i: int, len: nat)
    requires Fits(m, nl) && Row(m, nl, inner, j) && m.Ks() <= k <= m.Ke() && m.Is() <= i <= m.Ie()
             && len == 2 * Half(m, nl, inner, j)
    ensures Derefined(m, nl, inner, allow, b).x2(k, j, i) * len as real
            == if !allow && j == PoleFace(m, inner) then 0.0
               else Sum(Line(b.x2, 3, 0, j, i), k - Fine(m, k, len), len)
  {
    hide Derefined, Total, Fine, Pow2, Sum;
    var x, k0, mean :=
      Derefined(m, nl, inner, allow, b).x2(k, j, i), k - Fine(m, k, len), Mean2(m, nl, inner, allow, b, k, j, i);
    NewFlux2(m, nl, inner, allow, b, k, j, i);
    var shut := !allow && j == PoleFace(m, inner);
    assert x * m.A2() == mean;
    assert mean == if shut then 0.0 else Total(Weighted(b.x2, m.A2()), k0, len, j, i) / len as real;
    TotalIsSum(b.x2, m.A2(), k0, len, j, i);
    hide *;
    MeanOfWeighted(x, mean, if shut then 0.0 else Sum(Line(b.x2, 3, 0, j, i), k0, len), m.A2(), len as real);
  }

  /** Net flux of a derefined zone, times the size of its coarse cell. */
  lemma RowNet(m: Mesh, nl: int, ps: Poles, inner: bool, b: Field, k: int, jc: int, i: int, len: nat)
    requires Apart(m, nl, ps) && InRow(m, nl, ps, inner, jc) && m.Interior(k, jc, i)
             && len == 2 * Half(m, nl, inner, FaceOfRow(inner, jc))
    ensures var j, k0 := FaceOfRow(inner, jc), k - Fine(m, k, len);
            Net(m, AtPoles(m, nl, ps, b), k, jc, i) * len as real
            == Sum(NetLine(m, b, jc, i), k0, len)
               + (if j == PoleFace(m, inner) && !ps.Allow(inner)
                  then Away(inner) as real * Total(Weighted(b.x2, m.A2()), k0, len, j, i) else 0.0)
  {
    hide Net, AtPoles, Total, Fine, Pow2, Sum, NetLine;
    var j, k0 := FaceOfRow(inner, jc), k - Fine(m, k, len);
    PolesNet(m, nl, ps, b, k, jc, i);
    LenTimesMean(Sum(NetLine(m, b, jc, i), k0, len), len);
    LenTimesMean(Total(Weighted(b.x2, m.A2()), k0, len, j, i), len);
  }

  lemma FluxesOfRow(m: Mesh, nl: int, ps: Poles, inner: bool, b: Field, k: int, jc: int, i: int, len: nat)
    requires Apart(m, nl, ps) && InRow(m, nl, ps, inner, jc) && m.Ks() <= k <= m.Ke() && m.Is() <= i <= m.Ie() + 1
             && len == 2 * Half(m, nl, inner, FaceOfRow(inner, jc))
    ensures var d, j, k0 := AtPoles(m, nl, ps, b), FaceOfRow(inner, jc), k - Fine(m, k, len);
            && d.x1(k, jc, i) * len as real == Sum(Line(b.x1, 3, 0, jc, i), k0, len)
            && (i <= m.Ie() ==> d.x2(k, j, i) * len as real
                                == (if !ps.Allow(inner) && j == PoleFace(m, inner) then 0.0
                                    else Sum(Line(b.x2, 3, 0, j, i), k0, len)))
  {
    hide Derefined, AtPoles, Fine, Pow2, Sum;
    var a, j := ps.Allow(inner), FaceOfRow(inner, jc);
    var p, d := Derefined(m, nl, inner, a, b), AtPoles(m, nl, ps, b);
    AgreesAtPole(m, nl, ps, inner, b);
    assert p.x1(k, jc, i) == d.x1(k, jc, i) && p.x2(k, j, i) == d.x2(k, j, i);
    OneRow1(m, nl, inner, a, b, k, jc, i, len);
    if i <= m.Ie() { OneRow2(m, nl, inner, a, b, k, j, i, len); }
    hide *;
  }

  lemma EndsOfRow(m: Mesh, nl: int, ps: Poles, inner: bool, b: Field, k: int, jc: int, i: int, len: nat)
    requires Apart(m, nl, ps) && InRow(m, nl, ps, inner, jc) && m.Ks() <= k <= m.Ke()
             && len == 2 * Half(m, nl, inner, FaceOfRow(inner, jc))
    ensures var d, k0 := AtPoles(m, nl, ps, b), k - Fine(m, k, len);
            d.x3(k0, jc, i) == b.x3(k0, jc, i) && d.x3(k0 + len, jc, i) == b.x3(k0 + len, jc, i)
  {
    hide Derefined, AtPoles, Fine, Pow2;
    var a, j, k0 := ps.Allow(inner), FaceOfRow(inner, jc), k - Fine(m, k, len);
    AgreesAtPole(m, nl, ps, inner, b);
    CellEnds(m, nl, inner, j, k);
    CoarseFlux3Kept(m, nl, inner, a, b, k0, jc, i);
    CoarseFlux3Kept(m, nl, inner, a, b, k0 + len, jc, i);
  }

  lemma CellEnds(m: Mesh, nl: int, inner: bool, j: int, k: int)
    requires Fits(m, nl) && Row(m, nl, inner, j) && m.Ks() <= k <= m.Ke()
    ensures var len := 2 * Half(m, nl, inner, j); var k0 := k - Fine(m, k, len);
            Fine(m, k0, len) == 0 && Fine(m, k0 + len, len) == 0
  {
    var len := 2 * Half(m, nl, inner, j);
    var k0 := k - Fine(m, k, len);
    CellStart(m, len, k);
    DivMod(k0 - m.ng, len);
    RemainderIs(k0 + len - m.ng, len, (k0 - m.ng) / len + 1, 0);
  }

  function Times(x: real, n: nat): real { x * n as real }

  /** `d` holds in zone (k, jc, i) what a coarse cell of the `len` zones from `k0` would carry of `b`: on X1
      faces the mean over the cell, on the X2 face `j` on the polar side too (or zero, where the pole is
      shut), on the X3 faces at the ends what they held, and on those between whatever makes every zone's
      net flux the mean over the cell, but for the polar flux shut out. */
  ghost predicate CarriesCell(m: Mesh, b: Field, d: Field, inner: bool, shut: bool, k0: int, len: nat, k: int, jc: int,
                              j: int, i: int) {
    && Times(d.x1(k, jc, i), len) == Sum(Line(b.x1, 3, 0, jc, i), k0, len)
    && Times(d.x1(k, jc, i + 1), len) == Sum(Line(b.x1, 3, 0, jc, i + 1), k0, len)
    && Times(d.x2(k, j, i), len) == (if shut then 0.0 else Sum(Line(b.x2, 3, 0, j, i), k0, len))
    && d.x3(k0, jc, i) == b.x3(k0, jc, i) && d.x3(k0 + len, jc, i) == b.x3(k0 + len, jc, i)
    && Times(Net(m, d, k, jc, i), len)
       == Sum(NetLine(m, b, jc, i), k0, len)
          + (if !shut then 0.0 else if inner then Total(Weighted(b.x2, m.A2()), k0, len, j, i)
             else -Total(Weighted(b.x2, m.A2()), k0, len, j, i))
  }

  /** The derefined rows in full, at either pole and after both passes: in row `l` from the inside of the
      `nl` next to the pole, coarse cells have 2^(l+1) zones. */
  lemma RowsHold(m: Mesh, nl: int, ps: Poles, inner: bool, b: Field, k: int, jc: int, i: int)
    requires Apart(m, nl, ps) && ps.At(inner) && m.Interior(k, jc, i)
    requires if inner then jc < m.Js() + nl else jc > m.Je() - nl
    ensures var l := if inner then m.Js() + nl - 1 - jc else jc - (m.Je() + 1 - nl);
            var j, len := if inner then jc else jc + 1, Pow2(l + 1);
            CarriesCell(m, b, AtPoles(m, nl, ps, b), inner,
                        !ps.Allow(inner) && j == (if inner then m.Js() else m.Je() + 1),
                        k - (k - m.ng) % len, len, k, jc, j, i)
  {
    hide *;
    var l := if inner then m.Js() + nl - 1 - jc else jc - (m.Je() + 1 - nl);
    var len: nat := Pow2(l + 1);
    RowNames(m, nl, ps, inner, k, jc, i, l, len);
    RowHolds(m, nl, ps, inner, b, k, jc, i, FaceOfRow(inner, jc), len);
  }

  lemma RowNames(m: Mesh, nl: int, ps: Poles, inner: bool, k: int, jc: int, i: int, l: int, len: nat)
    requires Apart(m, nl, ps) && ps.At(inner) && m.Interior(k, jc, i)
    requires if inner then jc < m.Js() + nl else jc > m.Je() - nl
    requires l == (if inner then m.Js() + nl - 1 - jc else jc - (m.Je() + 1 - nl)) && len == Pow2(l + 1)
    ensures var j := FaceOfRow(inner, jc);
            && j == (if inner then jc else jc + 1) && InRow(m, nl, ps, inner, jc)
            && len == 2 * Half(m, nl, inner, j) > 0 && Fine(m, k, len) == (k - m.ng) % len
            && PoleFace(m, inner) == (if inner then m.Js() else m.Je() + 1)
  {
  }

  lemma RowHolds(m: Mesh, nl: int, ps: Poles, inner: bool, b: Field, k: int, jc: int, i: int, j: int, len: nat)
    requires Apart(m, nl, ps) && InRow(m, nl, ps, inner, jc) && m.Interior(k, jc, i)
    requires j == FaceOfRow(inner, jc) && len == 2 * Half(m, nl, inner, j) > 0
    ensures CarriesCell(m, b, AtPoles(m, nl, ps, b), inner, !ps.Allow(inner) && j == PoleFace(m, inner),
                        k - Fine(m, k, len), len, k, jc, j, i)
  {
    hide Net, AtPoles, Sum, Total, Half, InRow, Apart, Fits, Row, Fine, Pow2;
    FluxesOfRow(m, nl, ps, inner, b, k, jc, i, len);
    FluxesOfRow(m, nl, ps, inner, b, k, jc, i + 1, len);
    EndsOfRow(m, nl, ps, inner, b, k, jc, i, len);
    RowNet(m, nl, ps, inner, b, k, jc, i, len);
  }

  // -- Zero divergence is not kept by every field

  /** A field of ones along X2 has no divergence anywhere, and does after derefinement at any pole of
      the block whose flux is discarded. */
  lemma UniformPolarFluxIsLost(m: Mesh, nl: int, ps: Poles, inner: bool)
    requires Apart(m, nl, ps) && ps.At(inner) && !ps.Allow(inner)
    ensures var b := AlongX2();
            DivFree(m, b) && !DivFree(m, AtPoles(m, nl, ps, b))
  {
    hide AtPoles;
    var b, j := AlongX2(), PoleFace(m, inner);
    var len, k, i := 2 * Half(m, nl, inner, j), m.Ks(), m.Is();
    assert DivFree(m, b);
    SumConst(Line(Weighted(b.x2, m.A2()), 3, 0, j, i), m.A2(), k - Fine(m, k, len), len);
    assert Total(Weighted(b.x2, m.A2()), k - Fine(m, k, len), len, j, i) == len as real * m.A2();
    assert Discarded(m, nl, inner, false, b, k, ZoneRow(inner, j), i) == m.A2();
    assert !NothingDiscarded(m, nl, inner, false, b);
    PolesDivFreeIff(m, nl, ps, b);
  }

  ghost function AlongX2(): Field { Zero().(x2 := (k, j, i) => 1.0) }
}
