/** The clean-up kernels on storage, and the whole clean-up around a solver. */
module CleanupKernels {
  import opened Grid
  import opened FaceCT
  import opened Cleanup

  /** InitializeD: D = 1 on the lower faces of every zone. */
  method InitializeD(d: FieldData)
    requires d.Valid()
    modifies d.Repr()
    ensures d.Valid() && d.contents == Initialised(d.m, old(d.contents))
  {
    ghost var t := Initialised(d.m, d.contents);
    var r := d.m.AllZones();
    ParFor(d.m, r, d.x1, (k, j, i) => 1.0, d.contents.x1, t.x1);
    ParFor(d.m, r, d.x2, (k, j, i) => 1.0, d.contents.x2, t.x2);
    ParFor(d.m, r, d.x3, (k, j, i) => 1.0, d.contents.x3, t.x3);
    d.contents := t;
  }

  /** CalculateFluxes: the lower face of every interior zone, and the upper face of the last. */
  method CalculateFluxes(d: FieldData, u: array3<real>, f: FieldData, ghost s: Scalar)
    requires d.Valid() && f.Valid() && d.m == f.m && Stores(d.m, u, s) && d.Repr() !! f.Repr() && f.Apart(u)
    modifies f.Repr()
    ensures f.Valid() && f.contents == Fluxed(f.m, d.contents, s, old(f.contents))
  {
    FluxKernel1(d.m, d.x1, u, f.x1, d.contents, s, f.contents);
    FluxKernel2(d.m, d.x2, u, f.x2, d.contents, s, f.contents);
    FluxKernel3(d.m, d.x3, u, f.x3, d.contents, s, f.contents);
    f.contents := Fluxed(f.m, d.contents, s, f.contents);
  }

  /** Interior zones, then the layer of faces after the last of them. */
  function Zones(m: Mesh): Box { Box(m.Ks(), m.Ke(), m.Js(), m.Je(), m.Is(), m.Ie()) }
  function LastFaces(m: Mesh, d: int): Box {
    Box(if d == 3 then m.Ke() + 1 else m.Ks(), if d == 3 then m.Ke() + 1 else m.Ke(),
        if d == 2 then m.Je() + 1 else m.Js(), if d == 2 then m.Je() + 1 else m.Je(),
        if d == 1 then m.Ie() + 1 else m.Is(), if d == 1 then m.Ie() + 1 else m.Ie())
  }

  method FluxLayer1(m: Mesh, r: Box, d: array3<real>, u: array3<real>, f: array3<real>, ghost ds: Field,
                    ghost s: Scalar, ghost was: Scalar, ghost t: Scalar)
    requires m.Ok() && Stores(m, d, ds.x1) && Stores(m, u, s) && Stores(m, f, was) && f != d && f != u
    requires r == Zones(m) || r == LastFaces(m, 1)
    requires forall k, j, i {:trigger t(k, j, i)} ::
             t(k, j, i) == if r.Has(k, j, i) then Flux1At(m, ds, s, k, j, i) else was(k, j, i)
    modifies f
    ensures Stores(m, f, t)
  {
    hide FaceFlux1;
    ParFor(m, r, f, (k, j, i) requires r.Has(k, j, i) reads d, u =>
           FaceFlux1(d[k, j, i], m.dx1, u[k, j, i - 1], u[k, j, i]), was, t);
  }

  method FluxKernel1(m: Mesh, d: array3<real>, u: array3<real>, f: array3<real>, ghost ds: Field, ghost s: Scalar,
                     ghost fs: Field)
    requires m.Ok() && Stores(m, d, ds.x1) && Stores(m, u, s) && Stores(m, f, fs.x1) && f != d && f != u
    modifies f
    ensures Stores(m, f, Fluxed(m, ds, s, fs).x1)
  {
    hide FaceFlux1, Stores;
    ghost var t := Fluxed(m, ds, s, fs).x1;
    assert forall k, j, i {:trigger t(k, j, i)} ::
           t(k, j, i) == if m.FaceRange(1).Has(k, j, i) then Flux1At(m, ds, s, k, j, i) else fs.x1(k, j, i);
    hide Fluxed, Flux1At;
    ghost var mid: Scalar := (k, j, i) => if Zones(m).Has(k, j, i) then t(k, j, i) else fs.x1(k, j, i);
    assert forall k, j, i {:trigger mid(k, j, i)} ::
           mid(k, j, i) == if Zones(m).Has(k, j, i) then t(k, j, i) else fs.x1(k, j, i);
    FluxLayer1(m, Zones(m), d, u, f, ds, s, fs.x1, mid);
    FluxLayer1(m, LastFaces(m, 1), d, u, f, ds, s, mid, t);
  }

  method FluxLayer2(m: Mesh, r: Box, d: array3<real>, u: array3<real>, f: array3<real>, ghost ds: Field,
                    ghost s: Scalar, ghost was: Scalar, ghost t: Scalar)
    requires m.Ok() && Stores(m, d, ds.x2) && Stores(m, u, s) && Stores(m, f, was) && f != d && f != u
    requires r == Zones(m) || r == LastFaces(m, 2)
    requires forall k, j, i {:trigger t(k, j, i)} ::
             t(k, j, i) == if r.Has(k, j, i) then Flux2At(m, ds, s, k, j, i) else was(k, j, i)
    modifies f
    ensures Stores(m, f, t)
  {
    hide FaceFlux;
    ParFor(m, r, f, (k, j, i) requires r.Has(k, j, i) reads d, u =>
           FaceFlux(d[k, j, i], m.dx2, u[k, j - 1, i], u[k, j, i]), was, t);
  }

  method FluxKernel2(m: Mesh, d: array3<real>, u: array3<real>, f: array3<real>, ghost ds: Field, ghost s: Scalar,
                     ghost fs: Field)
    requires m.Ok() && Stores(m, d, ds.x2) && Stores(m, u, s) && Stores(m, f, fs.x2) && f != d && f != u
    modifies f
    ensures Stores(m, f, Fluxed(m, ds, s, fs).x2)
  {
    hide FaceFlux, Stores;
    ghost var t := Fluxed(m, ds, s, fs).x2;
    assert forall k, j, i {:trigger t(k, j, i)} ::
           t(k, j, i) == if m.FaceRange(2).Has(k, j, i) then Flux2At(m, ds, s, k, j, i) else fs.x2(k, j, i);
    hide Fluxed, Flux2At;
    ghost var mid: Scalar := (k, j, i) => if Zones(m).Has(k, j, i) then t(k, j, i) else fs.x2(k, j, i);
    assert forall k, j, i {:trigger mid(k, j, i)} ::
           mid(k, j, i) == if Zones(m).Has(k, j, i) then t(k, j, i) else fs.x2(k, j, i);
    FluxLayer2(m, Zones(m), d, u, f, ds, s, fs.x2, mid);
    FluxLayer2(m, LastFaces(m, 2), d, u, f, ds, s, mid, t);
  }

  method FluxLayer3(m: Mesh, r: Box, d: array3<real>, u: array3<real>, f: array3<real>, ghost ds: Field,
                    ghost s: Scalar, ghost was: Scalar, ghost t: Scalar)
    requires m.Ok() && Stores(m, d, ds.x3) && Stores(m, u, s) && Stores(m, f, was) && f != d && f != u && m.ndim > 2
    requires r == Zones(m) || r == LastFaces(m, 3)
    requires forall k, j, i {:trigger t(k, j, i)} ::
             t(k, j, i) == if r.Has(k, j, i) then Flux3At(m, ds, s, k, j, i) else was(k, j, i)
    modifies f
    ensures Stores(m, f, t)
  {
    hide FaceFlux;
    ParFor(m, r, f, (k, j, i) requires r.Has(k, j, i) reads d, u =>
           FaceFlux(d[k, j, i], m.dx3, u[k - 1, j, i], u[k, j, i]), was, t);
  }

  method FluxKernel3(m: Mesh, d: array3<real>, u: array3<real>, f: array3<real>, ghost ds: Field, ghost s: Scalar,
                     ghost fs: Field)
    requires m.Ok() && Stores(m, d, ds.x3) && Stores(m, u, s) && Stores(m, f, fs.x3) && f != d && f != u
    modifies f
    ensures Stores(m, f, Fluxed(m, ds, s, fs).x3)
  {
    hide FaceFlux, Stores;
    ghost var t := Fluxed(m, ds, s, fs).x3;
    assert forall k, j, i {:trigger t(k, j, i)} ::
           t(k, j, i) == if m.ndim > 2 && m.FaceRange(3).Has(k, j, i) then Flux3At(m, ds, s, k, j, i)
           else fs.x3(k, j, i);
    hide Fluxed, Flux3At;
    ghost var mid: Scalar := (k, j, i) => if Zones(m).Has(k, j, i) then t(k, j, i) else fs.x3(k, j, i);
    assert forall k, j, i {:trigger mid(k, j, i)} ::
           mid(k, j, i) == if Zones(m).Has(k, j, i) then t(k, j, i) else fs.x3(k, j, i);
    if m.ndim > 2 {
      FluxLayer3(m, Zones(m), d, u, f, ds, s, fs.x3, mid);
      FluxLayer3(m, LastFaces(m, 3), d, u, f, ds, s, mid, t);
    } else {
      SameStored(m, f, fs.x3, t);
    }
  }

  /** FluxMultiplyMatrix. */
  method FluxMultiplyMatrix(alpha: real, u: array3<real>, f: FieldData, out: array3<real>, ghost s: Scalar,
                            ghost o: Scalar)
    requires f.Valid() && Stores(f.m, u, s) && Stores(f.m, out, o) && f.Apart(out) && out != u
    modifies out
    ensures Stores(f.m, out, Multiplied(f.m, alpha, s, f.contents, o))
  {
    hide Multiply;
    var m, r, f1, f2, f3 := f.m, Zones(f.m), f.x1, f.x2, f.x3;
    ghost var c, t := f.contents, Multiplied(f.m, alpha, s, f.contents, o);
    assert forall k, j, i {:trigger t(k, j, i)} ::
           t(k, j, i) == if r.Has(k, j, i) then MultiplyAt(m, alpha, s, c, k, j, i) else o(k, j, i);
    hide Multiplied;
    ParFor(m, r, out,
           (k, j, i) requires r.Has(k, j, i) reads u, f1, f2, f3 =>
             Multiply(m, alpha, u[k, j, i], f1[k, j, i], f1[k, j, i + 1], f2[k, j, i], f2[k, j + 1, i],
                      f3[k, j, i], if m.ndim > 2 then f3[k + 1, j, i] else 0.0),
           o, t);
  }

  /** The matrix-free product the solvers use: fluxes, then their divergence. */
  method Ax(alpha: real, d: FieldData, u: array3<real>, f: FieldData, out: array3<real>, ghost s: Scalar,
            ghost o: Scalar)
    requires d.Valid() && f.Valid() && d.m == f.m && Stores(d.m, u, s) && Stores(d.m, out, o)
    requires d.Repr() !! f.Repr() && f.Apart(u) && f.Apart(out) && d.Apart(out) && out != u
    modifies f.Repr(), out
    ensures d.Valid() && d.contents == old(d.contents)
    ensures forall k, j, i | d.m.Interior(k, j, i) :: At(d.m, out, k, j, i) == A(d.m, alpha, d.contents, s, k, j, i)
  {
    hide Multiplied, Fluxed, A;
    ghost var f0 := f.contents;
    CalculateFluxes(d, u, f, s);
    FluxMultiplyMatrix(alpha, u, f, out, s, o);
    forall k, j, i | d.m.Interior(k, j, i) ensures At(d.m, out, k, j, i) == A(d.m, alpha, d.contents, s, k, j, i) {
      KernelsApplyA(d.m, alpha, d.contents, s, f0, o, k, j, i);
    }
  }

  /** Entry of an array at an interior zone. */
  ghost function At(m: Mesh, a: array3<real>, k: int, j: int, i: int): real
    requires m.Ok() && m.Interior(k, j, i) && a.Length0 == m.M3() && a.Length1 == m.M2() && a.Length2 == m.M1()
    reads a
  {
    a[k, j, i]
  }

  /** SetDiagonal. */
  method SetDiagonal(alpha: real, d: FieldData, diag: array3<real>, ghost s: Scalar, ghost t: Scalar)
    requires d.Valid() && Stores(d.m, diag, s) && d.Apart(diag)
    requires forall k, j, i {:trigger t(k, j, i)} ::
             t(k, j, i) == if Zones(d.m).Has(k, j, i) then Diagonal(d.m, alpha, d.contents, k, j, i) else s(k, j, i)
    modifies diag
    ensures Stores(d.m, diag, t)
  {
    hide Both, InverseDx2;
    var m, r, d1, d2, d3 := d.m, Zones(d.m), d.x1, d.x2, d.x3;
    FlatBoth(m);
    ParFor(m, r, diag,
           (k, j, i) requires r.Has(k, j, i) reads d1, d2, d3 =>
             -alpha - Both(InverseDx2(m, 1), d1[k, j, i], d1[k, j, i + 1])
                 - Both(InverseDx2(m, 2), d2[k, j, i], d2[k, j + 1, i])
             - if m.ndim > 2 then Both(InverseDx2(m, 3), d3[k, j, i], d3[k + 1, j, i]) else 0.0,
           s, t);
  }

  lemma FlatBoth(m: Mesh)
    requires m.Ok()
    ensures m.ndim == 2 ==> forall d, d' :: Both(InverseDx2(m, 3), d, d') == 0.0
  {
  }

  function Divergences(m: Mesh, b: Field, s: Scalar): Scalar
    requires m.Ok()
  {
    (k, j, i) => if m.Interior(k, j, i) then FaceDiv(m, b, k, j, i) else s(k, j, i)
  }

  /** CalcDivB: the right-hand side. */
  method CalcDivB(b: FieldData, rhs: array3<real>, ghost s: Scalar)
    requires b.Valid() && Stores(b.m, rhs, s) && b.Apart(rhs)
    modifies rhs
    ensures Stores(b.m, rhs, Divergences(b.m, b.contents, s))
  {
    hide DivOf;
    var m, r, b1, b2, b3 := b.m, Zones(b.m), b.x1, b.x2, b.x3;
    ghost var c, t := b.contents, Divergences(b.m, b.contents, s);
    assert forall k, j, i {:trigger t(k, j, i)} ::
           t(k, j, i) == if r.Has(k, j, i) then FaceDiv(m, c, k, j, i) else s(k, j, i);
    hide Divergences;
    ParFor(m, r, rhs,
           (k, j, i) requires r.Has(k, j, i) reads b1, b2, b3 =>
             DivOf(m, b1[k, j, i + 1], b1[k, j, i], b2[k, j + 1, i], b2[k, j, i],
                   if m.ndim > 2 then b3[k + 1, j, i] else 0.0, b3[k, j, i]),
           s, t);
  }

  method CorrectFaces(m: Mesh, dir: int, u: array3<real>, b: array3<real>, ghost s: Scalar, ghost bs: Scalar,
                      ghost t: Scalar)
    requires m.Ok() && 1 <= dir <= m.ndim && Stores(m, u, s) && Stores(m, b, bs) && u != b
    requires forall k, j, i {:trigger t(k, j, i)} ::
             t(k, j, i) == if CorrectedRange(m).Has(k, j, i) then bs(k, j, i) - FaceGrad(m, s, dir, k, j, i)
             else bs(k, j, i)
    modifies b
    ensures Stores(m, b, t)
  {
    hide Slope;
    var r := CorrectedRange(m);
    var dx := if dir == 1 then m.dx1 else if dir == 2 then m.dx2 else m.dx3;
    var nk, nj, ni := if dir == 3 then 1 else 0, if dir == 2 then 1 else 0, if dir == 1 then 1 else 0;
    ParFor(m, r, b, (k, j, i) requires r.Has(k, j, i) reads u, b =>
           b[k, j, i] - Slope(u[k, j, i], u[k - nk, j - nj, i - ni], dx), bs, t);
  }

  /** ApplySolution: the gradient is subtracted in place. */
  method ApplySolution(u: array3<real>, b: FieldData, ghost s: Scalar)
    requires b.Valid() && Stores(b.m, u, s) && b.Apart(u)
    modifies b.Repr()
    ensures b.Valid() && b.contents == Corrected(b.m, s, old(b.contents))
  {
    hide Stores, FaceGrad;
    ghost var c, t := b.contents, Corrected(b.m, s, b.contents);
    var m, r := b.m, CorrectedRange(b.m);
    assert forall k, j, i {:trigger t.x1(k, j, i)} ::
           t.x1(k, j, i) == if r.Has(k, j, i) then c.x1(k, j, i) - FaceGrad(m, s, 1, k, j, i) else c.x1(k, j, i);
    assert forall k, j, i {:trigger t.x2(k, j, i)} ::
           t.x2(k, j, i) == if r.Has(k, j, i) then c.x2(k, j, i) - FaceGrad(m, s, 2, k, j, i) else c.x2(k, j, i);
    assert forall k, j, i {:trigger t.x3(k, j, i)} ::
           t.x3(k, j, i) == if m.ndim > 2 && r.Has(k, j, i) then c.x3(k, j, i) - FaceGrad(m, s, 3, k, j, i)
           else c.x3(k, j, i);
    hide Corrected;
    CorrectFaces(m, 1, u, b.x1, s, c.x1, t.x1);
    CorrectFaces(m, 2, u, b.x2, s, c.x2, t.x2);
    if m.ndim > 2 { CorrectFaces(m, 3, u, b.x3, s, c.x3, t.x3); } else { SameStored(m, b.x3, c.x3, t.x3); }
    b.contents := t;
  }

  /** The clean-up once a solver has answered: whatever `u` it returned, the divergence left in each
      interior zone is the residual rhs - A u less alpha u. */
  method FinishCleanup(alpha: real, d: FieldData, u: array3<real>, b: FieldData, ghost s: Scalar, ghost stale: Field)
    requires b.Valid() && d.Valid() && d.m == b.m && d.contents == Initialised(d.m, stale) && Stores(b.m, u, s)
             && b.Apart(u)
    modifies b.Repr()
    ensures b.Valid()
    ensures forall k, j, i | b.m.Interior(k, j, i) ::
              FaceDiv(b.m, b.contents, k, j, i)
              == old(FaceDiv(b.m, b.contents, k, j, i)) - old(A(b.m, alpha, d.contents, s, k, j, i))
              + Damp(alpha, s(k, j, i))
    ensures alpha == 0.0
            && (forall k, j, i | b.m.Interior(k, j, i) ::
                old(A(b.m, alpha, d.contents, s, k, j, i)) == old(FaceDiv(b.m, b.contents, k, j, i)))
            ==> DivFree(b.m, b.contents)
  {
    hide A, FaceDiv, Corrected, Stores, Initialised, Diagonal;
    ghost var c := b.contents;
    ApplySolution(u, b, s);
    forall k, j, i | b.m.Interior(k, j, i)
      ensures FaceDiv(b.m, b.contents, k, j, i)
           == FaceDiv(b.m, c, k, j, i) - A(b.m, alpha, Initialised(d.m, stale), s, k, j, i) + Damp(alpha, s(k, j, i))
    {
      InitialisedIsOne(b.m, alpha, stale, s, k, j, i);
      DivergenceLeft(b.m, alpha, s, c, k, j, i);
    }
  }
}
