/** CalculateEMF on storage: one pass for the averages, one in place for the correction. */
module EmfKernels {
  import opened Grid
  import opened BoundaryEMF
  import opened FluxKernels
  import opened Emf
  import opened CentredEMF
  import opened FourVectors
  import FluxCT

  /** The box and its neighbours a step back along `a`, `b` and both are stored. */
  predicate Stored(m: Mesh, r: Box, a: Shift, b: Shift) {
    && a.k >= 0 && a.j >= 0 && a.i >= 0 && b.k >= 0 && b.j >= 0 && b.i >= 0
    && a.k + b.k <= r.ks && a.j + b.j <= r.js && a.i + b.i <= r.iS && r.ke < m.M3() && r.je < m.M2() && r.iE < m.M1()
  }

  function Both(a: Shift, b: Shift): Shift { Shift(a.k + b.k, a.j + b.j, a.i + b.i) }

  function Steps(s: Scalar, a: Shift, k: int, j: int, i: int): real { s(k - a.k, j - a.j, i - a.i) }

  /** Circulation of the fluxes `p` (stepping along `b`) and `r` (along `a`). */
  method CircKernel(m: Mesh, box: Box, a: Shift, b: Shift, p: array3<real>, r: array3<real>, e: array3<real>,
                    ghost p0: Scalar, ghost r0: Scalar, ghost s: Scalar, ghost t: Scalar)
    requires m.Ok() && Stored(m, box, a, b) && Stores(m, p, p0) && Stores(m, r, r0) && Stores(m, e, s) && e != p
             && e != r
    requires forall k, j, i {:trigger t(k, j, i)} ::
               t(k, j, i) == if box.Has(k, j, i)
                             then Circ(Steps(p0, b, k, j, i), p0(k, j, i), Steps(r0, a, k, j, i), r0(k, j, i))
                             else s(k, j, i)
    modifies e
    ensures Stores(m, e, t)
  {
    hide Circ;
    var ak, aj, ai, bk, bj, bi := a.k, a.j, a.i, b.k, b.j, b.i;
    ParFor(m, box, e,
           (k, j, i) requires box.Has(k, j, i) reads p, r =>
             Circ(p[k - bk, j - bj, i - bi], p[k, j, i], r[k - ak, j - aj, i - ai], r[k, j, i]),
           s, t);
  }

  /** Twice the EMF less the mean of the centred one, in place. */
  method CentredKernel(m: Mesh, box: Box, a: Shift, b: Shift, z: array3<real>, e: array3<real>, ghost z0: Scalar,
                       ghost s: Scalar, ghost t: Scalar)
    requires m.Ok() && Stored(m, box, a, b) && Stores(m, z, z0) && Stores(m, e, s) && e != z
    requires forall k, j, i {:trigger t(k, j, i)} ::
               t(k, j, i) == if box.Has(k, j, i)
                             then LessCentred(s(k, j, i), z0(k, j, i), Steps(z0, a, k, j, i), Steps(z0, b, k, j, i),
                                              Steps(z0, Both(a, b), k, j, i))
                             else s(k, j, i)
    modifies e
    ensures Stores(m, e, t)
  {
    forall k, j, i | box.Has(k, j, i)
      ensures Centred(a, b, z, e, k, j, i) == t(k, j, i)
    {
      InBox(m, box, a, b);
      PeekIs(m, z, z0); PeekIs(m, e, s);
    }
    hide LessCentred, Centred, Steps;
    ParFor(m, box, e, (k, j, i) requires box.Has(k, j, i) reads z, e => Centred(a, b, z, e, k, j, i), s, t);
  }

  /** The value the kernel gives one edge. */
  function Centred(a: Shift, b: Shift, z: array3<real>, e: array3<real>, k: int, j: int, i: int): real
    reads z, e
  {
    LessCentred(Peek(e, k, j, i), Peek(z, k, j, i), Peek(z, k - a.k, j - a.j, i - a.i),
                Peek(z, k - b.k, j - b.j, i - b.i),
                Peek(z, k - Both(a, b).k, j - Both(a, b).j, i - Both(a, b).i))
  }

  /** The upwinded gradients added in place; `ra` and `rb` are the mass fluxes along `a` and `b`. */
  method ContactKernel(m: Mesh, box: Box, a: Shift, b: Shift, p: array3<real>, r: array3<real>, z: array3<real>,
                       ra: array3<real>, rb: array3<real>, e: array3<real>,
                       ghost p0: Scalar, ghost r0: Scalar, ghost z0: Scalar, ghost ra0: Scalar, ghost rb0: Scalar,
                       ghost s: Scalar, ghost t: Scalar)
    requires m.Ok() && Stored(m, box, a, b) && e != p && e != r && e != z && e != ra && e != rb
    requires Stores(m, p, p0) && Stores(m, r, r0) && Stores(m, z, z0) && Stores(m, ra, ra0) && Stores(m, rb, rb0)
             && Stores(m, e, s)
    requires forall k, j, i {:trigger t(k, j, i)} ::
               t(k, j, i) == if box.Has(k, j, i)
                             then Upwinded(s(k, j, i), Steps(p0, b, k, j, i), p0(k, j, i), Steps(r0, a, k, j, i),
                                           r0(k, j, i),
                                           z0(k, j, i), Steps(z0, a, k, j, i), Steps(z0, b, k, j, i),
                                           Steps(z0, Both(a, b), k, j, i),
                                           Steps(ra0, b, k, j, i), ra0(k, j, i), Steps(rb0, a, k, j, i), rb0(k, j, i))
                             else s(k, j, i)
    modifies e
    ensures Stores(m, e, t)
  {
    forall k, j, i | box.Has(k, j, i)
      ensures Contact(a, b, p, r, z, ra, rb, e, k, j, i) == t(k, j, i)
    {
      ContactIs(m, box, a, b, p, r, z, ra, rb, e, p0, r0, z0, ra0, rb0, s, k, j, i);
    }
    hide Upwinded, Contact, Steps;
    ParFor(m, box, e,
           (k, j, i) requires box.Has(k, j, i) reads p, r, z, ra, rb, e =>
               Contact(a, b, p, r, z, ra, rb, e, k, j, i), s, t);
  }

  /** The value the kernel gives one edge. */
  function Contact(a: Shift, b: Shift, p: array3<real>, r: array3<real>, z: array3<real>, ra: array3<real>,
                   rb: array3<real>, e: array3<real>, k: int, j: int, i: int): real
    reads p, r, z, ra, rb, e
  {
    Upwinded(Peek(e, k, j, i), Peek(p, k - b.k, j - b.j, i - b.i), Peek(p, k, j, i), Peek(r, k - a.k, j - a.j, i - a.i),
             Peek(r, k, j, i),
             Peek(z, k, j, i), Peek(z, k - a.k, j - a.j, i - a.i), Peek(z, k - b.k, j - b.j, i - b.i),
             Peek(z, k - Both(a, b).k, j - Both(a, b).j, i - Both(a, b).i),
             Peek(ra, k - b.k, j - b.j, i - b.i), Peek(ra, k, j, i), Peek(rb, k - a.k, j - a.j, i - a.i),
             Peek(rb, k, j, i))
  }

  lemma ContactIs(m: Mesh, box: Box, a: Shift, b: Shift, p: array3<real>, r: array3<real>, z: array3<real>,
                  ra: array3<real>, rb: array3<real>, e: array3<real>,
                  p0: Scalar, r0: Scalar, z0: Scalar, ra0: Scalar, rb0: Scalar, s: Scalar, k: int, j: int, i: int)
    requires m.Ok() && Stored(m, box, a, b) && box.Has(k, j, i)
    requires Stores(m, p, p0) && Stores(m, r, r0) && Stores(m, z, z0) && Stores(m, ra, ra0) && Stores(m, rb, rb0)
             && Stores(m, e, s)
    ensures Contact(a, b, p, r, z, ra, rb, e, k, j, i)
         == Upwinded(s(k, j, i), Steps(p0, b, k, j, i), p0(k, j, i), Steps(r0, a, k, j, i), r0(k, j, i),
                     z0(k, j, i), Steps(z0, a, k, j, i), Steps(z0, b, k, j, i), Steps(z0, Both(a, b), k, j, i),
                     Steps(ra0, b, k, j, i), ra0(k, j, i), Steps(rb0, a, k, j, i), rb0(k, j, i))
  {
  }

  lemma InBox(m: Mesh, r: Box, a: Shift, b: Shift)
    requires m.Ok() && Stored(m, r, a, b)
    ensures forall k, j, i {:trigger r.Has(k, j, i)} | r.Has(k, j, i) ::
              && m.InBounds(k, j, i) && m.InBounds(k - a.k, j - a.j, i - a.i) && m.InBounds(k - b.k, j - b.j, i - b.i)
              && m.InBounds(k - Both(a, b).k, j - Both(a, b).j, i - Both(a, b).i)
  {
  }

  lemma BackIsStep(s: Scalar, d: int, e: int, k: int, j: int, i: int)
    ensures Back(s, d, k, j, i) == Steps(s, Unit(d), k, j, i)
    ensures d != e ==> Back2(s, d, e, k, j, i) == Steps(s, Both(Unit(d), Unit(e)), k, j, i)
  {
  }

  function BaseField(m: Mesh, q: FluxCT.Fluxes, c: int, s: Scalar): Scalar {
    (k, j, i) => if FluxCT.EdgeBox(m).Has(k, j, i) then BaseAt(m, q, c, k, j, i) else s(k, j, i)
  }

  /** The first pass for the edges along `c`, given the arrays of the fluxes around them. */
  method BasePass(m: Mesh, c: int, p: array3<real>, r: array3<real>, e: array3<real>, ghost q: FluxCT.Fluxes,
                  ghost s: Scalar)
    requires m.Ok() && 1 <= c <= 3 && e != p && e != r
    requires Stores(m, p, Flux(q, A(c), B(c))) && Stores(m, r, Flux(q, B(c), A(c))) && Stores(m, e, s)
    modifies e
    ensures Stores(m, e, BaseField(m, q, c, s))
  {
    var box := FluxCT.EdgeBox(m);
    ghost var t := BaseField(m, q, c, s);
    if m.ndim == 2 && c != 3 {
      assert forall k, j, i {:trigger t(k, j, i)} ::
             t(k, j, i) == if box.Has(k, j, i) then BaseAt(m, q, c, k, j, i) else s(k, j, i);
      hide BaseField;
      if c == 1 {
        ParFor(m, box, e, (k, j, i) requires box.Has(k, j, i) reads p => -p[k, j, i], s, t);
      } else {
        ParFor(m, box, e, (k, j, i) requires box.Has(k, j, i) reads r => r[k, j, i], s, t);
      }
    } else {
      BasePointwise(m, c, q, s);
      hide BaseField, Flux, A, B, Stores;
      assert Stored(m, box, Unit(A(c)), Unit(B(c))) by { EdgesAreStored(m, c); }
      CircKernel(m, box, Unit(A(c)), Unit(B(c)), p, r, e, Flux(q, A(c), B(c)), Flux(q, B(c), A(c)), s, t);
    }
  }

  lemma EdgesAreStored(m: Mesh, c: int)
    requires m.Ok() && 1 <= c <= 3 && (m.ndim == 2 ==> c == 3)
    ensures Stored(m, FluxCT.EdgeBox(m), Unit(A(c)), Unit(B(c)))
  {
  }

  lemma BasePointwise(m: Mesh, c: int, q: FluxCT.Fluxes, s: Scalar)
    requires m.Ok() && 1 <= c <= 3 && (m.ndim == 2 ==> c == 3)
    ensures var t, a, b, p0, r0 :=
            BaseField(m, q, c, s), Unit(A(c)), Unit(B(c)), Flux(q, A(c), B(c)), Flux(q, B(c), A(c));
            forall k, j, i {:trigger t(k, j, i)} ::
              t(k, j, i) == if FluxCT.EdgeBox(m).Has(k, j, i)
                            then Circ(Steps(p0, b, k, j, i), p0(k, j, i), Steps(r0, a, k, j, i), r0(k, j, i))
                            else s(k, j, i)
  {
    hide Circ, Flux, A, B, Back, Steps;
    forall k, j, i
      ensures BaseAt(m, q, c, k, j, i)
              == Circ(Steps(Flux(q, A(c), B(c)), Unit(B(c)), k, j, i), Flux(q, A(c), B(c))(k, j, i),
                                               Steps(Flux(q, B(c), A(c)), Unit(A(c)), k, j, i),
                                               Flux(q, B(c), A(c))(k, j, i))
    {
      BackIsStep(Flux(q, A(c), B(c)), B(c), A(c), k, j, i);
      BackIsStep(Flux(q, B(c), A(c)), A(c), B(c), k, j, i);
    }
  }

  /** The second pass for the edges along `c`, in place. */
  function CorrectedField(m: Mesh, scheme: Scheme, q: FluxCT.Fluxes, cemf: Field, rho: Field, c: int,
                          s: Scalar): Scalar {
    (k, j, i) =>
        if FluxCT.EdgeBox(m).Has(k, j, i) then CorrectedAt(m, scheme, s(k, j, i), q, cemf, rho, c, k, j, i)
        else s(k, j, i)
  }

  method CentredPass(m: Mesh, c: int, z: array3<real>, e: array3<real>, ghost q: FluxCT.Fluxes, ghost cemf: Field,
                     ghost rho: Field, ghost s: Scalar)
    requires m.Ok() && 1 <= c <= 3 && (m.ndim == 2 ==> c == 3) && e != z && Stores(m, z, Component(cemf, c))
             && Stores(m, e, s)
    modifies e
    ensures Stores(m, e, CorrectedField(m, GS05Zero, q, cemf, rho, c, s))
  {
    EdgesAreStored(m, c);
    CentredPointwise(m, q, cemf, rho, c, s);
    hide CorrectedField, Component, A, B, Stores, Unit, Stored;
    CentredKernel(m, FluxCT.EdgeBox(m), Unit(A(c)), Unit(B(c)), z, e, Component(cemf, c), s,
                  CorrectedField(m, GS05Zero, q, cemf, rho, c, s));
  }

  lemma CentredPointwise(m: Mesh, q: FluxCT.Fluxes, cemf: Field, rho: Field, c: int, s: Scalar)
    requires m.Ok() && 1 <= c <= 3 && (m.ndim == 2 ==> c == 3)
    ensures var t, a, b, z0 :=
            CorrectedField(m, GS05Zero, q, cemf, rho, c, s), Unit(A(c)), Unit(B(c)), Component(cemf, c);
            forall k, j, i {:trigger t(k, j, i)} ::
              t(k, j, i) == if FluxCT.EdgeBox(m).Has(k, j, i)
                            then LessCentred(s(k, j, i), z0(k, j, i), Steps(z0, a, k, j, i), Steps(z0, b, k, j, i),
                                             Steps(z0, Both(a, b), k, j, i))
                            else s(k, j, i)
  {
  }

  method ContactPass(m: Mesh, c: int, p: array3<real>, r: array3<real>, z: array3<real>, ra: array3<real>,
                     rb: array3<real>, e: array3<real>,
                     ghost q: FluxCT.Fluxes, ghost cemf: Field, ghost rho: Field, ghost s: Scalar)
    requires m.Ok() && 1 <= c <= 3 && (m.ndim == 2 ==> c == 3) && e != p && e != r && e != z && e != ra && e != rb
    requires Stores(m, p, Flux(q, A(c), B(c))) && Stores(m, r, Flux(q, B(c), A(c))) && Stores(m, z, Component(cemf, c))
    requires Stores(m, ra, Component(rho, A(c))) && Stores(m, rb, Component(rho, B(c))) && Stores(m, e, s)
    modifies e
    ensures Stores(m, e, CorrectedField(m, GS05C, q, cemf, rho, c, s))
  {
    EdgesAreStored(m, c);
    ContactPointwise(m, q, cemf, rho, c, s);
    hide CorrectedField, Component, Flux, A, B, Stores, Unit, Stored;
    ContactKernel(m, FluxCT.EdgeBox(m), Unit(A(c)), Unit(B(c)), p, r, z, ra, rb, e, Flux(q, A(c), B(c)),
                  Flux(q, B(c), A(c)), Component(cemf, c),
                  Component(rho, A(c)), Component(rho, B(c)), s, CorrectedField(m, GS05C, q, cemf, rho, c, s));
  }

  lemma ContactPointwise(m: Mesh, q: FluxCT.Fluxes, cemf: Field, rho: Field, c: int, s: Scalar)
    requires m.Ok() && 1 <= c <= 3 && (m.ndim == 2 ==> c == 3)
    ensures var t, a, b := CorrectedField(m, GS05C, q, cemf, rho, c, s), Unit(A(c)), Unit(B(c));
            var r0, p0, z0, ra0, rb0 :=
                Flux(q, B(c), A(c)), Flux(q, A(c), B(c)), Component(cemf, c), Component(rho, A(c)),
                Component(rho, B(c));
            forall k, j, i {:trigger t(k, j, i)} ::
              t(k, j, i) == if FluxCT.EdgeBox(m).Has(k, j, i)
                            then Upwinded(s(k, j, i), Steps(p0, b, k, j, i), p0(k, j, i), Steps(r0, a, k, j, i),
                                          r0(k, j, i),
                                          z0(k, j, i), Steps(z0, a, k, j, i), Steps(z0, b, k, j, i),
                                          Steps(z0, Both(a, b), k, j, i),
                                          Steps(ra0, b, k, j, i), ra0(k, j, i), Steps(rb0, a, k, j, i), rb0(k, j, i))
                            else s(k, j, i)
  {
  }

  lemma NothingToCorrect(m: Mesh, scheme: Scheme, q: FluxCT.Fluxes, cemf: Field, rho: Field, c: int, s: Scalar)
    requires scheme == BS99 || (m.ndim == 2 && c != 3)
    ensures forall k, j, i :: s(k, j, i) == CorrectedField(m, scheme, q, cemf, rho, c, s)(k, j, i)
  {
  }

  /** The correction of the edges along `c`, once the first pass is done. */
  method CorrectionPass(m: Mesh, scheme: Scheme, c: int, p: array3<real>, r: array3<real>, z: array3<real>,
                        ra: array3<real>,
                        rb: array3<real>, e: array3<real>, ghost q: FluxCT.Fluxes, ghost cemf: Field, ghost rho: Field,
                        ghost s: Scalar)
    requires m.Ok() && 1 <= c <= 3 && e != p && e != r && e != z && e != ra && e != rb
    requires Stores(m, p, Flux(q, A(c), B(c))) && Stores(m, r, Flux(q, B(c), A(c)))
             && (scheme != BS99 ==> Stores(m, z, Component(cemf, c)))
    requires Stores(m, ra, Component(rho, A(c))) && Stores(m, rb, Component(rho, B(c)))
             && Stores(m, e, BaseField(m, q, c, s))
    modifies e
    ensures Stores(m, e, EdgeComponent(m, scheme, q, cemf, rho, c, s))
  {
    hide CorrectedField, EdgeComponent, BaseField, Component, Flux, A, B, Stores;
    ghost var s' := BaseField(m, q, c, s);
    if scheme == BS99 || (m.ndim == 2 && c != 3) {
      NothingToCorrect(m, scheme, q, cemf, rho, c, s');
      SameStored(m, e, s', CorrectedField(m, scheme, q, cemf, rho, c, s'));
    } else if scheme == GS05Zero {
      CentredPass(m, c, z, e, q, cemf, rho, s');
    } else {
      ContactPass(m, c, p, r, z, ra, rb, e, q, cemf, rho, s');
    }
    TwoPasses(m, scheme, q, cemf, rho, c, s);
    SameStored(m, e, CorrectedField(m, scheme, q, cemf, rho, c, s'), EdgeComponent(m, scheme, q, cemf, rho, c, s));
  }

  lemma TwoPasses(m: Mesh, scheme: Scheme, q: FluxCT.Fluxes, cemf: Field, rho: Field, c: int, s: Scalar)
    ensures forall k, j, i ::
            CorrectedField(m, scheme, q, cemf, rho, c, BaseField(m, q, c, s))(k, j, i)
            == EdgeComponent(m, scheme, q, cemf, rho, c, s)(k, j, i)
  {
    hide BaseAt, CorrectedAt;
    forall k, j, i
      ensures EdgeAt(m, scheme, q, cemf, rho, c, k, j, i)
              == CorrectedAt(m, scheme, BaseAt(m, q, c, k, j, i), q, cemf, rho, c, k, j, i)
    {
    }
  }

  /** The EMF container after the first pass. */
  function BaseEMF(m: Mesh, q: FluxCT.Fluxes, s: Field): Field {
    Field(BaseField(m, q, 1, s.x1), BaseField(m, q, 2, s.x2), BaseField(m, q, 3, s.x3))
  }

  method BasePasses(q: FluxData, emf: FieldData)
    requires q.Valid() && emf.Valid() && q.f1.m == emf.m && emf.Repr() !! q.Repr()
    modifies emf.Repr()
    ensures emf.Valid() && emf.contents == BaseEMF(emf.m, q.Contents(), old(emf.contents))
  {
    hide BaseField, Stores;
    ghost var f, s := q.Contents(), emf.contents;
    BasePass(emf.m, 1, q.f2.x3, q.f3.x2, emf.x1, f, s.x1);
    BasePass(emf.m, 2, q.f3.x1, q.f1.x3, emf.x2, f, s.x2);
    BasePass(emf.m, 3, q.f1.x2, q.f2.x1, emf.x3, f, s.x3);
    emf.contents := BaseEMF(emf.m, f, s);
  }

  method CorrectionPasses(scheme: Scheme, q: FluxData, cemf: FieldData, rho: FieldData, emf: FieldData, ghost c: Field,
                          ghost s: Field)
    requires q.Valid() && cemf.Valid() && rho.Valid() && emf.Valid() && cemf.m == emf.m && rho.m == emf.m
             && q.f1.m == emf.m
    requires emf.Repr() !! q.Repr() && emf.Repr() !! cemf.Repr() && emf.Repr() !! rho.Repr()
    requires emf.contents == BaseEMF(emf.m, q.Contents(), s) && (scheme != BS99 ==> cemf.contents == c)
    modifies emf.Repr()
    ensures emf.Valid() && emf.contents == EdgeEMF(emf.m, scheme, q.Contents(), c, rho.contents, s)
  {
    hide EdgeComponent, BaseField, Stores;
    ghost var f, r := q.Contents(), rho.contents;
    CorrectionPass(emf.m, scheme, 1, q.f2.x3, q.f3.x2, cemf.x1, rho.x2, rho.x3, emf.x1, f, c, r, s.x1);
    CorrectionPass(emf.m, scheme, 2, q.f3.x1, q.f1.x3, cemf.x2, rho.x3, rho.x1, emf.x2, f, c, r, s.x2);
    CorrectionPass(emf.m, scheme, 3, q.f1.x2, q.f2.x1, cemf.x3, rho.x1, rho.x2, emf.x3, f, c, r, s.x3);
    emf.contents := EdgeEMF(emf.m, scheme, f, c, r, s);
  }

  /** CalculateEMF: the averages, then from the primitives `u` and `b` the EMF at zone centres, then
      the corrections; `rho` holds the mass fluxes along the directions. */
  method CalculateEMF(scheme: Scheme, geo: (int, int) -> Geometry, gamma: Scalar, u: FieldData, b: FieldData,
                      q: FluxData,
                      cemf: FieldData, rho: FieldData, emf: FieldData, ghost z: Zones)
    requires q.Valid() && u.Valid() && b.Valid() && cemf.Valid() && rho.Valid() && emf.Valid()
    requires cemf.m == emf.m && rho.m == emf.m && q.f1.m == emf.m && u.m == emf.m && b.m == emf.m
    requires emf.Repr() !! q.Repr() && emf.Repr() !! cemf.Repr() && emf.Repr() !! rho.Repr() && emf.Repr() !! u.Repr()
             && emf.Repr() !! b.Repr()
    requires cemf.Repr() !! q.Repr() && cemf.Repr() !! rho.Repr() && cemf.Repr() !! u.Repr() && cemf.Repr() !! b.Repr()
    requires scheme != BS99 ==> Describes(emf.m, z, geo, gamma, u.contents, b.contents)
    modifies emf.Repr(), cemf.Repr()
    ensures emf.Valid() && cemf.Valid()
    ensures cemf.contents == if scheme == BS99 then old(cemf.contents) else CentredField(emf.m, z, old(cemf.contents))
    ensures emf.contents
         == EdgeEMF(emf.m, scheme, q.Contents(), CentredField(emf.m, z, old(cemf.contents)), rho.contents,
                    old(emf.contents))
  {
    hide EdgeEMF, BaseEMF, CentredField, Stores, Describes;
    ghost var c, s := CentredField(emf.m, z, cemf.contents), emf.contents;
    BasePasses(q, emf);
    if scheme != BS99 { FillCentred(geo, gamma, u, b, cemf, z); }
    CorrectionPasses(scheme, q, cemf, rho, emf, c, s);
  }
}
