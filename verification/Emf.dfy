/** The edge EMFs of face-centred transport (CalculateEMF): averages of face fluxes, with the
    corrections that make a planar flow come out as in one dimension. */
module Emf {
  import opened Grid
  import opened FaceCT
  import opened BoundaryEMF
  import FluxCT

  /** The averages alone (Balsara & Spicer 1999), or corrected by the centred EMF (Gardiner & Stone
      2005), upwinded by the contact mode or not. */
  datatype Scheme = BS99 | GS05Zero | GS05C

  /** Directions in cyclic order: an edge along `c` lies between faces along `A(c)` and `B(c)`. */
  function A(c: int): int { if c == 3 then 1 else c + 1 }
  function B(c: int): int { A(A(c)) }

  /** Flux in direction `d` of field component `v`. */
  function Flux(q: FluxCT.Fluxes, d: int, v: int): Scalar {
    Component(if d == 1 then q.f1 else if d == 2 then q.f2 else q.f3, v)
  }

  /** `s` one zone back along `d`, and along `d` and `e`. */
  function Back(s: Scalar, d: int, k: int, j: int, i: int): real {
    s(if d == 3 then k - 1 else k, if d == 2 then j - 1 else j, if d == 1 then i - 1 else i)
  }
  function Back2(s: Scalar, d: int, e: int, k: int, j: int, i: int): real {
    Back(s, d, if e == 3 then k - 1 else k, if e == 2 then j - 1 else j, if e == 1 then i - 1 else i)
  }

  /** The four fluxes around an edge. */
  function Circ(pb: real, p: real, ra: real, r: real): real { 0.25 * (-pb - p + ra + r) }

  /** The base scheme; in 2D the edges in the plane lie on a face. */
  function BaseAt(m: Mesh, q: FluxCT.Fluxes, c: int, k: int, j: int, i: int): real {
    if m.ndim == 2 && c == 1 then -q.f2.x3(k, j, i)
    else if m.ndim == 2 && c == 2 then q.f1.x3(k, j, i)
    else
      var p, r := Flux(q, A(c), B(c)), Flux(q, B(c), A(c));
      Circ(Back(p, B(c), k, j, i), p(k, j, i), Back(r, A(c), k, j, i), r(k, j, i))
  }

  function LessCentred(e: real, c: real, ca: real, cb: real, cab: real): real { 2.0 * e - 0.25 * (c + ca + cb + cab) }

  /** The gradients of the EMF towards the edge, each from the side the mass flux comes from. */
  function Upwinded(e: real, pb: real, p: real, ra: real, r: real, c: real, ca: real, cb: real, cab: real,
                    fab: real, fa: real, fba: real, fb: real): real {
    e + 0.25 * ((if fab >= 0.0 then ra - cab else r - cb) + (if fa >= 0.0 then ra - ca else r - c)
                + (if fba >= 0.0 then -pb - cab else -p - ca) + (if fb >= 0.0 then -pb - cb else -p - c))
  }

  /** The correction of an edge EMF `e`: `cemf` is the EMF at zone centres, `rho` the mass fluxes. */
  function CorrectedAt(m: Mesh, scheme: Scheme, e: real, q: FluxCT.Fluxes, cemf: Field, rho: Field, c: int, k: int,
                       j: int, i: int): real {
    if m.ndim == 2 && c != 3 then e
    else
      var p, r, z := Flux(q, A(c), B(c)), Flux(q, B(c), A(c)), Component(cemf, c);
      match scheme
      case BS99 => e
      case GS05Zero =>
          LessCentred(e, z(k, j, i), Back(z, A(c), k, j, i), Back(z, B(c), k, j, i), Back2(z, A(c), B(c), k, j, i))
      case GS05C =>
        Upwinded(e, Back(p, B(c), k, j, i), p(k, j, i), Back(r, A(c), k, j, i), r(k, j, i),
                 z(k, j, i), Back(z, A(c), k, j, i), Back(z, B(c), k, j, i), Back2(z, A(c), B(c), k, j, i),
                 Back(Component(rho, A(c)), B(c), k, j, i), Component(rho, A(c))(k, j, i),
                 Back(Component(rho, B(c)), A(c), k, j, i), Component(rho, B(c))(k, j, i))
  }

  function EdgeAt(m: Mesh, scheme: Scheme, q: FluxCT.Fluxes, cemf: Field, rho: Field, c: int, k: int, j: int,
                  i: int): real {
    CorrectedAt(m, scheme, BaseAt(m, q, c, k, j, i), q, cemf, rho, c, k, j, i)
  }

  function EdgeComponent(m: Mesh, scheme: Scheme, q: FluxCT.Fluxes, cemf: Field, rho: Field, c: int,
                         stale: Scalar): Scalar {
    (k, j, i) => if FluxCT.EdgeBox(m).Has(k, j, i) then EdgeAt(m, scheme, q, cemf, rho, c, k, j, i) else stale(k, j, i)
  }

  /** The EMF container after CalculateEMF. */
  function EdgeEMF(m: Mesh, scheme: Scheme, q: FluxCT.Fluxes, cemf: Field, rho: Field, stale: Field): Field {
    Field(EdgeComponent(m, scheme, q, cemf, rho, 1, stale.x1), EdgeComponent(m, scheme, q, cemf, rho, 2, stale.x2),
          EdgeComponent(m, scheme, q, cemf, rho, 3, stale.x3))
  }

  // -- Planar flows

  /** Varies along `axis` only. */
  ghost predicate Planar(s: Scalar, axis: int) {
    forall k, j, i {:trigger s(k, j, i)} ::
        s(k, j, i) == s(if axis == 3 then k else 0, if axis == 2 then j else 0, if axis == 1 then i else 0)
  }

  /** Fluxes and centred EMF vary along `axis` only, and across it, where nothing varies, each flux is
      the centred EMF of its zone.  The fluxes along the axis are whatever a 1D solver gave. */
  ghost predicate PlanarFlow(q: FluxCT.Fluxes, cemf: Field, axis: int) {
    && (forall d, v | 1 <= d <= 3 && 1 <= v <= 3 :: Planar(Flux(q, d, v), axis))
    && (forall c | 1 <= c <= 3 :: Planar(Component(cemf, c), axis))
    && (forall c, k, j, i | 1 <= c <= 3 && A(c) != axis :: Flux(q, A(c), B(c))(k, j, i) == -Component(cemf, c)(k, j, i))
    && (forall c, k, j, i | 1 <= c <= 3 && B(c) != axis :: Flux(q, B(c), A(c))(k, j, i) == Component(cemf, c)(k, j, i))
  }

  /** What one dimension would have: the flux along the axis, with its sign; along the axis itself the
      centred EMF. */
  function OneDimensional(q: FluxCT.Fluxes, cemf: Field, axis: int, c: int, k: int, j: int, i: int): real {
    if c == axis then Component(cemf, c)(k, j, i)
    else if A(c) == axis then -Flux(q, axis, B(c))(k, j, i)
    else Flux(q, axis, A(c))(k, j, i)
  }

  // What the planar flow says about the values around an edge.

  lemma ShiftsAcross(s: Scalar, axis: int, d: int, e: int, k: int, j: int, i: int)
    requires 1 <= axis <= 3 && 1 <= d <= 3 && 1 <= e <= 3 && Planar(s, axis)
    ensures d != axis ==> Back(s, d, k, j, i) == s(k, j, i)
    ensures d != axis ==> Back2(s, e, d, k, j, i) == Back(s, e, k, j, i)
    ensures d != axis ==> Back2(s, d, e, k, j, i) == Back(s, e, k, j, i)
  {
  }

  lemma BackOfFlux(q: FluxCT.Fluxes, cemf: Field, axis: int, c: int, k: int, j: int, i: int)
    requires 1 <= axis <= 3 && 1 <= c <= 3 && PlanarFlow(q, cemf, axis)
    ensures A(c) != axis ==> Flux(q, A(c), B(c))(k, j, i) == -Component(cemf, c)(k, j, i)
    ensures A(c) != axis ==> Back(Flux(q, A(c), B(c)), B(c), k, j, i) == -Back(Component(cemf, c), B(c), k, j, i)
    ensures B(c) != axis ==> Flux(q, B(c), A(c))(k, j, i) == Component(cemf, c)(k, j, i)
    ensures B(c) != axis ==> Back(Flux(q, B(c), A(c)), A(c), k, j, i) == Back(Component(cemf, c), A(c), k, j, i)
  {
  }

  lemma AlongAxis(z: real, fab: real, fa: real, fba: real, fb: real)
    ensures LessCentred(Circ(-z, -z, z, z), z, z, z, z) == z
    ensures Upwinded(Circ(-z, -z, z, z), -z, -z, z, z, z, z, z, z, fab, fa, fba, fb) == z
  {
  }

  lemma AxisIsA(p: real, z: real, y: real, fab: real, fa: real, fba: real, fb: real)
    ensures LessCentred(Circ(p, p, y, z), z, y, z, y) == -p
    ensures Upwinded(Circ(p, p, y, z), p, p, y, z, z, y, z, y, fab, fa, fba, fb) == -p
  {
  }

  lemma AxisIsB(r: real, z: real, y: real, fab: real, fa: real, fba: real, fb: real)
    ensures LessCentred(Circ(-y, -z, r, r), z, z, y, y) == r
    ensures Upwinded(Circ(-y, -z, r, r), -y, -z, r, r, z, z, y, y, fab, fa, fba, fb) == r
  {
  }

  /** With either correction, and any mass fluxes, every edge has its one-dimensional EMF. */
  lemma PlanarEMF(m: Mesh, scheme: Scheme, q: FluxCT.Fluxes, cemf: Field, rho: Field, axis: int, c: int, k: int, j: int,
                  i: int)
    requires m.Ok() && 1 <= axis <= m.ndim && 1 <= c <= 3 && scheme != BS99 && PlanarFlow(q, cemf, axis)
    ensures EdgeAt(m, scheme, q, cemf, rho, c, k, j, i) == OneDimensional(q, cemf, axis, c, k, j, i)
  {
    if m.ndim == 2 && c != 3 {
      BackOfFlux(q, cemf, axis, c, k, j, i);
    } else {
      PlanarEdge(m, scheme, q, cemf, rho, axis, c, k, j, i);
    }
  }

  lemma PlanarEdge(m: Mesh, scheme: Scheme, q: FluxCT.Fluxes, cemf: Field, rho: Field, axis: int, c: int, k: int,
                   j: int, i: int)
    requires 1 <= axis <= 3 && 1 <= c <= 3 && scheme != BS99 && PlanarFlow(q, cemf, axis) && (m.ndim == 2 ==> c == 3)
    ensures EdgeAt(m, scheme, q, cemf, rho, c, k, j, i) == OneDimensional(q, cemf, axis, c, k, j, i)
  {
    var a, b, p, r, z := A(c), B(c), Flux(q, A(c), B(c)), Flux(q, B(c), A(c)), Component(cemf, c);
    assert Planar(p, axis) && Planar(r, axis) && Planar(z, axis);
    BackOfFlux(q, cemf, axis, c, k, j, i);
    ShiftsAcross(p, axis, b, b, k, j, i);
    ShiftsAcross(r, axis, a, a, k, j, i);
    ShiftsAcross(z, axis, a, b, k, j, i);
    ShiftsAcross(z, axis, b, a, k, j, i);
    var fab, fa, fba, fb :=
        Back(Component(rho, a), b, k, j, i), Component(rho, a)(k, j, i), Back(Component(rho, b), a, k, j, i),
        Component(rho, b)(k, j, i);
    if c == axis {
      AlongAxis(z(k, j, i), fab, fa, fba, fb);
    } else if a == axis {
      AxisIsA(p(k, j, i), z(k, j, i), Back(z, a, k, j, i), fab, fa, fba, fb);
    } else {
      AxisIsB(r(k, j, i), z(k, j, i), Back(z, b, k, j, i), fab, fa, fba, fb);
    }
    hide Circ, LessCentred, Upwinded, Planar, PlanarFlow, Back, Back2, Component, Flux;
  }

  /** The averages alone do so exactly where the flux is the mean of the centred EMFs beside the edge
      (and along the axis, and on edges that lie in a 2D plane). */
  lemma PlanarAverage(m: Mesh, q: FluxCT.Fluxes, cemf: Field, rho: Field, axis: int, c: int, k: int, j: int, i: int)
    requires m.Ok() && 1 <= axis <= m.ndim && 1 <= c <= 3 && PlanarFlow(q, cemf, axis)
    ensures EdgeAt(m, BS99, q, cemf, rho, c, k, j, i) == OneDimensional(q, cemf, axis, c, k, j, i)
       <==> || (m.ndim == 2 && c != 3) || c == axis
            || Component(cemf, c)(k, j, i) + Back(Component(cemf, c), axis, k, j, i)
            == 2.0 * OneDimensional(q, cemf, axis, c, k, j, i)
  {
    BackOfFlux(q, cemf, axis, c, k, j, i);
    if m.ndim > 2 || c == 3 {
      var a, b, p, r, z := A(c), B(c), Flux(q, A(c), B(c)), Flux(q, B(c), A(c)), Component(cemf, c);
      assert Planar(p, axis) && Planar(r, axis) && Planar(z, axis);
      ShiftsAcross(p, axis, b, b, k, j, i);
      ShiftsAcross(r, axis, a, a, k, j, i);
      ShiftsAcross(z, axis, a, b, k, j, i);
      ShiftsAcross(z, axis, b, a, k, j, i);
      hide Planar, PlanarFlow, Back, Component, Flux;
    }
  }

  // -- The update AddSource makes of them

  /** One step forward along `d`. */
  function Ahead(s: Scalar, d: int, k: int, j: int, i: int): real {
    s(if d == 3 then k + 1 else k, if d == 2 then j + 1 else j, if d == 1 then i + 1 else i)
  }

  function Spacing(m: Mesh, d: int): real { if d == 1 then m.dx1 else if d == 2 then m.dx2 else m.dx3 }

  /** The conservative update of one dimension: component `v` changes by the difference of its flux
      along the axis; the component along the axis does not change. */
  function OneDimensionalUpdate(m: Mesh, q: FluxCT.Fluxes, axis: int, v: int, k: int, j: int, i: int): real
    requires m.Ok()
  {
    if v == axis then 0.0
    else -Slope(Ahead(Flux(q, axis, v), axis, k, j, i), Flux(q, axis, v)(k, j, i), Spacing(m, axis))
  }

  lemma EdgeValue(m: Mesh, scheme: Scheme, q: FluxCT.Fluxes, cemf: Field, rho: Field, stale: Field, axis: int, c: int,
                  k: int, j: int, i: int)
    requires m.Ok() && 1 <= axis <= m.ndim && 1 <= c <= 3 && scheme != BS99 && PlanarFlow(q, cemf, axis)
             && FluxCT.EdgeBox(m).Has(k, j, i)
    ensures Component(EdgeEMF(m, scheme, q, cemf, rho, stale), c)(k, j, i) == OneDimensional(q, cemf, axis, c, k, j, i)
  {
    hide PlanarFlow, OneDimensional, EdgeAt;
    PlanarEMF(m, scheme, q, cemf, rho, axis, c, k, j, i);
  }

  /** Across the axis the one-dimensional EMF does not vary. */
  lemma FlatAcross(q: FluxCT.Fluxes, cemf: Field, axis: int, c: int, d: int, k: int, j: int, i: int)
    requires 1 <= axis <= 3 && 1 <= c <= 3 && 1 <= d <= 3 && d != axis && PlanarFlow(q, cemf, axis)
    ensures var k', j', i' := if d == 3 then k + 1 else k, if d == 2 then j + 1 else j, if d == 1 then i + 1 else i;
            OneDimensional(q, cemf, axis, c, k', j', i') == OneDimensional(q, cemf, axis, c, k, j, i)
  {
  }

  lemma NoTurn(m: Mesh, p: real, x: real)
    requires m.Ok()
    ensures CirculationF1(m, p, p, x, x) == 0.0 && CirculationF2(m, p, p, x, x) == 0.0
            && CirculationF3(m, p, p, x, x) == 0.0
    ensures m.ndim == 2 ==> CirculationF1(m, p, p, 0.0, x) == 0.0 && CirculationF2(m, p, p, 0.0, x) == 0.0
  {
  }

  // Circulations with one pair of edges alike.

  lemma OneSided1(m: Mesh, p': real, p: real, x: real)
    requires m.Ok()
    ensures m.ndim > 2
            ==> CirculationF1(m, p', p, x, x) == -Slope(p', p, m.dx2)
                && CirculationF1(m, x, x, p', p) == Slope(p', p, m.dx3)
    ensures m.ndim == 2 ==> CirculationF1(m, p', p, 0.0, x) == -Slope(p', p, m.dx2)
  {
  }

  lemma OneSided2(m: Mesh, p': real, p: real, x: real)
    requires m.Ok()
    ensures m.ndim > 2
            ==> CirculationF2(m, p', p, x, x) == Slope(p', p, m.dx1)
                && CirculationF2(m, x, x, p', p) == -Slope(p', p, m.dx3)
    ensures m.ndim == 2 ==> CirculationF2(m, p', p, 0.0, x) == Slope(p', p, m.dx1)
  {
  }

  lemma OneSided3(m: Mesh, p': real, p: real, x: real)
    requires m.Ok()
    ensures CirculationF3(m, p', p, x, x) == -Slope(p', p, m.dx1)
            && CirculationF3(m, x, x, p', p) == Slope(p', p, m.dx2)
  {
  }

  lemma SlopeFlips(p: real, q: real, d: real)
    requires d > 0.0
    ensures Slope(p, q, d) == -Slope(q, p, d) && Slope(-p, -q, d) == -Slope(p, q, d)
  {
  }

  /** The values of the source container on the faces of an interior zone. */
  lemma SourcedAt(m: Mesh, e: Field, stale: Field, k: int, j: int, i: int)
    requires m.Ok()
    ensures m.FaceRange(1).Has(k, j, i) ==>
              Sourced(m, e, stale).x1(k, j, i)
                  == CirculationF1(m, e.x3(k, j + 1, i), e.x3(k, j, i), Above(m, e.x2, k, j, i), e.x2(k, j, i))
    ensures m.FaceRange(2).Has(k, j, i) ==>
              Sourced(m, e, stale).x2(k, j, i)
                  == CirculationF2(m, e.x3(k, j, i + 1), e.x3(k, j, i), Above(m, e.x1, k, j, i), e.x1(k, j, i))
    ensures m.FaceRange(3).Has(k, j, i) ==>
              Sourced(m, e, stale).x3(k, j, i)
                  == CirculationF3(m, e.x2(k, j, i + 1), e.x2(k, j, i), e.x1(k, j + 1, i), e.x1(k, j, i))
  {
  }

  lemma PlanarUpdate1(m: Mesh, scheme: Scheme, q: FluxCT.Fluxes, cemf: Field, rho: Field, stale: Field, src: Field,
                      axis: int, k: int, j: int, i: int)
    requires m.Ok() && 1 <= axis <= m.ndim && scheme != BS99 && PlanarFlow(q, cemf, axis) && m.FaceRange(1).Has(k, j, i)
    ensures Sourced(m, EdgeEMF(m, scheme, q, cemf, rho, stale), src).x1(k, j, i)
            == OneDimensionalUpdate(m, q, axis, 1, k, j, i)
  {
    hide PlanarFlow, EdgeEMF, Sourced, CirculationF1, Slope;
    var e := EdgeEMF(m, scheme, q, cemf, rho, stale);
    SourcedAt(m, e, src, k, j, i);
    EdgeValue(m, scheme, q, cemf, rho, stale, axis, 3, k, j, i);
    EdgeValue(m, scheme, q, cemf, rho, stale, axis, 3, k, j + 1, i);
    EdgeValue(m, scheme, q, cemf, rho, stale, axis, 2, k, j, i);
    if m.ndim > 2 { EdgeValue(m, scheme, q, cemf, rho, stale, axis, 2, k + 1, j, i); }
    if axis != 2 { FlatAcross(q, cemf, axis, 3, 2, k, j, i); }
    if axis != 3 { FlatAcross(q, cemf, axis, 2, 3, k, j, i); }
    NoTurn(m, e.x3(k, j, i), e.x2(k, j, i));
    OneSided1(m, e.x3(k, j + 1, i), e.x3(k, j, i), e.x2(k, j, i));
    OneSided1(m, Above(m, e.x2, k, j, i), e.x2(k, j, i), e.x3(k, j, i));
    SlopeFlips(Flux(q, 3, 1)(k + 1, j, i), Flux(q, 3, 1)(k, j, i), m.dx3);
  }

  lemma PlanarUpdate2(m: Mesh, scheme: Scheme, q: FluxCT.Fluxes, cemf: Field, rho: Field, stale: Field, src: Field,
                      axis: int, k: int, j: int, i: int)
    requires m.Ok() && 1 <= axis <= m.ndim && scheme != BS99 && PlanarFlow(q, cemf, axis) && m.FaceRange(2).Has(k, j, i)
    ensures Sourced(m, EdgeEMF(m, scheme, q, cemf, rho, stale), src).x2(k, j, i)
            == OneDimensionalUpdate(m, q, axis, 2, k, j, i)
  {
    hide PlanarFlow, EdgeEMF, Sourced, CirculationF2, Slope;
    var e := EdgeEMF(m, scheme, q, cemf, rho, stale);
    SourcedAt(m, e, src, k, j, i);
    EdgeValue(m, scheme, q, cemf, rho, stale, axis, 3, k, j, i);
    EdgeValue(m, scheme, q, cemf, rho, stale, axis, 3, k, j, i + 1);
    EdgeValue(m, scheme, q, cemf, rho, stale, axis, 1, k, j, i);
    if m.ndim > 2 { EdgeValue(m, scheme, q, cemf, rho, stale, axis, 1, k + 1, j, i); }
    if axis != 1 { FlatAcross(q, cemf, axis, 3, 1, k, j, i); }
    if axis != 3 { FlatAcross(q, cemf, axis, 1, 3, k, j, i); }
    NoTurn(m, e.x3(k, j, i), e.x1(k, j, i));
    OneSided2(m, e.x3(k, j, i + 1), e.x3(k, j, i), e.x1(k, j, i));
    OneSided2(m, Above(m, e.x1, k, j, i), e.x1(k, j, i), e.x3(k, j, i));
    SlopeFlips(Flux(q, 1, 2)(k, j, i + 1), Flux(q, 1, 2)(k, j, i), m.dx1);
  }

  lemma PlanarUpdate3(m: Mesh, scheme: Scheme, q: FluxCT.Fluxes, cemf: Field, rho: Field, stale: Field, src: Field,
                      axis: int, k: int, j: int, i: int)
    requires m.Ok() && 1 <= axis <= m.ndim && scheme != BS99 && PlanarFlow(q, cemf, axis) && m.FaceRange(3).Has(k, j, i)
    ensures Sourced(m, EdgeEMF(m, scheme, q, cemf, rho, stale), src).x3(k, j, i)
            == OneDimensionalUpdate(m, q, axis, 3, k, j, i)
  {
    hide PlanarFlow, EdgeEMF, Sourced, CirculationF3, Slope;
    var e := EdgeEMF(m, scheme, q, cemf, rho, stale);
    SourcedAt(m, e, src, k, j, i);
    EdgeValue(m, scheme, q, cemf, rho, stale, axis, 2, k, j, i);
    EdgeValue(m, scheme, q, cemf, rho, stale, axis, 2, k, j, i + 1);
    EdgeValue(m, scheme, q, cemf, rho, stale, axis, 1, k, j, i);
    EdgeValue(m, scheme, q, cemf, rho, stale, axis, 1, k, j + 1, i);
    if axis != 1 { FlatAcross(q, cemf, axis, 2, 1, k, j, i); }
    if axis != 2 { FlatAcross(q, cemf, axis, 1, 2, k, j, i); }
    NoTurn(m, e.x2(k, j, i), e.x1(k, j, i));
    OneSided3(m, e.x2(k, j, i + 1), e.x2(k, j, i), e.x1(k, j, i));
    OneSided3(m, e.x1(k, j + 1, i), e.x1(k, j, i), e.x2(k, j, i));
    SlopeFlips(Flux(q, 2, 3)(k, j + 1, i), Flux(q, 2, 3)(k, j, i), m.dx2);
  }

  /** A planar flow is updated exactly as in one dimension, on every face of an interior zone. */
  lemma PlanarUpdate(m: Mesh, scheme: Scheme, q: FluxCT.Fluxes, cemf: Field, rho: Field, stale: Field, src: Field,
                     axis: int, v: int, k: int, j: int, i: int)
    requires m.Ok() && 1 <= axis <= m.ndim && 1 <= v <= 3 && scheme != BS99 && PlanarFlow(q, cemf, axis)
             && m.FaceRange(v).Has(k, j, i)
    ensures Component(Sourced(m, EdgeEMF(m, scheme, q, cemf, rho, stale), src), v)(k, j, i)
            == OneDimensionalUpdate(m, q, axis, v, k, j, i)
  {
    hide PlanarFlow, EdgeEMF, Sourced, OneDimensionalUpdate;
    if v == 1 { PlanarUpdate1(m, scheme, q, cemf, rho, stale, src, axis, k, j, i); }
    else if v == 2 { PlanarUpdate2(m, scheme, q, cemf, rho, stale, src, axis, k, j, i); }
    else { PlanarUpdate3(m, scheme, q, cemf, rho, stale, src, axis, k, j, i); }
  }
}
