/** The EMF at zone centres, from the primitive variables, and what it makes of a planar flow. */
module CentredEMF {
  import opened Grid
  import opened FaceCT
  import opened BoundaryEMF
  import opened Matrix
  import opened FourVectors
  import opened Emf
  import FluxCT

  /** The state of every zone. */
  type Zones = (int, int, int) -> Zone

  function CentreAt(z: Zones, c: int, k: int, j: int, i: int): real { CentreEMF(z(k, j, i), A(c), B(c)) }

  function CentreComponent(m: Mesh, z: Zones, c: int, stale: Scalar): Scalar {
    (k, j, i) => if m.AllZones().Has(k, j, i) then CentreAt(z, c, k, j, i) else stale(k, j, i)
  }

  /** The container of centred EMFs after the kernel. */
  function CentredField(m: Mesh, z: Zones, stale: Field): Field {
    Field(CentreComponent(m, z, 1, stale.x1), CentreComponent(m, z, 2, stale.x2), CentreComponent(m, z, 3, stale.x3))
  }

  /** The same without an end to the block. */
  function Everywhere(z: Zones): Field {
    Field((k, j, i) => CentreAt(z, 1, k, j, i), (k, j, i) => CentreAt(z, 2, k, j, i), (k, j, i) =>
          CentreAt(z, 3, k, j, i))
  }

  lemma CentredAt(m: Mesh, z: Zones, stale: Field, c: int, k: int, j: int, i: int)
    requires 1 <= c <= 3 && m.AllZones().Has(k, j, i)
    ensures Component(CentredField(m, z, stale), c)(k, j, i) == CentreAt(z, c, k, j, i)
  {
  }

  /** Exactly the zones of the block, ghosts included, are filled. */
  lemma CentredFilled(m: Mesh, z: Zones, stale: Field, k: int, j: int, i: int)
    requires m.Ok()
    ensures var e := CentredField(m, z, stale);
            if 0 <= k <= (if m.ndim > 2 then m.Ke() + m.ng else 0) && 0 <= j <= m.Je() + m.ng && 0 <= i <= m.Ie() + m.ng
            then e.x1(k, j, i) == CentreAt(z, 1, k, j, i) && e.x2(k, j, i) == CentreAt(z, 2, k, j, i)
                 && e.x3(k, j, i) == CentreAt(z, 3, k, j, i)
            else e.x1(k, j, i) == stale.x1(k, j, i) && e.x2(k, j, i) == stale.x2(k, j, i)
                 && e.x3(k, j, i) == stale.x3(k, j, i)
  {
    hide CentreAt;
    assert CentreComponent(m, z, 1, stale.x1)(k, j, i)
        == if m.AllZones().Has(k, j, i) then CentreAt(z, 1, k, j, i) else stale.x1(k, j, i);
    assert CentreComponent(m, z, 2, stale.x2)(k, j, i)
        == if m.AllZones().Has(k, j, i) then CentreAt(z, 2, k, j, i) else stale.x2(k, j, i);
    assert CentreComponent(m, z, 3, stale.x3)(k, j, i)
        == if m.AllZones().Has(k, j, i) then CentreAt(z, 3, k, j, i) else stale.x3(k, j, i);
  }

  // -- Planar flows

  /** The state depends on one index only. */
  ghost predicate PlanarZones(z: Zones, axis: int) {
    forall k, j, i {:trigger z(k, j, i)} ::
        z(k, j, i) == z(if axis == 3 then k else 0, if axis == 2 then j else 0, if axis == 1 then i else 0)
  }

  /** Along the axis the fluxes are those of any solver; across it, where both sides of a face agree,
      they are the fluxes of the zone. */
  ghost predicate ConsistentFluxes(q: FluxCT.Fluxes, z: Zones, axis: int) {
    && (forall d, v | 1 <= d <= 3 && 1 <= v <= 3 :: Planar(Flux(q, d, v), axis))
    && (forall d, v, k, j, i | 1 <= d <= 3 && 1 <= v <= 3 && d != axis ::
        Flux(q, d, v)(k, j, i) == FieldFlux(z(k, j, i), d, v))
  }

  lemma EverywhereAt(z: Zones, c: int, k: int, j: int, i: int)
    requires 1 <= c <= 3
    ensures Component(Everywhere(z), c)(k, j, i) == CentreAt(z, c, k, j, i)
  {
  }

  lemma EMFIsFlux(z: Zone, c: int)
    ensures FieldFlux(z, A(c), B(c)) == -CentreEMF(z, A(c), B(c))
            && FieldFlux(z, B(c), A(c)) == CentreEMF(z, A(c), B(c))
  {
    var b, u, g := BCon(z), UCon(z), z.geo.gdet;
    hide UCon, BCon, Get, A;
    assert Dual(b, u, B(c), A(c)) == -Dual(b, u, A(c), B(c));
    NegatesFirst(Dual(b, u, A(c), B(c)), g);
  }

  /** Such a flow is planar: its fluxes across the axis are, up to sign, the centred EMFs. */
  lemma FlowIsPlanar(q: FluxCT.Fluxes, z: Zones, axis: int)
    requires 1 <= axis <= 3 && PlanarZones(z, axis) && ConsistentFluxes(q, z, axis)
    ensures PlanarFlow(q, Everywhere(z), axis)
  {
    hide FieldFlux, CentreEMF, Flux, Component;
    forall c | 1 <= c <= 3
      ensures Planar(Component(Everywhere(z), c), axis)
    {
      forall k, j, i
        ensures Component(Everywhere(z), c)(k, j, i) == CentreAt(z, c, k, j, i)
      {
        EverywhereAt(z, c, k, j, i);
      }
    }
    forall c, k, j, i | 1 <= c <= 3
      ensures A(c) != axis ==> Flux(q, A(c), B(c))(k, j, i) == -Component(Everywhere(z), c)(k, j, i)
      ensures B(c) != axis ==> Flux(q, B(c), A(c))(k, j, i) == Component(Everywhere(z), c)(k, j, i)
    {
      EverywhereAt(z, c, k, j, i);
      EMFIsFlux(z(k, j, i), c);
    }
  }

  /** The EMF of an edge reads centred EMFs of the block only. */
  lemma EdgeReadsBlock(m: Mesh, scheme: Scheme, q: FluxCT.Fluxes, z: Zones, stale: Field, rho: Field, c: int, k: int,
                       j: int, i: int)
    requires m.Ok() && 1 <= c <= 3 && FluxCT.EdgeBox(m).Has(k, j, i)
    ensures EdgeAt(m, scheme, q, CentredField(m, z, stale), rho, c, k, j, i)
            == EdgeAt(m, scheme, q, Everywhere(z), rho, c, k, j, i)
  {
    if m.ndim > 2 || c == 3 {
      var p, r := Component(CentredField(m, z, stale), c), Component(Everywhere(z), c);
      forall k', j', i' | m.AllZones().Has(k', j', i')
        ensures p(k', j', i') == r(k', j', i')
      {
        CentredAt(m, z, stale, c, k', j', i');
        EverywhereAt(z, c, k', j', i');
      }
      SameAround(m, p, r, c, k, j, i);
      hide BaseAt, LessCentred, Upwinded, Flux, Back, Back2, CentredField, Everywhere;
    }
  }

  lemma SameAround(m: Mesh, p: Scalar, r: Scalar, c: int, k: int, j: int, i: int)
    requires m.Ok() && 1 <= c <= 3 && (m.ndim > 2 || c == 3) && FluxCT.EdgeBox(m).Has(k, j, i)
    requires forall k', j', i' | m.AllZones().Has(k', j', i') :: p(k', j', i') == r(k', j', i')
    ensures p(k, j, i) == r(k, j, i) && Back(p, A(c), k, j, i) == Back(r, A(c), k, j, i)
    ensures Back(p, B(c), k, j, i) == Back(r, B(c), k, j, i)
            && Back2(p, A(c), B(c), k, j, i) == Back2(r, A(c), B(c), k, j, i)
  {
  }

  /** From primitives to update: where the state varies along one axis only, the field on every face of
      an interior zone is updated exactly as in one dimension, with either correction, whatever the
      metric and the mass fluxes. */
  lemma PlanarStateUpdate(m: Mesh, scheme: Scheme, q: FluxCT.Fluxes, z: Zones, cstale: Field, rho: Field, stale: Field,
                          src: Field,
                          axis: int, v: int, k: int, j: int, i: int)
    requires m.Ok() && 1 <= axis <= m.ndim && 1 <= v <= 3 && scheme != BS99 && m.FaceRange(v).Has(k, j, i)
    requires PlanarZones(z, axis) && ConsistentFluxes(q, z, axis)
    ensures Component(Sourced(m, EdgeEMF(m, scheme, q, CentredField(m, z, cstale), rho, stale), src), v)(k, j, i)
         == OneDimensionalUpdate(m, q, axis, v, k, j, i)
  {
    hide PlanarFlow, EdgeAt, PlanarZones, ConsistentFluxes, OneDimensionalUpdate, CentredField, Everywhere;
    FlowIsPlanar(q, z, axis);
    var e, f := EdgeEMF(m, scheme, q, CentredField(m, z, cstale), rho, stale),
                EdgeEMF(m, scheme, q, Everywhere(z), rho, stale);
    forall c, k, j, i | 1 <= c <= 3
      ensures Component(e, c)(k, j, i) == Component(f, c)(k, j, i)
    {
      if FluxCT.EdgeBox(m).Has(k, j, i) { EdgeReadsBlock(m, scheme, q, z, cstale, rho, c, k, j, i); }
    }
    SameSource(m, e, f, src, v, k, j, i);
    PlanarUpdate(m, scheme, q, Everywhere(z), rho, stale, src, axis, v, k, j, i);
  }

  lemma SameSource(m: Mesh, e: Field, f: Field, src: Field, v: int, k: int, j: int, i: int)
    requires m.Ok() && 1 <= v <= 3 && m.FaceRange(v).Has(k, j, i)
    requires forall c, k, j, i | 1 <= c <= 3 :: Component(e, c)(k, j, i) == Component(f, c)(k, j, i)
    ensures Component(Sourced(m, e, src), v)(k, j, i) == Component(Sourced(m, f, src), v)(k, j, i)
  {
    hide CirculationF1, CirculationF2, CirculationF3, Sourced;
    forall k, j, i
      ensures e.x1(k, j, i) == f.x1(k, j, i) && e.x2(k, j, i) == f.x2(k, j, i) && e.x3(k, j, i) == f.x3(k, j, i)
    {
      assert Component(e, 1)(k, j, i) == Component(f, 1)(k, j, i)
             && Component(e, 2)(k, j, i) == Component(f, 2)(k, j, i);
      assert Component(e, 3)(k, j, i) == Component(f, 3)(k, j, i);
    }
    SourcedAt(m, e, src, k, j, i);
    SourcedAt(m, f, src, k, j, i);
  }

  // -- On storage

  /** The zone whose primitives the arrays hold. */
  function ZoneIn(geo: Geometry, gamma: real, u1: real, u2: real, u3: real, b1: real, b2: real, b3: real): RawZone {
    RawZone(geo, Vec(0.0, u1, u2, u3), Vec(0.0, b1, b2, b3), gamma)
  }

  /** `z` is the state the geometry, the Lorentz factors and the primitives describe. */
  ghost predicate Describes(m: Mesh, z: Zones, geo: (int, int) -> Geometry, gamma: Scalar, u: Field, b: Field) {
    forall k, j, i | m.AllZones().Has(k, j, i) ::
      z(k, j, i) == ZoneIn(geo(j, i), gamma(k, j, i), u.x1(k, j, i), u.x2(k, j, i), u.x3(k, j, i), b.x1(k, j, i),
                           b.x2(k, j, i), b.x3(k, j, i))
  }

  /** The state taken for a zone: the geometry of its place, the velocity and field primitives stored for it in the
      order of the components.  The EMF its centre gets is the densitised field across the coordinate velocity. */
  lemma StoredEMF(m: Mesh, z: Zones, geo: (int, int) -> Geometry, gamma: Scalar, u: Field, b: Field, stale: Field,
                  k: int, j: int, i: int)
    requires m.Ok() && Describes(m, z, geo, gamma, u, b) && m.AllZones().Has(k, j, i)
    ensures var s, e, g := z(k, j, i), CentredField(m, z, stale), geo(j, i).gdet;
            && s.geo == geo(j, i) && s.gamma == gamma(k, j, i)
            && s.u.x1 == u.x1(k, j, i) && s.u.x2 == u.x2(k, j, i) && s.u.x3 == u.x3(k, j, i)
            && e.x1(k, j, i) == Product(Product(b.x2(k, j, i), Coordinate(s, 3))
                                        - Product(b.x3(k, j, i), Coordinate(s, 2)), g)
            && e.x2(k, j, i) == Product(Product(b.x3(k, j, i), Coordinate(s, 1))
                                        - Product(b.x1(k, j, i), Coordinate(s, 3)), g)
            && e.x3(k, j, i) == Product(Product(b.x1(k, j, i), Coordinate(s, 2))
                                        - Product(b.x2(k, j, i), Coordinate(s, 1)), g)
  {
    var s := z(k, j, i);
    assert s.b == Vec(0.0, b.x1(k, j, i), b.x2(k, j, i), b.x3(k, j, i));
    hide CentreEMF, Coordinate, Product;
    CentredAt(m, z, stale, 1, k, j, i);
    CentredAt(m, z, stale, 2, k, j, i);
    CentredAt(m, z, stale, 3, k, j, i);
    EMFIsMotional(s, 2, 3);
    EMFIsMotional(s, 3, 1);
    EMFIsMotional(s, 1, 2);
  }

  function Held(geo: (int, int) -> Geometry, gamma: Scalar, u: FieldData, b: FieldData, k: int, j: int, i: int): RawZone
    reads u.x1, u.x2, u.x3, b.x1, b.x2, b.x3
  {
    ZoneIn(geo(j, i), gamma(k, j, i), Peek(u.x1, k, j, i), Peek(u.x2, k, j, i), Peek(u.x3, k, j, i),
           Peek(b.x1, k, j, i), Peek(b.x2, k, j, i), Peek(b.x3, k, j, i))
  }

  method CentreKernel(c: int, geo: (int, int) -> Geometry, gamma: Scalar, u: FieldData, b: FieldData, e: array3<real>,
                      ghost z: Zones, ghost s: Scalar)
    requires u.Valid() && b.Valid() && u.m == b.m && u.Apart(e) && b.Apart(e) && Stores(u.m, e, s)
    requires Describes(u.m, z, geo, gamma, u.contents, b.contents)
    modifies e
    ensures Stores(u.m, e, CentreComponent(u.m, z, c, s))
  {
    var m := u.m;
    ghost var t := CentreComponent(m, z, c, s);
    forall k, j, i | m.AllZones().Has(k, j, i)
      ensures m.InBounds(k, j, i) && Held(geo, gamma, u, b, k, j, i) == z(k, j, i)
      ensures t(k, j, i) == CentreEMF(z(k, j, i), A(c), B(c))
    {
      assert t(k, j, i) == CentreAt(z, c, k, j, i);
      PeekIs(m, u.x1, u.contents.x1); PeekIs(m, u.x2, u.contents.x2); PeekIs(m, u.x3, u.contents.x3);
      PeekIs(m, b.x1, b.contents.x1); PeekIs(m, b.x2, b.contents.x2); PeekIs(m, b.x3, b.contents.x3);
    }
    assert forall k, j, i :: !m.AllZones().Has(k, j, i) ==> t(k, j, i) == s(k, j, i);
    hide Held, CentreEMF, CentreComponent, Stores, Describes;
    ParFor(m, m.AllZones(), e,
           (k, j, i) requires Held(geo, gamma, u, b, k, j, i).Ok() reads u.x1, u.x2, u.x3, b.x1, b.x2, b.x3 =>
             CentreEMF(Held(geo, gamma, u, b, k, j, i), A(c), B(c)),
           s, t);
  }

  /** The kernel that fills the centred EMFs of the whole block. */
  method FillCentred(geo: (int, int) -> Geometry, gamma: Scalar, u: FieldData, b: FieldData, cemf: FieldData,
                     ghost z: Zones)
    requires u.Valid() && b.Valid() && cemf.Valid() && u.m == cemf.m && b.m == cemf.m
    requires cemf.Repr() !! u.Repr() && cemf.Repr() !! b.Repr()
    requires Describes(cemf.m, z, geo, gamma, u.contents, b.contents)
    modifies cemf.Repr()
    ensures cemf.Valid() && cemf.contents == CentredField(cemf.m, z, old(cemf.contents))
  {
    ghost var s := cemf.contents;
    CentreKernel(1, geo, gamma, u, b, cemf.x1, z, s.x1);
    CentreKernel(2, geo, gamma, u, b, cemf.x2, z, s.x2);
    CentreKernel(3, geo, gamma, u, b, cemf.x3, z, s.x3);
    cemf.contents := CentredField(cemf.m, z, s);
  }
}
