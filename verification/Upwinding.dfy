/** What the edge EMFs of CalculateEMF read, and with what weight: which of the four zones and of the four
    faces around an edge enter each scheme, and from which side the contact mode takes its gradients. */
module Upwinding {
  import opened Grid
  import opened BoundaryEMF
  import opened Emf
  import FluxCT

  // Around an edge along `c`: the zone `a` steps back along the first of the other two directions (in cyclic
  // order) and `b` along the second, a and b being 0 or 1; the face between the zones of row `b`, crossed along
  // the first direction; and the face between the zones of column `a`, crossed along the second.

  function ZoneAt(s: Scalar, c: int, a: int, b: int, k: int, j: int, i: int): real {
    if c == 1 then s(k - b, j - a, i) else if c == 2 then s(k - a, j, i - b) else s(k, j - b, i - a)
  }

  function MassOfRow(rho: Field, c: int, b: int, k: int, j: int, i: int): real {
    if c == 1 then rho.x2(k - b, j, i) else if c == 2 then rho.x3(k, j, i - b) else rho.x1(k, j - b, i)
  }

  function MassOfColumn(rho: Field, c: int, a: int, k: int, j: int, i: int): real {
    if c == 1 then rho.x3(k, j - a, i) else if c == 2 then rho.x1(k - a, j, i) else rho.x2(k, j, i - a)
  }

  /** The EMF a face has from its flux of the field. */
  function EMFOfRow(q: FluxCT.Fluxes, c: int, b: int, k: int, j: int, i: int): real {
    if c == 1 then -q.f2.x3(k - b, j, i) else if c == 2 then -q.f3.x1(k, j, i - b) else -q.f1.x2(k, j - b, i)
  }

  function EMFOfColumn(q: FluxCT.Fluxes, c: int, a: int, k: int, j: int, i: int): real {
    if c == 1 then q.f3.x2(k, j - a, i) else if c == 2 then q.f1.x3(k - a, j, i) else q.f2.x1(k, j, i - a)
  }

  /** What a face of row `b` adds in the contact scheme: its own EMF, and the step from the centre of the zone its
      mass comes from to the other face that zone has at the edge.  Likewise a face of column `a`. */
  function FromRow(q: FluxCT.Fluxes, z: Scalar, rho: Field, c: int, b: int, k: int, j: int, i: int): real {
    var a := if MassOfRow(rho, c, b, k, j, i) >= 0.0 then 1 else 0;
    EMFOfRow(q, c, b, k, j, i) + (EMFOfColumn(q, c, a, k, j, i) - ZoneAt(z, c, a, b, k, j, i))
  }

  function FromColumn(q: FluxCT.Fluxes, z: Scalar, rho: Field, c: int, a: int, k: int, j: int, i: int): real {
    var b := if MassOfColumn(rho, c, a, k, j, i) >= 0.0 then 1 else 0;
    EMFOfColumn(q, c, a, k, j, i) + (EMFOfRow(q, c, b, k, j, i) - ZoneAt(z, c, a, b, k, j, i))
  }

  lemma FacesAround(q: FluxCT.Fluxes, c: int, k: int, j: int, i: int)
    requires 1 <= c <= 3
    ensures var p, r := Flux(q, A(c), B(c)), Flux(q, B(c), A(c));
            && p(k, j, i) == -EMFOfRow(q, c, 0, k, j, i) && Back(p, B(c), k, j, i) == -EMFOfRow(q, c, 1, k, j, i)
            && r(k, j, i) == EMFOfColumn(q, c, 0, k, j, i) && Back(r, A(c), k, j, i) == EMFOfColumn(q, c, 1, k, j, i)
  {
  }

  lemma ZonesAround(z: Scalar, rho: Field, c: int, k: int, j: int, i: int)
    requires 1 <= c <= 3
    ensures z(k, j, i) == ZoneAt(z, c, 0, 0, k, j, i) && Back(z, A(c), k, j, i) == ZoneAt(z, c, 1, 0, k, j, i)
    ensures Back(z, B(c), k, j, i) == ZoneAt(z, c, 0, 1, k, j, i)
            && Back2(z, A(c), B(c), k, j, i) == ZoneAt(z, c, 1, 1, k, j, i)
    ensures var x, y := Component(rho, A(c)), Component(rho, B(c));
            && x(k, j, i) == MassOfRow(rho, c, 0, k, j, i) && Back(x, B(c), k, j, i) == MassOfRow(rho, c, 1, k, j, i)
            && y(k, j, i) == MassOfColumn(rho, c, 0, k, j, i)
            && Back(y, A(c), k, j, i) == MassOfColumn(rho, c, 1, k, j, i)
  {
  }

  /** The EMF of an edge in each scheme.  In 2D an edge in the plane lies on a face and has its EMF. */
  lemma EdgeReads(m: Mesh, scheme: Scheme, q: FluxCT.Fluxes, cemf: Field, rho: Field, c: int, k: int, j: int, i: int)
    requires 1 <= c <= 3
    ensures var e, z := EdgeAt(m, scheme, q, cemf, rho, c, k, j, i), Component(cemf, c);
            var faces := EMFOfRow(q, c, 0, k, j, i) + EMFOfRow(q, c, 1, k, j, i)
                         + EMFOfColumn(q, c, 0, k, j, i) + EMFOfColumn(q, c, 1, k, j, i);
            var zones := ZoneAt(z, c, 0, 0, k, j, i) + ZoneAt(z, c, 0, 1, k, j, i)
                         + ZoneAt(z, c, 1, 0, k, j, i) + ZoneAt(z, c, 1, 1, k, j, i);
            if m.ndim == 2 && c != 3
            then e == if c == 1 then EMFOfRow(q, 1, 0, k, j, i) else EMFOfColumn(q, 2, 0, k, j, i)
            else match scheme
                 case BS99 => 4.0 * e == faces
                 case GS05Zero => 4.0 * e == 2.0 * faces - zones
                 case GS05C => 4.0 * e == FromRow(q, z, rho, c, 0, k, j, i) + FromRow(q, z, rho, c, 1, k, j, i)
                                          + FromColumn(q, z, rho, c, 0, k, j, i) + FromColumn(q, z, rho, c, 1, k, j, i)
  {
    FacesAround(q, c, k, j, i);
    ZonesAround(Component(cemf, c), rho, c, k, j, i);
    if m.ndim == 2 && c != 3 { return; }
    var z := Component(cemf, c);
    hide Flux, Component, Back, Back2, ZoneAt, MassOfRow, MassOfColumn, EMFOfRow, EMFOfColumn, Upwinded;
    FourFaces(-EMFOfRow(q, c, 1, k, j, i), -EMFOfRow(q, c, 0, k, j, i), EMFOfColumn(q, c, 1, k, j, i),
              EMFOfColumn(q, c, 0, k, j, i), ZoneAt(z, c, 0, 0, k, j, i), ZoneAt(z, c, 1, 0, k, j, i),
              ZoneAt(z, c, 0, 1, k, j, i), ZoneAt(z, c, 1, 1, k, j, i), MassOfRow(rho, c, 1, k, j, i),
              MassOfRow(rho, c, 0, k, j, i), MassOfColumn(rho, c, 1, k, j, i), MassOfColumn(rho, c, 0, k, j, i));
  }

  lemma FourFaces(pb: real, p: real, ra: real, r: real, c: real, ca: real, cb: real, cab: real, fab: real, fa: real,
                  fba: real, fb: real)
    ensures 4.0 * Upwinded(Circ(pb, p, ra, r), pb, p, ra, r, c, ca, cb, cab, fab, fa, fba, fb)
            == (-p + if fa >= 0.0 then ra - ca else r - c) + (-pb + if fab >= 0.0 then ra - cab else r - cb)
               + (r + if fb >= 0.0 then -pb - cb else -p - c) + (ra + if fba >= 0.0 then -pb - cab else -p - ca)
  {
  }

  /** How many of its two faces at the edge mass leaves a zone through. */
  function Leaving(rho: Field, c: int, a: int, b: int, k: int, j: int, i: int): int {
    var x, y := MassOfRow(rho, c, b, k, j, i), MassOfColumn(rho, c, a, k, j, i);
    (if (if a == 1 then x >= 0.0 else x < 0.0) then 1 else 0)
    + (if (if b == 1 then y >= 0.0 else y < 0.0) then 1 else 0)
  }

  /** The two centred EMFs differ at most in the zone `a` and `b` steps back. */
  ghost predicate OnlyAt(z: Scalar, z': Scalar, c: int, a: int, b: int, k: int, j: int, i: int) {
    forall a', b' | 0 <= a' <= 1 && 0 <= b' <= 1 && (a' != a || b' != b) ::
      ZoneAt(z', c, a', b', k, j, i) == ZoneAt(z, c, a', b', k, j, i)
  }

  /** `n` times `x`, for the counts that occur. */
  function Multiple(n: int, x: real): real {
    if n == 0 then 0.0 else if n == 1 then x else if n == 2 then x + x else x + x + x
  }

  lemma Weigh(n: int, x: real)
    requires 0 <= n <= 3
    ensures n as real * x == Multiple(n, x)
  {
  }

  lemma ContactZone(q: FluxCT.Fluxes, z: Scalar, z': Scalar, rho: Field, c: int, a: int, b: int, k: int, j: int, i: int)
    requires 1 <= c <= 3 && 0 <= a <= 1 && 0 <= b <= 1 && OnlyAt(z, z', c, a, b, k, j, i)
    ensures 0 <= Leaving(rho, c, a, b, k, j, i) <= 2
    ensures FromRow(q, z', rho, c, 0, k, j, i) + FromRow(q, z', rho, c, 1, k, j, i)
            + FromColumn(q, z', rho, c, 0, k, j, i) + FromColumn(q, z', rho, c, 1, k, j, i)
            - (FromRow(q, z, rho, c, 0, k, j, i) + FromRow(q, z, rho, c, 1, k, j, i)
               + FromColumn(q, z, rho, c, 0, k, j, i) + FromColumn(q, z, rho, c, 1, k, j, i))
            == -Multiple(Leaving(rho, c, a, b, k, j, i), ZoneAt(z', c, a, b, k, j, i) - ZoneAt(z, c, a, b, k, j, i))
    ensures ZoneAt(z', c, 0, 0, k, j, i) + ZoneAt(z', c, 0, 1, k, j, i) + ZoneAt(z', c, 1, 0, k, j, i)
            + ZoneAt(z', c, 1, 1, k, j, i)
            - (ZoneAt(z, c, 0, 0, k, j, i) + ZoneAt(z, c, 0, 1, k, j, i) + ZoneAt(z, c, 1, 0, k, j, i)
               + ZoneAt(z, c, 1, 1, k, j, i))
            == ZoneAt(z', c, a, b, k, j, i) - ZoneAt(z, c, a, b, k, j, i)
  {
    hide ZoneAt, MassOfRow, MassOfColumn, EMFOfRow, EMFOfColumn;
    assert (a == 0 && b == 0) || ZoneAt(z', c, 0, 0, k, j, i) == ZoneAt(z, c, 0, 0, k, j, i);
    assert (a == 0 && b == 1) || ZoneAt(z', c, 0, 1, k, j, i) == ZoneAt(z, c, 0, 1, k, j, i);
    assert (a == 1 && b == 0) || ZoneAt(z', c, 1, 0, k, j, i) == ZoneAt(z, c, 1, 0, k, j, i);
    assert (a == 1 && b == 1) || ZoneAt(z', c, 1, 1, k, j, i) == ZoneAt(z, c, 1, 1, k, j, i);
  }

  lemma ZoneStep(m: Mesh, scheme: Scheme, q: FluxCT.Fluxes, cemf: Field, cemf': Field, rho: Field, c: int, a: int,
                 b: int, k: int, j: int, i: int)
    requires 1 <= c <= 3 && 0 <= a <= 1 && 0 <= b <= 1 && (m.ndim == 2 ==> c == 3)
    requires OnlyAt(Component(cemf, c), Component(cemf', c), c, a, b, k, j, i)
    ensures var change :=
            ZoneAt(Component(cemf', c), c, a, b, k, j, i) - ZoneAt(Component(cemf, c), c, a, b, k, j, i);
            var weight := match scheme case BS99 => 0 case GS05Zero => 1 case GS05C => Leaving(rho, c, a, b, k, j, i);
            && 0 <= weight <= 2
            && 4.0 * (EdgeAt(m, scheme, q, cemf', rho, c, k, j, i) - EdgeAt(m, scheme, q, cemf, rho, c, k, j, i))
               == -Multiple(weight, change)
  {
    hide EdgeAt, Component, ZoneAt, FromRow, FromColumn, Leaving;
    EdgeReads(m, scheme, q, cemf, rho, c, k, j, i);
    EdgeReads(m, scheme, q, cemf', rho, c, k, j, i);
    ContactZone(q, Component(cemf, c), Component(cemf', c), rho, c, a, b, k, j, i);
  }

  /** How an edge answers to the centred EMF of one zone: not at all (the averages alone), by a quarter of the
      change, with the other sign (the centred correction), or by a quarter for each of the zone's two faces at
      the edge mass leaves it through (the contact correction). */
  lemma ZoneResponse(m: Mesh, scheme: Scheme, q: FluxCT.Fluxes, cemf: Field, cemf': Field, rho: Field, c: int, a: int,
                     b: int, k: int, j: int, i: int)
    requires 1 <= c <= 3 && 0 <= a <= 1 && 0 <= b <= 1 && (m.ndim == 2 ==> c == 3)
    requires OnlyAt(Component(cemf, c), Component(cemf', c), c, a, b, k, j, i)
    ensures var change :=
            ZoneAt(Component(cemf', c), c, a, b, k, j, i) - ZoneAt(Component(cemf, c), c, a, b, k, j, i);
            var weight :=
            match scheme case BS99 => 0 case GS05Zero => 1 case GS05C => Leaving(rho, c, a, b, k, j, i);
            4.0 * (EdgeAt(m, scheme, q, cemf', rho, c, k, j, i) - EdgeAt(m, scheme, q, cemf, rho, c, k, j, i))
            == -(weight as real * change)
  {
    hide EdgeAt, Component, ZoneAt, Leaving, Multiple;
    ZoneStep(m, scheme, q, cemf, cemf', rho, c, a, b, k, j, i);
    var weight := match scheme case BS99 => 0 case GS05Zero => 1 case GS05C => Leaving(rho, c, a, b, k, j, i);
    Weigh(weight, ZoneAt(Component(cemf', c), c, a, b, k, j, i) - ZoneAt(Component(cemf, c), c, a, b, k, j, i));
  }

  /** So the contact scheme reads a zone exactly when mass leaves it through a face at the edge: never the zone
      downwind along both directions. */
  lemma ReadIff(m: Mesh, q: FluxCT.Fluxes, cemf: Field, cemf': Field, rho: Field, c: int, a: int, b: int, k: int,
                j: int, i: int)
    requires 1 <= c <= 3 && 0 <= a <= 1 && 0 <= b <= 1 && (m.ndim == 2 ==> c == 3)
    requires OnlyAt(Component(cemf, c), Component(cemf', c), c, a, b, k, j, i)
    requires ZoneAt(Component(cemf', c), c, a, b, k, j, i) != ZoneAt(Component(cemf, c), c, a, b, k, j, i)
    ensures var x, y := MassOfRow(rho, c, b, k, j, i), MassOfColumn(rho, c, a, k, j, i);
            EdgeAt(m, GS05C, q, cemf', rho, c, k, j, i) == EdgeAt(m, GS05C, q, cemf, rho, c, k, j, i)
            <==> (if a == 1 then x < 0.0 else x >= 0.0) && (if b == 1 then y < 0.0 else y >= 0.0)
  {
    hide EdgeAt, ZoneAt, MassOfRow, MassOfColumn, Component, OnlyAt;
    ZoneStep(m, GS05C, q, cemf, cemf', rho, c, a, b, k, j, i);
  }

  /** The change `t` of one face's EMF, all others kept. */
  ghost predicate OnlyRow(q: FluxCT.Fluxes, q': FluxCT.Fluxes, c: int, b: int, t: real, k: int, j: int, i: int) {
    && EMFOfRow(q', c, b, k, j, i) == EMFOfRow(q, c, b, k, j, i) + t
    && EMFOfRow(q', c, 1 - b, k, j, i) == EMFOfRow(q, c, 1 - b, k, j, i)
    && EMFOfColumn(q', c, 0, k, j, i) == EMFOfColumn(q, c, 0, k, j, i)
    && EMFOfColumn(q', c, 1, k, j, i) == EMFOfColumn(q, c, 1, k, j, i)
  }

  ghost predicate OnlyColumn(q: FluxCT.Fluxes, q': FluxCT.Fluxes, c: int, a: int, t: real, k: int, j: int, i: int) {
    && EMFOfColumn(q', c, a, k, j, i) == EMFOfColumn(q, c, a, k, j, i) + t
    && EMFOfColumn(q', c, 1 - a, k, j, i) == EMFOfColumn(q, c, 1 - a, k, j, i)
    && EMFOfRow(q', c, 0, k, j, i) == EMFOfRow(q, c, 0, k, j, i)
    && EMFOfRow(q', c, 1, k, j, i) == EMFOfRow(q, c, 1, k, j, i)
  }

  /** How many of the two zones beside a face send mass across it and through the other face they have at the
      edge: the faces of columns that take their mass from row `b`, and the other way round. */
  function FedByRow(rho: Field, c: int, b: int, k: int, j: int, i: int): int {
    var y0, y1 := MassOfColumn(rho, c, 0, k, j, i), MassOfColumn(rho, c, 1, k, j, i);
    (if (if b == 1 then y0 >= 0.0 else y0 < 0.0) then 1 else 0)
    + (if (if b == 1 then y1 >= 0.0 else y1 < 0.0) then 1 else 0)
  }

  function FedByColumn(rho: Field, c: int, a: int, k: int, j: int, i: int): int {
    var x0, x1 := MassOfRow(rho, c, 0, k, j, i), MassOfRow(rho, c, 1, k, j, i);
    (if (if a == 1 then x0 >= 0.0 else x0 < 0.0) then 1 else 0)
    + (if (if a == 1 then x1 >= 0.0 else x1 < 0.0) then 1 else 0)
  }

  /** How it answers to the EMF of one face: a quarter, a half, or a quarter and another for every face across
      which mass comes from the face's own row (or column). */
  lemma FaceResponse(m: Mesh, scheme: Scheme, q: FluxCT.Fluxes, q': FluxCT.Fluxes, cemf: Field, rho: Field, c: int,
                     row: bool, side: int, t: real, k: int, j: int, i: int)
    requires 1 <= c <= 3 && 0 <= side <= 1 && (m.ndim == 2 ==> c == 3)
    requires if row then OnlyRow(q, q', c, side, t, k, j, i) else OnlyColumn(q, q', c, side, t, k, j, i)
    ensures var weight :=
            match scheme
            case BS99 => 1
            case GS05Zero => 2
            case GS05C => 1 + (if row then FedByRow(rho, c, side, k, j, i) else FedByColumn(rho, c, side, k, j, i));
            4.0 * (EdgeAt(m, scheme, q', cemf, rho, c, k, j, i) - EdgeAt(m, scheme, q, cemf, rho, c, k, j, i))
            == weight as real * t
  {
    hide EdgeAt, Component, ZoneAt, FromRow, FromColumn, FedByRow, FedByColumn, EMFOfRow, EMFOfColumn;
    EdgeReads(m, scheme, q, cemf, rho, c, k, j, i);
    EdgeReads(m, scheme, q', cemf, rho, c, k, j, i);
    if row {
      ContactRow(q, q', Component(cemf, c), rho, c, side, t, k, j, i);
      Weigh(1 + FedByRow(rho, c, side, k, j, i), t);
    } else {
      ContactColumn(q, q', Component(cemf, c), rho, c, side, t, k, j, i);
      Weigh(1 + FedByColumn(rho, c, side, k, j, i), t);
    }
  }

  lemma ContactRow(q: FluxCT.Fluxes, q': FluxCT.Fluxes, z: Scalar, rho: Field, c: int, b: int, t: real, k: int, j: int,
                   i: int)
    requires 1 <= c <= 3 && 0 <= b <= 1 && OnlyRow(q, q', c, b, t, k, j, i)
    ensures 0 <= FedByRow(rho, c, b, k, j, i) <= 2
    ensures EMFOfRow(q', c, 0, k, j, i) + EMFOfRow(q', c, 1, k, j, i)
            == EMFOfRow(q, c, 0, k, j, i) + EMFOfRow(q, c, 1, k, j, i) + t
    ensures FromRow(q', z, rho, c, 0, k, j, i) + FromRow(q', z, rho, c, 1, k, j, i)
            + FromColumn(q', z, rho, c, 0, k, j, i) + FromColumn(q', z, rho, c, 1, k, j, i)
            - (FromRow(q, z, rho, c, 0, k, j, i) + FromRow(q, z, rho, c, 1, k, j, i)
               + FromColumn(q, z, rho, c, 0, k, j, i) + FromColumn(q, z, rho, c, 1, k, j, i))
            == Multiple(1 + FedByRow(rho, c, b, k, j, i), t)
  {
    hide ZoneAt, MassOfRow, MassOfColumn, EMFOfRow, EMFOfColumn;
  }

  lemma ContactColumn(q: FluxCT.Fluxes, q': FluxCT.Fluxes, z: Scalar, rho: Field, c: int, a: int, t: real, k: int,
                      j: int, i: int)
    requires 1 <= c <= 3 && 0 <= a <= 1 && OnlyColumn(q, q', c, a, t, k, j, i)
    ensures 0 <= FedByColumn(rho, c, a, k, j, i) <= 2
    ensures EMFOfColumn(q', c, 0, k, j, i) + EMFOfColumn(q', c, 1, k, j, i)
            == EMFOfColumn(q, c, 0, k, j, i) + EMFOfColumn(q, c, 1, k, j, i) + t
    ensures FromRow(q', z, rho, c, 0, k, j, i) + FromRow(q', z, rho, c, 1, k, j, i)
            + FromColumn(q', z, rho, c, 0, k, j, i) + FromColumn(q', z, rho, c, 1, k, j, i)
            - (FromRow(q, z, rho, c, 0, k, j, i) + FromRow(q, z, rho, c, 1, k, j, i)
               + FromColumn(q, z, rho, c, 0, k, j, i) + FromColumn(q, z, rho, c, 1, k, j, i))
            == Multiple(1 + FedByColumn(rho, c, a, k, j, i), t)
  {
    hide ZoneAt, MassOfRow, MassOfColumn, EMFOfRow, EMFOfColumn;
  }

  /** With mass moving up along every face of the edge, the zone at the edge's own index is downwind along both
      directions and not read; with mass moving down along all, the zone one step back along both. */
  lemma DownwindZoneIsNotRead(m: Mesh, q: FluxCT.Fluxes, cemf: Field, cemf': Field, rho: Field, c: int, up: bool,
                              k: int, j: int, i: int)
    requires 1 <= c <= 3 && (m.ndim == 2 ==> c == 3)
    requires var down := if up then 0 else 1; OnlyAt(Component(cemf, c), Component(cemf', c), c, down, down, k, j, i)
    requires forall x | 0 <= x <= 1 ::
               (MassOfRow(rho, c, x, k, j, i) >= 0.0) == up && (MassOfColumn(rho, c, x, k, j, i) >= 0.0) == up
    ensures EdgeAt(m, GS05C, q, cemf', rho, c, k, j, i) == EdgeAt(m, GS05C, q, cemf, rho, c, k, j, i)
  {
    var down := if up then 0 else 1;
    hide EdgeAt, ZoneAt, Component, OnlyAt, MassOfRow, MassOfColumn;
    assert (MassOfRow(rho, c, down, k, j, i) >= 0.0) == up && (MassOfColumn(rho, c, down, k, j, i) >= 0.0) == up;
    assert Leaving(rho, c, down, down, k, j, i) == 0;
    ZoneStep(m, GS05C, q, cemf, cemf', rho, c, down, down, k, j, i);
  }

  /** The container CalculateEMF fills: these values on every edge of an interior zone, and elsewhere what was
      there. */
  lemma EdgesFilled(m: Mesh, scheme: Scheme, q: FluxCT.Fluxes, cemf: Field, rho: Field, stale: Field, k: int, j: int,
                    i: int)
    requires m.Ok()
    ensures var e := EdgeEMF(m, scheme, q, cemf, rho, stale);
            if m.Ks() <= k <= (if m.ndim > 2 then m.Ke() + 1 else m.Ke()) && m.Js() <= j <= m.Je() + 1
               && m.Is() <= i <= m.Ie() + 1
            then && e.x1(k, j, i) == EdgeAt(m, scheme, q, cemf, rho, 1, k, j, i)
                 && e.x2(k, j, i) == EdgeAt(m, scheme, q, cemf, rho, 2, k, j, i)
                 && e.x3(k, j, i) == EdgeAt(m, scheme, q, cemf, rho, 3, k, j, i)
            else e.x1(k, j, i) == stale.x1(k, j, i) && e.x2(k, j, i) == stale.x2(k, j, i)
                 && e.x3(k, j, i) == stale.x3(k, j, i)
  {
    assert FluxCT.EdgeBox(m).Has(k, j, i) <==>
           && m.Ks() <= k <= (if m.ndim > 2 then m.Ke() + 1 else m.Ke())
           && m.Js() <= j <= m.Je() + 1 && m.Is() <= i <= m.Ie() + 1;
    hide EdgeAt, FluxCT.EdgeBox;
    assert EdgeComponent(m, scheme, q, cemf, rho, 1, stale.x1)(k, j, i)
        == if FluxCT.EdgeBox(m).Has(k, j, i) then EdgeAt(m, scheme, q, cemf, rho, 1, k, j, i) else stale.x1(k, j, i);
    assert EdgeComponent(m, scheme, q, cemf, rho, 2, stale.x2)(k, j, i)
        == if FluxCT.EdgeBox(m).Has(k, j, i) then EdgeAt(m, scheme, q, cemf, rho, 2, k, j, i) else stale.x2(k, j, i);
    assert EdgeComponent(m, scheme, q, cemf, rho, 3, stale.x3)(k, j, i)
        == if FluxCT.EdgeBox(m).Has(k, j, i) then EdgeAt(m, scheme, q, cemf, rho, 3, k, j, i) else stale.x3(k, j, i);
  }
}
