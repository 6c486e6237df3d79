/** The divergence clean-up (b_cleanup): the Poisson operator its solvers are given, and the
    correction applied to the face field once a solution is found. */
module Cleanup {
  import opened Grid
  import opened FaceCT
  import opened GridSums

  // -- The operator

  /** Flux of the potential through an X1 face, and through X2 and X3 faces (divided last). */
  function FaceFlux1(d: real, dx: real, um: real, u: real): real
    requires dx > 0.0
  {
    d / dx * (um - u)
  }
  function FaceFlux(d: real, dx: real, um: real, u: real): real
    requires dx > 0.0
  {
    d * (um - u) / dx
  }

  /** The fluxes after CalculateFluxes: every face of an interior zone, X3 in 3D only. */
  function Fluxed(m: Mesh, d: Field, u: Scalar, stale: Field): Field
    requires m.Ok()
  {
    var r1, r2, r3 := m.FaceRange(1), m.FaceRange(2), m.FaceRange(3);
    Field((k, j, i) => if r1.Has(k, j, i) then Flux1At(m, d, u, k, j, i) else stale.x1(k, j, i),
          (k, j, i) => if r2.Has(k, j, i) then Flux2At(m, d, u, k, j, i) else stale.x2(k, j, i),
          (k, j, i) => if m.ndim > 2 && r3.Has(k, j, i) then Flux3At(m, d, u, k, j, i) else stale.x3(k, j, i))
  }

  function Flux1At(m: Mesh, d: Field, u: Scalar, k: int, j: int, i: int): real
    requires m.Ok()
  {
    FaceFlux1(d.x1(k, j, i), m.dx1, u(k, j, i - 1), u(k, j, i))
  }
  function Flux2At(m: Mesh, d: Field, u: Scalar, k: int, j: int, i: int): real
    requires m.Ok()
  {
    FaceFlux(d.x2(k, j, i), m.dx2, u(k, j - 1, i), u(k, j, i))
  }
  function Flux3At(m: Mesh, d: Field, u: Scalar, k: int, j: int, i: int): real
    requires m.Ok()
  {
    FaceFlux(d.x3(k, j, i), m.dx3, u(k - 1, j, i), u(k, j, i))
  }

  function Damp(alpha: real, u: real): real { -alpha * u }

  /** One zone of FluxMultiplyMatrix, accumulated direction by direction. */
  function Multiply(m: Mesh, alpha: real, u: real, p: real, p': real, q: real, q': real, r: real, r': real): real
    requires m.Ok()
  {
    Damp(alpha, u) + Share(m, p, p', m.A1()) + Share(m, q, q', m.A2())
        + if m.ndim > 2 then Share(m, r, r', m.A3()) else 0.0
  }

  /** Net flux through two faces of area `a`, per volume. */
  function Share(m: Mesh, p: real, p': real, a: real): real
    requires m.Ok()
  {
    assert m.Vol() > 0.0;
    Over(p, p', a, m.Vol())
  }

  function Over(p: real, p': real, a: real, v: real): real
    requires v > 0.0
  {
    (p * a - p' * a) / v
  }

  function MultiplyAt(m: Mesh, alpha: real, u: Scalar, f: Field, k: int, j: int, i: int): real
    requires m.Ok()
  {
    Multiply(m, alpha, u(k, j, i), f.x1(k, j, i), f.x1(k, j, i + 1), f.x2(k, j, i), f.x2(k, j + 1, i),
             f.x3(k, j, i), Above(m, f.x3, k, j, i))
  }

  /** The output after FluxMultiplyMatrix. */
  function Multiplied(m: Mesh, alpha: real, u: Scalar, f: Field, stale: Scalar): Scalar
    requires m.Ok()
  {
    (k, j, i) => if m.Interior(k, j, i) then MultiplyAt(m, alpha, u, f, k, j, i) else stale(k, j, i)
  }

  /** 1 / dx^2 in direction `d` (GetEffectiveInverseDx2 on a uniform grid), 0 where the mesh is flat. */
  function InverseDx2(m: Mesh, d: int): real
    requires m.Ok()
  {
    if d == 1 then InverseSquare(m.dx1) else if d == 2 then InverseSquare(m.dx2)
    else if m.ndim > 2 then InverseSquare(m.dx3) else 0.0
  }

  function InverseSquare(d: real): (r: real)
    requires d > 0.0
    ensures r > 0.0
  {
    Product(Inverse(d), Inverse(d))
  }

  function Product(p: real, q: real): (r: real)
    ensures p > 0.0 && q > 0.0 ==> r > 0.0
  {
    p * q
  }

  function Inverse(d: real): (r: real)
    requires d > 0.0
    ensures r * d == 1.0 && r > 0.0
  {
    1.0 / d
  }

  /** Second difference with coefficients on the two faces. */
  function Second(w: real, d: real, d': real, um: real, u: real, up: real): real {
    w * (d * (um - u) - d' * (u - up))
  }

  /** What the two kernels amount to: the divergence of D grad u, less alpha u. */
  function A(m: Mesh, alpha: real, d: Field, u: Scalar, k: int, j: int, i: int): real
    requires m.Ok()
  {
    Damp(alpha, u(k, j, i))
    + Second(InverseDx2(m, 1), d.x1(k, j, i), d.x1(k, j, i + 1), u(k, j, i - 1), u(k, j, i), u(k, j, i + 1))
    + Second(InverseDx2(m, 2), d.x2(k, j, i), d.x2(k, j + 1, i), u(k, j - 1, i), u(k, j, i), u(k, j + 1, i))
    + Second(InverseDx2(m, 3), d.x3(k, j, i), d.x3(k + 1, j, i), u(k - 1, j, i), u(k, j, i), u(k + 1, j, i))
  }

  lemma ShareIsSecond1(m: Mesh, d: real, d': real, um: real, u: real, up: real)
    requires m.Ok()
    ensures Share(m, FaceFlux1(d, m.dx1, um, u), FaceFlux1(d', m.dx1, u, up), m.A1())
            == Second(InverseDx2(m, 1), d, d', um, u, up)
  {
  }

  lemma ShareIsSecond2(m: Mesh, d: real, d': real, um: real, u: real, up: real)
    requires m.Ok()
    ensures Share(m, FaceFlux(d, m.dx2, um, u), FaceFlux(d', m.dx2, u, up), m.A2())
            == Second(InverseDx2(m, 2), d, d', um, u, up)
  {
  }

  lemma ShareIsSecond3(m: Mesh, d: real, d': real, um: real, u: real, up: real)
    requires m.Ok() && m.ndim > 2
    ensures Share(m, FaceFlux(d, m.dx3, um, u), FaceFlux(d', m.dx3, u, up), m.A3())
            == Second(InverseDx2(m, 3), d, d', um, u, up)
  {
  }

  /** The kernels compute the operator in every interior zone. */
  lemma KernelsApplyA(m: Mesh, alpha: real, d: Field, u: Scalar, stale: Field, out: Scalar, k: int, j: int, i: int)
    requires m.Ok() && m.Interior(k, j, i)
    ensures Multiplied(m, alpha, u, Fluxed(m, d, u, stale), out)(k, j, i) == A(m, alpha, d, u, k, j, i)
  {
    hide FaceFlux1, FaceFlux, InverseDx2, Second, Share;
    m.FacesOfZone(k, j, i);
    var f := Fluxed(m, d, u, stale);
    assert f.x1(k, j, i) == Flux1At(m, d, u, k, j, i) && f.x1(k, j, i + 1) == Flux1At(m, d, u, k, j, i + 1);
    assert f.x2(k, j, i) == Flux2At(m, d, u, k, j, i) && f.x2(k, j + 1, i) == Flux2At(m, d, u, k, j + 1, i);
    ShareIsSecond1(m, d.x1(k, j, i), d.x1(k, j, i + 1), u(k, j, i - 1), u(k, j, i), u(k, j, i + 1));
    ShareIsSecond2(m, d.x2(k, j, i), d.x2(k, j + 1, i), u(k, j - 1, i), u(k, j, i), u(k, j + 1, i));
    if m.ndim > 2 {
      assert f.x3(k, j, i) == Flux3At(m, d, u, k, j, i) && f.x3(k + 1, j, i) == Flux3At(m, d, u, k + 1, j, i);
      ShareIsSecond3(m, d.x3(k, j, i), d.x3(k + 1, j, i), u(k - 1, j, i), u(k, j, i), u(k + 1, j, i));
    } else {
      FlatSecond(m, d.x3(k, j, i), d.x3(k + 1, j, i), u(k - 1, j, i), u(k, j, i), u(k + 1, j, i));
    }
    assert MultiplyAt(m, alpha, u, f, k, j, i) == A(m, alpha, d, u, k, j, i);
  }

  lemma FlatSecond(m: Mesh, d: real, d': real, um: real, u: real, up: real)
    requires m.Ok() && m.ndim == 2
    ensures Second(InverseDx2(m, 3), d, d', um, u, up) == 0.0
  {
  }

  // -- The operator on a periodic grid

  /** Ghost zones next to the interior repeat the zones across it. */
  ghost predicate PeriodicZones(m: Mesh, u: Scalar) {
    && (forall k, j | m.Ks() <= k <= m.Ke() && m.Js() <= j <= m.Je() ::
        u(k, j, m.Is() - 1) == u(k, j, m.Ie()) && u(k, j, m.Ie() + 1) == u(k, j, m.Is()))
    && (forall k, i | m.Ks() <= k <= m.Ke() && m.Is() <= i <= m.Ie() ::
        u(k, m.Js() - 1, i) == u(k, m.Je(), i) && u(k, m.Je() + 1, i) == u(k, m.Js(), i))
    && (m.ndim > 2 ==> forall j, i | m.Js() <= j <= m.Je() && m.Is() <= i <= m.Ie() ::
        u(m.Ks() - 1, j, i) == u(m.Ke(), j, i) && u(m.Ke() + 1, j, i) == u(m.Ks(), j, i))
  }

  /** The first and last faces of the interior are the same face. */
  ghost predicate PeriodicFaces(m: Mesh, b: Field) {
    && (forall k, j | m.Ks() <= k <= m.Ke() && m.Js() <= j <= m.Je() :: b.x1(k, j, m.Ie() + 1) == b.x1(k, j, m.Is()))
    && (forall k, i | m.Ks() <= k <= m.Ke() && m.Is() <= i <= m.Ie() :: b.x2(k, m.Je() + 1, i) == b.x2(k, m.Js(), i))
    && (m.ndim > 2 ==> forall j, i | m.Js() <= j <= m.Je() && m.Is() <= i <= m.Ie() ::
        b.x3(m.Ke() + 1, j, i) == b.x3(m.Ks(), j, i))
  }

  function AField(m: Mesh, alpha: real, d: Field, u: Scalar): Scalar
    requires m.Ok()
  {
    (k, j, i) => A(m, alpha, d, u, k, j, i)
  }

  function DotAt(v: Scalar, u: Scalar, k: int, j: int, i: int): real { Product(v(k, j, i), u(k, j, i)) }

  function Dot(v: Scalar, u: Scalar): Scalar { (k, j, i) => DotAt(v, u, k, j, i) }

  /** <v, u>, the plain inner product over interior zones. */
  function Inner(m: Mesh, v: Scalar, u: Scalar): real
    requires m.Ok()
  {
    Total(m, Dot(v, u))
  }

  // A quantity on the faces of direction `dir`: coefficient times a function of the two zones.

  function Below(s: Scalar, dir: int, k: int, j: int, i: int): real {
    s(if dir == 3 then k - 1 else k, if dir == 2 then j - 1 else j, if dir == 1 then i - 1 else i)
  }

  function OnFace(d: Field, dir: int, k: int, j: int, i: int): real {
    if dir == 1 then d.x1(k, j, i) else if dir == 2 then d.x2(k, j, i) else d.x3(k, j, i)
  }

  function Flow(w: real, d: real, vm: real, u: real, um: real): real {
    w * d * (vm * (u - um))
  }

  function FlowAt(m: Mesh, d: Field, v: Scalar, u: Scalar, dir: int, k: int, j: int, i: int): real
    requires m.Ok()
  {
    Flow(InverseDx2(m, dir), OnFace(d, dir, k, j, i), Below(v, dir, k, j, i), u(k, j, i), Below(u, dir, k, j, i))
  }

  function FlowField(m: Mesh, d: Field, v: Scalar, u: Scalar, dir: int): Scalar
    requires m.Ok()
  {
    (k, j, i) => FlowAt(m, d, v, u, dir, k, j, i)
  }

  /** The energy of two potentials: alpha v u, and D times the product of their gradients on the lower
      face of the zone in each direction. */
  function Slopes(w: real, d: real, v: real, vm: real, u: real, um: real): real {
    Product(Product(w, d), Product(v - vm, u - um))
  }

  function EnergyAt(m: Mesh, alpha: real, d: Field, v: Scalar, u: Scalar, k: int, j: int, i: int): real
    requires m.Ok()
  {
    Product(alpha, Product(v(k, j, i), u(k, j, i)))
    + Slopes(InverseDx2(m, 1), d.x1(k, j, i), v(k, j, i), v(k, j, i - 1), u(k, j, i), u(k, j, i - 1))
    + Slopes(InverseDx2(m, 2), d.x2(k, j, i), v(k, j, i), v(k, j - 1, i), u(k, j, i), u(k, j - 1, i))
    + Slopes(InverseDx2(m, 3), d.x3(k, j, i), v(k, j, i), v(k - 1, j, i), u(k, j, i), u(k - 1, j, i))
  }

  function EnergyField(m: Mesh, alpha: real, d: Field, v: Scalar, u: Scalar): Scalar
    requires m.Ok()
  {
    (k, j, i) => EnergyAt(m, alpha, d, v, u, k, j, i)
  }

  function Energy(m: Mesh, alpha: real, d: Field, v: Scalar, u: Scalar): real
    requires m.Ok()
  {
    Total(m, EnergyField(m, alpha, d, v, u))
  }

  function Step(g: Scalar, dir: int): Scalar {
    (k, j, i) => StepAt(g, dir, k, j, i)
  }

  function StepAt(g: Scalar, dir: int, k: int, j: int, i: int): real {
    g(if dir == 3 then k + 1 else k, if dir == 2 then j + 1 else j, if dir == 1 then i + 1 else i) - g(k, j, i)
  }

  lemma StepsAreDifferences(m: Mesh, g: Scalar, dir: int)
    ensures Differences(m, Step(g, dir), g, dir)
  {
  }

  lemma SecondByParts(w: real, d: real, d': real, v: real, vm: real, um: real, u: real, up: real)
    ensures v * Second(w, d, d', um, u, up)
            == -Slopes(w, d, v, vm, u, um) + (Flow(w, d', v, up, u) - Flow(w, d, vm, u, um))
  {
  }

  lemma FlowIsClosed(m: Mesh, d: Field, v: Scalar, u: Scalar, dir: int)
    requires m.Ok() && 1 <= dir <= 3 && PeriodicZones(m, v) && PeriodicZones(m, u) && PeriodicFaces(m, d)
    ensures Closed(m, FlowField(m, d, v, u, dir), dir)
  {
  }

  lemma StepOfFlow(m: Mesh, d: Field, v: Scalar, u: Scalar, dir: int, k: int, j: int, i: int)
    requires m.Ok() && 1 <= dir <= 3
    ensures var k', j' := if dir == 3 then k + 1 else k, if dir == 2 then j + 1 else j;
            var i' := if dir == 1 then i + 1 else i;
            var w := InverseDx2(m, dir);
            Step(FlowField(m, d, v, u, dir), dir)(k, j, i)
            == Flow(w, OnFace(d, dir, k', j', i'), v(k, j, i), u(k', j', i'), u(k, j, i))
             - Flow(w, OnFace(d, dir, k, j, i), Below(v, dir, k, j, i), u(k, j, i), Below(u, dir, k, j, i))
  {
  }

  lemma ByPartsPointwise(m: Mesh, alpha: real, d: Field, v: Scalar, u: Scalar, k: int, j: int, i: int)
    requires m.Ok()
    ensures Dot(v, AField(m, alpha, d, u))(k, j, i)
         == -EnergyField(m, alpha, d, v, u)(k, j, i) + Step(FlowField(m, d, v, u, 1), 1)(k, j, i)
          + Step(FlowField(m, d, v, u, 2), 2)(k, j, i) + Step(FlowField(m, d, v, u, 3), 3)(k, j, i)
  {
    hide Second, Flow, Slopes, InverseDx2;
    assert Dot(v, AField(m, alpha, d, u))(k, j, i) == DotAt(v, AField(m, alpha, d, u), k, j, i);
    assert EnergyField(m, alpha, d, v, u)(k, j, i) == EnergyAt(m, alpha, d, v, u, k, j, i);
    StepOfFlow(m, d, v, u, 1, k, j, i); StepOfFlow(m, d, v, u, 2, k, j, i); StepOfFlow(m, d, v, u, 3, k, j, i);
    hide Product, Damp, Step, FlowField;
    ByPartsAt(alpha, InverseDx2(m, 1), InverseDx2(m, 2), InverseDx2(m, 3),
              d.x1(k, j, i), d.x1(k, j, i + 1), d.x2(k, j, i), d.x2(k, j + 1, i), d.x3(k, j, i), d.x3(k + 1, j, i),
              v(k, j, i), v(k, j, i - 1), v(k, j - 1, i), v(k - 1, j, i),
              u(k, j, i), u(k, j, i - 1), u(k, j, i + 1), u(k, j - 1, i), u(k, j + 1, i), u(k - 1, j, i),
              u(k + 1, j, i));
  }

  lemma ByPartsAt(alpha: real, w1: real, w2: real, w3: real, d1: real, d1': real, d2: real, d2': real, d3: real,
                  d3': real,
                  v: real, v1: real, v2: real, v3: real,
                  u: real, u1: real, u1': real, u2: real, u2': real, u3: real, u3': real)
    ensures Product(v, Damp(alpha, u) + Second(w1, d1, d1', u1, u, u1') + Second(w2, d2, d2', u2, u, u2')
                       + Second(w3, d3, d3', u3, u, u3'))
         == -(Product(alpha, Product(v, u)) + Slopes(w1, d1, v, v1, u, u1) + Slopes(w2, d2, v, v2, u, u2)
              + Slopes(w3, d3, v, v3, u, u3))
          + (Flow(w1, d1', v, u1', u) - Flow(w1, d1, v1, u, u1)) + (Flow(w2, d2', v, u2', u) - Flow(w2, d2, v2, u, u2))
          + (Flow(w3, d3', v, u3', u) - Flow(w3, d3, v3, u, u3))
  {
    hide Second, Flow, Slopes;
    SecondByParts(w1, d1, d1', v, v1, u1, u, u1');
    SecondByParts(w2, d2, d2', v, v2, u2, u, u2');
    SecondByParts(w3, d3, d3', v, v3, u3, u, u3');
    Spread4(v, Damp(alpha, u), Second(w1, d1, d1', u1, u, u1'), Second(w2, d2, d2', u2, u, u2'),
            Second(w3, d3, d3', u3, u, u3'));
    assert v * Damp(alpha, u) == -Product(alpha, Product(v, u));
  }

  lemma Spread4(p: real, a: real, b: real, c: real, d: real)
    ensures p * (a + b + c + d) == p * a + p * b + p * c + p * d
  {
  }

  /** <v, A u> is minus the energy of the pair: summation by parts, with no boundary term. */
  lemma InnerIsEnergy(m: Mesh, alpha: real, d: Field, v: Scalar, u: Scalar)
    requires m.Ok() && PeriodicZones(m, v) && PeriodicZones(m, u) && PeriodicFaces(m, d)
    ensures Inner(m, v, AField(m, alpha, d, u)) == -Energy(m, alpha, d, v, u)
  {
    hide PeriodicZones, PeriodicFaces, FlowField, Total, Differences, Closed, Step, AField, Dot, EnergyField;
    var g1, g2, g3 := FlowField(m, d, v, u, 1), FlowField(m, d, v, u, 2), FlowField(m, d, v, u, 3);
    FlowIsClosed(m, d, v, u, 1); FlowIsClosed(m, d, v, u, 2); FlowIsClosed(m, d, v, u, 3);
    StepsAreDifferences(m, g1, 1); StepsAreDifferences(m, g2, 2); StepsAreDifferences(m, g3, 3);
    var e := EnergyField(m, alpha, d, v, u);
    var h, h': Scalar := Dot(v, AField(m, alpha, d, u)), (k, j, i) => -e(k, j, i);
    forall k, j, i | m.Interior(k, j, i)
      ensures h(k, j, i) == h'(k, j, i) + Step(g1, 1)(k, j, i) + Step(g2, 2)(k, j, i) + Step(g3, 3)(k, j, i)
    {
      ByPartsPointwise(m, alpha, d, v, u, k, j, i);
    }
    ByParts(m, h, h', Step(g1, 1), Step(g2, 2), Step(g3, 3), g1, g2, g3);
    TotalOfMinus(m, e, h');
  }

  lemma TotalOfMinus(m: Mesh, f: Scalar, g: Scalar)
    requires m.Ok() && forall k, j, i {:trigger g(k, j, i)} | m.Interior(k, j, i) :: g(k, j, i) == -f(k, j, i)
    ensures Total(m, g) == -Total(m, f)
  {
    hide Total;
    TotalCombines(m, f, f, g, -1.0, 0.0);
  }

  lemma TotalOfSame(m: Mesh, f: Scalar, g: Scalar)
    requires m.Ok() && forall k, j, i {:trigger g(k, j, i)} | m.Interior(k, j, i) :: g(k, j, i) == f(k, j, i)
    ensures Total(m, g) == Total(m, f)
  {
    hide Total;
    TotalCombines(m, f, f, g, 1.0, 0.0);
  }

  /** Self-adjoint: <v, A u> = <u, A v>. */
  lemma SelfAdjoint(m: Mesh, alpha: real, d: Field, v: Scalar, u: Scalar)
    requires m.Ok() && PeriodicZones(m, v) && PeriodicZones(m, u) && PeriodicFaces(m, d)
    ensures Inner(m, v, AField(m, alpha, d, u)) == Inner(m, u, AField(m, alpha, d, v))
  {
    hide PeriodicZones, PeriodicFaces, Inner, AField, Total;
    InnerIsEnergy(m, alpha, d, v, u);
    InnerIsEnergy(m, alpha, d, u, v);
    EnergyIsSymmetric(m, alpha, d, v, u);
  }

  lemma EnergyIsSymmetric(m: Mesh, alpha: real, d: Field, v: Scalar, u: Scalar)
    requires m.Ok()
    ensures Energy(m, alpha, d, v, u) == Energy(m, alpha, d, u, v)
  {
    hide Total;
    forall k, j, i ensures EnergyField(m, alpha, d, u, v)(k, j, i) == EnergyField(m, alpha, d, v, u)(k, j, i) {
      assert EnergyAt(m, alpha, d, v, u, k, j, i) == EnergyAt(m, alpha, d, u, v, k, j, i);
    }
    TotalOfSame(m, EnergyField(m, alpha, d, v, u), EnergyField(m, alpha, d, u, v));
  }

  ghost predicate NonNegative(m: Mesh, d: Field) {
    forall k, j, i :: d.x1(k, j, i) >= 0.0 && d.x2(k, j, i) >= 0.0 && d.x3(k, j, i) >= 0.0
  }

  lemma SlopesSigned(w: real, d: real, u: real, um: real)
    requires w >= 0.0 && d >= 0.0
    ensures Slopes(w, d, u, um, u, um) >= 0.0
    ensures w > 0.0 && d > 0.0 && Slopes(w, d, u, um, u, um) == 0.0 ==> u == um
  {
    Square(u - um);
    ProductSigned(w, d);
    ProductSigned(Product(w, d), Product(u - um, u - um));
  }

  lemma ProductSigned(p: real, q: real)
    requires p >= 0.0 && q >= 0.0
    ensures Product(p, q) >= 0.0
  {
  }

  lemma Square(x: real)
    ensures Product(x, x) >= 0.0 && (x != 0.0 ==> Product(x, x) > 0.0)
  {
    if x < 0.0 {
      assert Product(x, x) == Product(-x, -x);
    }
  }

  /** Negative semidefinite for D >= 0 and alpha >= 0. */
  lemma NegativeSemidefinite(m: Mesh, alpha: real, d: Field, u: Scalar)
    requires m.Ok() && alpha >= 0.0 && NonNegative(m, d) && PeriodicZones(m, u) && PeriodicFaces(m, d)
    ensures Inner(m, u, AField(m, alpha, d, u)) <= 0.0
  {
    hide PeriodicZones, PeriodicFaces, Inner, AField, Total, NonNegative;
    InnerIsEnergy(m, alpha, d, u, u);
    forall k, j, i ensures EnergyField(m, alpha, d, u, u)(k, j, i) >= 0.0 {
      EnergyAtSigned(m, alpha, d, u, k, j, i);
    }
    TotalSigned(m, EnergyField(m, alpha, d, u, u));
  }

  lemma EnergyAtSigned(m: Mesh, alpha: real, d: Field, u: Scalar, k: int, j: int, i: int)
    requires m.Ok() && alpha >= 0.0 && NonNegative(m, d)
    ensures EnergyAt(m, alpha, d, u, u, k, j, i) >= 0.0
    ensures EnergyAt(m, alpha, d, u, u, k, j, i) == 0.0 && d.x1(k, j, i) > 0.0 ==> u(k, j, i) == u(k, j, i - 1)
    ensures EnergyAt(m, alpha, d, u, u, k, j, i) == 0.0 && d.x2(k, j, i) > 0.0 ==> u(k, j, i) == u(k, j - 1, i)
    ensures EnergyAt(m, alpha, d, u, u, k, j, i) == 0.0 && d.x3(k, j, i) > 0.0 && m.ndim > 2
            ==> u(k, j, i) == u(k - 1, j, i)
  {
    assert d.x1(k, j, i) >= 0.0 && d.x2(k, j, i) >= 0.0 && d.x3(k, j, i) >= 0.0;
    hide Slopes;
    SlopesSigned(InverseDx2(m, 1), d.x1(k, j, i), u(k, j, i), u(k, j, i - 1));
    SlopesSigned(InverseDx2(m, 2), d.x2(k, j, i), u(k, j, i), u(k, j - 1, i));
    SlopesSigned(InverseDx2(m, 3), d.x3(k, j, i), u(k, j, i), u(k - 1, j, i));
    Square(u(k, j, i));
    ProductSigned(alpha, Product(u(k, j, i), u(k, j, i)));
  }

  /** With D > 0 the form vanishes only on potentials equal in neighbouring zones. */
  lemma NeighboursAgree(m: Mesh, alpha: real, d: Field, u: Scalar, k: int, j: int, i: int)
    requires m.Ok() && alpha >= 0.0 && PeriodicZones(m, u) && PeriodicFaces(m, d) && m.Interior(k, j, i)
    requires forall k, j, i :: d.x1(k, j, i) > 0.0 && d.x2(k, j, i) > 0.0 && d.x3(k, j, i) > 0.0
    requires Inner(m, u, AField(m, alpha, d, u)) == 0.0
    ensures u(k, j, i) == u(k, j, i - 1) && u(k, j, i) == u(k, j - 1, i)
            && (m.ndim > 2 ==> u(k, j, i) == u(k - 1, j, i))
  {
    hide PeriodicZones, PeriodicFaces, Inner, AField, Total;
    InnerIsEnergy(m, alpha, d, u, u);
    forall k, j, i ensures EnergyField(m, alpha, d, u, u)(k, j, i) >= 0.0 {
      EnergyAtSigned(m, alpha, d, u, k, j, i);
    }
    TotalSigned(m, EnergyField(m, alpha, d, u, u));
    assert EnergyField(m, alpha, d, u, u)(k, j, i) == 0.0;
    EnergyAtSigned(m, alpha, d, u, k, j, i);
  }

  /** So it vanishes only on constants: the kernel of the operator holds nothing else. */
  lemma {:induction false} OnlyConstantsVanish(m: Mesh, alpha: real, d: Field, u: Scalar, k: int, j: int, i: int)
    requires m.Ok() && alpha >= 0.0 && PeriodicZones(m, u) && PeriodicFaces(m, d) && m.Interior(k, j, i)
    requires forall k, j, i :: d.x1(k, j, i) > 0.0 && d.x2(k, j, i) > 0.0 && d.x3(k, j, i) > 0.0
    requires Inner(m, u, AField(m, alpha, d, u)) == 0.0
    ensures u(k, j, i) == u(m.Ks(), m.Js(), m.Is())
    decreases k + j + i
  {
    hide PeriodicZones, PeriodicFaces, Inner, AField;
    NeighboursAgree(m, alpha, d, u, k, j, i);
    if i > m.Is() { OnlyConstantsVanish(m, alpha, d, u, k, j, i - 1); }
    else if j > m.Js() { OnlyConstantsVanish(m, alpha, d, u, k, j - 1, i); }
    else if k > m.Ks() { OnlyConstantsVanish(m, alpha, d, u, k - 1, j, i); }
  }

  /** The total of A u is -alpha times the total of u: a right-hand side it can meet with alpha = 0
      has zero total. */
  lemma TotalOfA(m: Mesh, alpha: real, d: Field, u: Scalar)
    requires m.Ok() && PeriodicZones(m, u) && PeriodicFaces(m, d)
    ensures Total(m, AField(m, alpha, d, u)) == -alpha * Total(m, u)
  {
    hide Total, AField, PeriodicFaces, EnergyField;
    var one: Scalar := (k, j, i) => 1.0;
    InnerIsEnergy(m, alpha, d, one, u);
    assert Dot(one, AField(m, alpha, d, u)) == Dot(one, AField(m, alpha, d, u));
    forall k, j, i ensures Dot(one, AField(m, alpha, d, u))(k, j, i) == AField(m, alpha, d, u)(k, j, i) {
      assert DotAt(one, AField(m, alpha, d, u), k, j, i) == AField(m, alpha, d, u)(k, j, i);
    }
    TotalOfSame(m, AField(m, alpha, d, u), Dot(one, AField(m, alpha, d, u)));
    forall k, j, i ensures EnergyField(m, alpha, d, one, u)(k, j, i) == Mix(alpha, u(k, j, i), 0.0, u(k, j, i)) {
      EnergyWithOne(m, alpha, d, u, one, k, j, i);
    }
    TotalCombines(m, u, u, EnergyField(m, alpha, d, one, u), alpha, 0.0);
  }

  lemma EnergyWithOne(m: Mesh, alpha: real, d: Field, u: Scalar, one: Scalar, k: int, j: int, i: int)
    requires m.Ok() && forall k, j, i :: one(k, j, i) == 1.0
    ensures EnergyField(m, alpha, d, one, u)(k, j, i) == Mix(alpha, u(k, j, i), 0.0, u(k, j, i))
  {
  }

  // -- Linearity and the diagonal

  lemma AIsLinear(m: Mesh, alpha: real, d: Field, u: Scalar, v: Scalar, w: Scalar, p: real, q: real, k: int, j: int,
                  i: int)
    requires m.Ok() && forall k', j', i' {:trigger w(k', j', i')} ::
             w(k', j', i') == Mix(p, u(k', j', i'), q, v(k', j', i'))
    ensures A(m, alpha, d, w, k, j, i) == Mix(p, A(m, alpha, d, u, k, j, i), q, A(m, alpha, d, v, k, j, i))
  {
    hide Second, InverseDx2, Mix, Damp;
    SecondIsLinear(InverseDx2(m, 1), d.x1(k, j, i), d.x1(k, j, i + 1), p, q, u(k, j, i - 1), u(k, j, i), u(k, j, i + 1),
                   v(k, j, i - 1), v(k, j, i), v(k, j, i + 1));
    SecondIsLinear(InverseDx2(m, 2), d.x2(k, j, i), d.x2(k, j + 1, i), p, q, u(k, j - 1, i), u(k, j, i), u(k, j + 1, i),
                   v(k, j - 1, i), v(k, j, i), v(k, j + 1, i));
    SecondIsLinear(InverseDx2(m, 3), d.x3(k, j, i), d.x3(k + 1, j, i), p, q, u(k - 1, j, i), u(k, j, i), u(k + 1, j, i),
                   v(k - 1, j, i), v(k, j, i), v(k + 1, j, i));
    MixOfSum(p, q, alpha, u(k, j, i), v(k, j, i),
             Second(InverseDx2(m, 1), d.x1(k, j, i), d.x1(k, j, i + 1), u(k, j, i - 1), u(k, j, i), u(k, j, i + 1)),
             Second(InverseDx2(m, 2), d.x2(k, j, i), d.x2(k, j + 1, i), u(k, j - 1, i), u(k, j, i), u(k, j + 1, i)),
             Second(InverseDx2(m, 3), d.x3(k, j, i), d.x3(k + 1, j, i), u(k - 1, j, i), u(k, j, i), u(k + 1, j, i)),
             Second(InverseDx2(m, 1), d.x1(k, j, i), d.x1(k, j, i + 1), v(k, j, i - 1), v(k, j, i), v(k, j, i + 1)),
             Second(InverseDx2(m, 2), d.x2(k, j, i), d.x2(k, j + 1, i), v(k, j - 1, i), v(k, j, i), v(k, j + 1, i)),
             Second(InverseDx2(m, 3), d.x3(k, j, i), d.x3(k + 1, j, i), v(k - 1, j, i), v(k, j, i), v(k + 1, j, i)));
  }

  lemma SecondIsLinear(w: real, d: real, d': real, p: real, q: real, um: real, u: real, up: real, vm: real, v: real,
                       vp: real)
    ensures Second(w, d, d', Mix(p, um, q, vm), Mix(p, u, q, v), Mix(p, up, q, vp))
            == Mix(p, Second(w, d, d', um, u, up), q, Second(w, d, d', vm, v, vp))
  {
  }

  lemma MixOfSum(p: real, q: real, alpha: real, u: real, v: real, a: real, b: real, c: real, a': real, b': real,
                 c': real)
    ensures Damp(alpha, Mix(p, u, q, v)) + Mix(p, a, q, a') + Mix(p, b, q, b') + Mix(p, c, q, c')
         == Mix(p, Damp(alpha, u) + a + b + c, q, Damp(alpha, v) + a' + b' + c')
  {
  }

  /** What SetDiagonal stores in a zone. */
  function Diagonal(m: Mesh, alpha: real, d: Field, k: int, j: int, i: int): real
    requires m.Ok()
  {
    -alpha - Both(InverseDx2(m, 1), d.x1(k, j, i), d.x1(k, j, i + 1))
    - Both(InverseDx2(m, 2), d.x2(k, j, i), d.x2(k, j + 1, i))
    - Both(InverseDx2(m, 3), d.x3(k, j, i), d.x3(k + 1, j, i))
  }

  function Both(w: real, d: real, d': real): real { d * w + d' * w }

  /** It is the exact diagonal: raising u in one zone alone raises A u there by that much times it. */
  lemma DiagonalIsExact(m: Mesh, alpha: real, d: Field, u: Scalar, v: Scalar, t: real, k: int, j: int, i: int)
    requires m.Ok() && v(k, j, i) == u(k, j, i) + t
    requires forall k', j', i' {:trigger v(k', j', i')} :: (k', j', i') != (k, j, i) ==> v(k', j', i') == u(k', j', i')
    ensures A(m, alpha, d, v, k, j, i) == A(m, alpha, d, u, k, j, i) + Product(Diagonal(m, alpha, d, k, j, i), t)
  {
  }

  // -- The correction

  function One(): Field { Field((k, j, i) => 1.0, (k, j, i) => 1.0, (k, j, i) => 1.0) }

  /** The coefficient after InitializeD, which sets the lower faces of every zone and so leaves the
      outermost face of the block in each direction as it was. */
  function Initialised(m: Mesh, stale: Field): Field {
    var r := m.AllZones();
    Field((k, j, i) => if r.Has(k, j, i) then 1.0 else stale.x1(k, j, i),
          (k, j, i) => if r.Has(k, j, i) then 1.0 else stale.x2(k, j, i),
          (k, j, i) => if r.Has(k, j, i) then 1.0 else stale.x3(k, j, i))
  }

  /** The faces left out do not enter the operator or its diagonal. */
  lemma InitialisedIsOne(m: Mesh, alpha: real, stale: Field, u: Scalar, k: int, j: int, i: int)
    requires m.Ok() && m.Interior(k, j, i)
    ensures A(m, alpha, Initialised(m, stale), u, k, j, i) == A(m, alpha, One(), u, k, j, i)
    ensures Diagonal(m, alpha, Initialised(m, stale), k, j, i) == Diagonal(m, alpha, One(), k, j, i)
  {
    var r := m.AllZones();
    assert r.Has(k, j, i) && r.Has(k, j, i + 1) && r.Has(k, j + 1, i) && (m.ndim > 2 ==> r.Has(k + 1, j, i));
  }

  /** Gradient on a face of direction `dir`. */
  function FaceGrad(m: Mesh, u: Scalar, dir: int, k: int, j: int, i: int): real
    requires m.Ok()
  {
    Slope(u(k, j, i), Below(u, dir, k, j, i), if dir == 1 then m.dx1 else if dir == 2 then m.dx2 else m.dx3)
  }

  /** Zones with a neighbour below in every direction of the mesh. */
  function CorrectedRange(m: Mesh): Box {
    Box(if m.ndim > 2 then 1 else 0, if m.ndim > 2 then m.M3() - 2 else 0, 1, m.M2() - 2, 1, m.M1() - 2)
  }

  /** The face field after ApplySolution. */
  function Corrected(m: Mesh, u: Scalar, b: Field): Field
    requires m.Ok()
  {
    var r := CorrectedRange(m);
    Field((k, j, i) => if r.Has(k, j, i) then b.x1(k, j, i) - FaceGrad(m, u, 1, k, j, i) else b.x1(k, j, i),
          (k, j, i) => if r.Has(k, j, i) then b.x2(k, j, i) - FaceGrad(m, u, 2, k, j, i) else b.x2(k, j, i),
          (k, j, i) =>
              if m.ndim > 2 && r.Has(k, j, i) then b.x3(k, j, i) - FaceGrad(m, u, 3, k, j, i) else b.x3(k, j, i))
  }

  /** Face by face: every face with a zone of the block on both sides, and its neighbours of the same index, loses
      the gradient; no other face changes, nor in 2D any X3 face. */
  lemma CorrectedFaces(m: Mesh, u: Scalar, b: Field, k: int, j: int, i: int)
    requires m.Ok()
    ensures var c := Corrected(m, u, b);
            var on := && (if m.ndim > 2 then 1 <= k <= m.Ke() + m.ng else k == 0)
                      && 1 <= j <= m.Je() + m.ng && 1 <= i <= m.Ie() + m.ng;
            if on
            then && c.x1(k, j, i) == b.x1(k, j, i) - (u(k, j, i) - u(k, j, i - 1)) / m.dx1
                 && c.x2(k, j, i) == b.x2(k, j, i) - (u(k, j, i) - u(k, j - 1, i)) / m.dx2
                 && c.x3(k, j, i)
                    == b.x3(k, j, i) - (if m.ndim > 2 then (u(k, j, i) - u(k - 1, j, i)) / m.dx3 else 0.0)
            else c.x1(k, j, i) == b.x1(k, j, i) && c.x2(k, j, i) == b.x2(k, j, i) && c.x3(k, j, i) == b.x3(k, j, i)
  {
    var on := CorrectedRange(m).Has(k, j, i);
  }

  /** The fluxes of the potential are written on faces of interior zones, X3 faces in 3D only, and the unit
      coefficient on the lower faces of every zone; nowhere else. */
  lemma PassesWrite(m: Mesh, d: Field, u: Scalar, stale: Field, k: int, j: int, i: int)
    requires m.Ok()
    ensures var f := Fluxed(m, d, u, stale);
            var in3, in2, in1 := m.Ks() <= k <= m.Ke(), m.Js() <= j <= m.Je(), m.Is() <= i <= m.Ie();
            && f.x1(k, j, i) == (if in3 && in2 && m.Is() <= i <= m.Ie() + 1
                                 then d.x1(k, j, i) / m.dx1 * (u(k, j, i - 1) - u(k, j, i)) else stale.x1(k, j, i))
            && f.x2(k, j, i) == (if in3 && m.Js() <= j <= m.Je() + 1 && in1
                                 then d.x2(k, j, i) * (u(k, j - 1, i) - u(k, j, i)) / m.dx2 else stale.x2(k, j, i))
            && f.x3(k, j, i) == (if m.ndim > 2 && m.Ks() <= k <= m.Ke() + 1 && in2 && in1
                                 then d.x3(k, j, i) * (u(k - 1, j, i) - u(k, j, i)) / m.dx3 else stale.x3(k, j, i))
    ensures var g := Initialised(m, stale);
            var zone := && 0 <= k <= (if m.ndim > 2 then m.Ke() + m.ng else 0) && 0 <= j <= m.Je() + m.ng
                        && 0 <= i <= m.Ie() + m.ng;
            && g.x1(k, j, i) == (if zone then 1.0 else stale.x1(k, j, i))
            && g.x2(k, j, i) == (if zone then 1.0 else stale.x2(k, j, i))
            && g.x3(k, j, i) == (if zone then 1.0 else stale.x3(k, j, i))
  {
    var on1, on2, on3 := m.FaceRange(1).Has(k, j, i), m.FaceRange(2).Has(k, j, i), m.FaceRange(3).Has(k, j, i);
    var zone := m.AllZones().Has(k, j, i);
    var f1, f2, f3 := Flux1At(m, d, u, k, j, i), Flux2At(m, d, u, k, j, i), Flux3At(m, d, u, k, j, i);
    assert f1 == d.x1(k, j, i) / m.dx1 * (u(k, j, i - 1) - u(k, j, i));
    assert f2 == d.x2(k, j, i) * (u(k, j - 1, i) - u(k, j, i)) / m.dx2;
    assert f3 == d.x3(k, j, i) * (u(k - 1, j, i) - u(k, j, i)) / m.dx3;
    hide Flux1At, Flux2At, Flux3At;
  }

  // The part of the divergence of the corrected field along one direction.

  lemma Left1(m: Mesh, u: Scalar, b: Field, k: int, j: int, i: int)
    requires m.Ok() && m.Interior(k, j, i)
    ensures var c := Corrected(m, u, b);
            (c.x1(k, j, i + 1) - c.x1(k, j, i)) / m.dx1
            == (b.x1(k, j, i + 1) - b.x1(k, j, i)) / m.dx1
            - Second(InverseDx2(m, 1), 1.0, 1.0, u(k, j, i - 1), u(k, j, i), u(k, j, i + 1))
  {
  }

  lemma Left2(m: Mesh, u: Scalar, b: Field, k: int, j: int, i: int)
    requires m.Ok() && m.Interior(k, j, i)
    ensures var c := Corrected(m, u, b);
            (c.x2(k, j + 1, i) - c.x2(k, j, i)) / m.dx2
            == (b.x2(k, j + 1, i) - b.x2(k, j, i)) / m.dx2
            - Second(InverseDx2(m, 2), 1.0, 1.0, u(k, j - 1, i), u(k, j, i), u(k, j + 1, i))
  {
  }

  lemma Left3(m: Mesh, u: Scalar, b: Field, k: int, j: int, i: int)
    requires m.Ok() && m.ndim > 2 && m.Interior(k, j, i)
    ensures var c := Corrected(m, u, b);
            (c.x3(k + 1, j, i) - c.x3(k, j, i)) / m.dx3
            == (b.x3(k + 1, j, i) - b.x3(k, j, i)) / m.dx3
            - Second(InverseDx2(m, 3), 1.0, 1.0, u(k - 1, j, i), u(k, j, i), u(k + 1, j, i))
  {
  }

  /** After the correction the divergence is what the solver left over: rhs - A u, less alpha u. */
  lemma DivergenceLeft(m: Mesh, alpha: real, u: Scalar, b: Field, k: int, j: int, i: int)
    requires m.Ok() && m.Interior(k, j, i)
    ensures FaceDiv(m, Corrected(m, u, b), k, j, i)
            == FaceDiv(m, b, k, j, i) - A(m, alpha, One(), u, k, j, i) + Damp(alpha, u(k, j, i))
  {
    hide Second, Corrected, InverseDx2, Damp;
    Left1(m, u, b, k, j, i);
    Left2(m, u, b, k, j, i);
    if m.ndim > 2 {
      Left3(m, u, b, k, j, i);
    } else {
      FlatSecond(m, 1.0, 1.0, u(k - 1, j, i), u(k, j, i), u(k + 1, j, i));
    }
  }

  /** An exact solve with alpha = 0 leaves no divergence anywhere in the interior. */
  lemma ExactSolveCleans(m: Mesh, u: Scalar, b: Field)
    requires m.Ok() && Solves(m, 0.0, u, b)
    ensures DivFree(m, Corrected(m, u, b))
  {
    hide A, FaceDiv, Corrected;
    forall k, j, i | m.Interior(k, j, i) ensures FaceDiv(m, Corrected(m, u, b), k, j, i) == 0.0 {
      DivergenceLeft(m, 0.0, u, b, k, j, i);
      assert A(m, 0.0, One(), u, k, j, i) == FaceDiv(m, b, k, j, i);
    }
  }

  /** An exact solve with alpha not zero leaves -alpha u. */
  lemma ExactSolveLeaves(m: Mesh, alpha: real, u: Scalar, b: Field, k: int, j: int, i: int)
    requires m.Ok() && m.Interior(k, j, i) && Solves(m, alpha, u, b)
    ensures FaceDiv(m, Corrected(m, u, b), k, j, i) == Damp(alpha, u(k, j, i))
  {
    hide A, FaceDiv, Corrected, Damp;
    DivergenceLeft(m, alpha, u, b, k, j, i);
  }

  /** `u` solves the equation of the clean-up of `b` exactly. */
  ghost predicate Solves(m: Mesh, alpha: real, u: Scalar, b: Field)
    requires m.Ok()
  {
    forall k, j, i | m.Interior(k, j, i) :: A(m, alpha, One(), u, k, j, i) == FaceDiv(m, b, k, j, i)
  }

  ghost predicate ZeroInside(m: Mesh, u: Scalar) {
    forall k, j, i | m.Interior(k, j, i) :: u(k, j, i) == 0.0
  }

  lemma ZeroAround(m: Mesh, u: Scalar, k: int, j: int, i: int)
    requires m.Ok() && m.Interior(k, j, i) && PeriodicZones(m, u) && ZeroInside(m, u)
    ensures u(k, j, i) == 0.0 && u(k, j, i - 1) == 0.0 && u(k, j, i + 1) == 0.0
    ensures u(k, j - 1, i) == 0.0 && u(k, j + 1, i) == 0.0
    ensures m.ndim > 2 ==> u(k - 1, j, i) == 0.0 && u(k + 1, j, i) == 0.0
  {
    assert u(k, j, m.Ie()) == 0.0 && u(k, j, m.Is()) == 0.0 && u(k, m.Je(), i) == 0.0 && u(k, m.Js(), i) == 0.0;
    assert u(m.Ke(), j, i) == 0.0 && u(m.Ks(), j, i) == 0.0;
  }

  lemma ZeroHasNoA(m: Mesh, alpha: real, u: Scalar, k: int, j: int, i: int)
    requires m.Ok() && m.Interior(k, j, i) && PeriodicZones(m, u) && ZeroInside(m, u)
    ensures A(m, alpha, One(), u, k, j, i) == 0.0
  {
    hide PeriodicZones, ZeroInside, Second;
    ZeroAround(m, u, k, j, i);
    NoSecond(InverseDx2(m, 1), 1.0, 1.0); NoSecond(InverseDx2(m, 2), 1.0, 1.0); NoSecond(InverseDx2(m, 3), 1.0, 1.0);
    if m.ndim == 2 { FlatSecond(m, 1.0, 1.0, u(k - 1, j, i), u(k, j, i), u(k + 1, j, i)); }
  }

  lemma NoSecond(w: real, d: real, d': real)
    ensures Second(w, d, d', 0.0, 0.0, 0.0) == 0.0
  {
  }

  /** With alpha > 0 only u = 0 solves for a field without divergence. */
  lemma NothingToSolve(m: Mesh, alpha: real, u: Scalar)
    requires m.Ok() && alpha > 0.0 && PeriodicZones(m, u)
    requires forall k, j, i | m.Interior(k, j, i) :: A(m, alpha, One(), u, k, j, i) == 0.0
    ensures ZeroInside(m, u)
  {
    hide PeriodicZones, Total, A, EnergyAt;
    var h, e := Dot(u, AField(m, alpha, One(), u)), EnergyField(m, alpha, One(), u, u);
    forall k, j, i | m.Interior(k, j, i) ensures h(k, j, i) == 0.0 {
      assert h(k, j, i) == DotAt(u, AField(m, alpha, One(), u), k, j, i);
      assert A(m, alpha, One(), u, k, j, i) == 0.0;
    }
    NoTotal(m, h);
    OneIsPeriodic(m);
    InnerIsEnergy(m, alpha, One(), u, u);
    forall k, j, i ensures e(k, j, i) >= 0.0 && (e(k, j, i) == 0.0 ==> u(k, j, i) == 0.0) {
      PositiveEnergy(m, alpha, u, k, j, i);
    }
    TotalSigned(m, e);
  }

  lemma OneIsPeriodic(m: Mesh)
    ensures PeriodicFaces(m, One())
  {
  }

  lemma PositiveEnergy(m: Mesh, alpha: real, u: Scalar, k: int, j: int, i: int)
    requires m.Ok() && alpha > 0.0
    ensures EnergyAt(m, alpha, One(), u, u, k, j, i) >= 0.0
    ensures EnergyAt(m, alpha, One(), u, u, k, j, i) == 0.0 ==> u(k, j, i) == 0.0
  {
    hide Slopes;
    SlopesSigned(InverseDx2(m, 1), 1.0, u(k, j, i), u(k, j, i - 1));
    SlopesSigned(InverseDx2(m, 2), 1.0, u(k, j, i), u(k, j - 1, i));
    SlopesSigned(InverseDx2(m, 3), 1.0, u(k, j, i), u(k - 1, j, i));
    Square(u(k, j, i));
  }

  /** When an exact solve cleans: with alpha = 0, or when there was nothing to clean. */
  lemma ExactSolveCleansIff(m: Mesh, alpha: real, u: Scalar, b: Field)
    requires m.Ok() && alpha >= 0.0 && PeriodicZones(m, u) && Solves(m, alpha, u, b)
    ensures DivFree(m, Corrected(m, u, b)) <==> alpha == 0.0 || DivFree(m, b)
  {
    hide A, FaceDiv, Corrected, PeriodicZones;
    forall k, j, i | m.Interior(k, j, i)
      ensures FaceDiv(m, Corrected(m, u, b), k, j, i) == 0.0 <==> alpha == 0.0 || u(k, j, i) == 0.0
    {
      ExactSolveLeaves(m, alpha, u, b, k, j, i);
    }
    if ZeroInside(m, u) {
      forall k, j, i | m.Interior(k, j, i) ensures FaceDiv(m, b, k, j, i) == 0.0 {
        ZeroHasNoA(m, alpha, u, k, j, i);
        assert A(m, alpha, One(), u, k, j, i) == FaceDiv(m, b, k, j, i);
      }
    }
    if alpha > 0.0 && DivFree(m, b) {
      forall k, j, i | m.Interior(k, j, i) ensures A(m, alpha, One(), u, k, j, i) == 0.0 {
        assert A(m, alpha, One(), u, k, j, i) == FaceDiv(m, b, k, j, i) == 0.0;
      }
      NothingToSolve(m, alpha, u);
    }
  }

  // An input on which it does not: signs alternating along X1.

  function Alternating(i: int): real { if i % 2 == 0 then 1.0 else -1.0 }
  function Ripples(): Scalar { (k, j, i) => Alternating(i) }
  function RippledField(m: Mesh, alpha: real): Field
    requires m.Ok()
  {
    var c := (alpha + 4.0 * InverseSquare(m.dx1)) * m.dx1 / 2.0;
    Field((k, j, i) => c * Alternating(i), (k, j, i) => 0.0, (k, j, i) => 0.0)
  }

  /** On every periodic block with an even number of zones along X1, and for every alpha > 0, a field
      an exact solve does not clean. */
  lemma AlphaLeavesDivergence(m: Mesh, alpha: real)
    requires m.Ok() && m.n1 % 2 == 0 && alpha > 0.0
    ensures var u, b := Ripples(), RippledField(m, alpha);
            && PeriodicZones(m, u) && PeriodicFaces(m, b) && Solves(m, alpha, u, b)
            && !DivFree(m, Corrected(m, u, b))
  {
    hide A, FaceDiv, Corrected, PeriodicZones, PeriodicFaces, Ripples, RippledField, Solves;
    var u, b := Ripples(), RippledField(m, alpha);
    RipplesArePeriodic(m, alpha);
    RipplesAreSolved(m, alpha);
    ExactSolveLeaves(m, alpha, u, b, m.Ks(), m.Js(), m.Is());
    RippleIsDamped(m, alpha);
  }

  lemma RipplesAreSolved(m: Mesh, alpha: real)
    requires m.Ok()
    ensures Solves(m, alpha, Ripples(), RippledField(m, alpha))
  {
    hide A, FaceDiv, Ripples, RippledField;
    forall k, j, i | m.Interior(k, j, i)
      ensures A(m, alpha, One(), Ripples(), k, j, i) == FaceDiv(m, RippledField(m, alpha), k, j, i)
    {
      RipplesSolve(m, alpha, k, j, i);
    }
  }

  lemma RippleIsDamped(m: Mesh, alpha: real)
    requires m.Ok() && alpha > 0.0
    ensures m.Interior(m.Ks(), m.Js(), m.Is()) && Damp(alpha, Ripples()(m.Ks(), m.Js(), m.Is())) != 0.0
  {
  }

  lemma RipplesArePeriodic(m: Mesh, alpha: real)
    requires m.Ok() && m.n1 % 2 == 0
    ensures PeriodicZones(m, Ripples()) && PeriodicFaces(m, RippledField(m, alpha))
  {
    hide InverseSquare;
    EvenApart(m.Is() - 1, m.Ie()); EvenApart(m.Is(), m.Ie() + 1);
  }

  lemma EvenApart(i: int, i': int)
    requires (i' - i) % 2 == 0
    ensures Alternating(i) == Alternating(i')
  {
  }

  lemma AOfRipples(m: Mesh, alpha: real, k: int, j: int, i: int)
    requires m.Ok()
    ensures A(m, alpha, One(), Ripples(), k, j, i) == -(alpha + 4.0 * InverseSquare(m.dx1)) * Alternating(i)
  {
    hide InverseSquare;
    assert Alternating(i + 1) == -Alternating(i) && Alternating(i - 1) == -Alternating(i);
  }

  lemma DivOfRipples(m: Mesh, alpha: real, k: int, j: int, i: int)
    requires m.Ok()
    ensures FaceDiv(m, RippledField(m, alpha), k, j, i) == -(alpha + 4.0 * InverseSquare(m.dx1)) * Alternating(i)
  {
    var q, s := alpha + 4.0 * InverseSquare(m.dx1), Alternating(i);
    var c := q * m.dx1 / 2.0;
    hide InverseSquare;
    assert Alternating(i + 1) == -s;
    assert FaceDiv(m, RippledField(m, alpha), k, j, i) == (c * -s - c * s) / m.dx1;
    HalfTimes(q, m.dx1, s);
  }

  lemma RipplesSolve(m: Mesh, alpha: real, k: int, j: int, i: int)
    requires m.Ok()
    ensures A(m, alpha, One(), Ripples(), k, j, i) == FaceDiv(m, RippledField(m, alpha), k, j, i)
  {
    hide A, FaceDiv, RippledField;
    AOfRipples(m, alpha, k, j, i);
    DivOfRipples(m, alpha, k, j, i);
  }

  lemma HalfTimes(q: real, d: real, s: real)
    requires d > 0.0
    ensures var c := q * d / 2.0; (c * -s - c * s) / d == -q * s
  {
  }

  // -- The correction is a projection

  /** B . grad u and B . B over the lower faces of a zone. */
  function WorkAt(m: Mesh, c: Field, u: Scalar, k: int, j: int, i: int): real
    requires m.Ok()
  {
    Product(c.x1(k, j, i), FaceGrad(m, u, 1, k, j, i)) + Product(c.x2(k, j, i), FaceGrad(m, u, 2, k, j, i))
    + if m.ndim > 2 then Product(c.x3(k, j, i), FaceGrad(m, u, 3, k, j, i)) else 0.0
  }
  function StrengthAt(m: Mesh, b: Field, k: int, j: int, i: int): real {
    Product(b.x1(k, j, i), b.x1(k, j, i)) + Product(b.x2(k, j, i), b.x2(k, j, i))
    + if m.ndim > 2 then Product(b.x3(k, j, i), b.x3(k, j, i)) else 0.0
  }
  function SteepnessAt(m: Mesh, u: Scalar, k: int, j: int, i: int): real
    requires m.Ok()
  {
    Product(FaceGrad(m, u, 1, k, j, i), FaceGrad(m, u, 1, k, j, i))
        + Product(FaceGrad(m, u, 2, k, j, i), FaceGrad(m, u, 2, k, j, i))
    + if m.ndim > 2 then Product(FaceGrad(m, u, 3, k, j, i), FaceGrad(m, u, 3, k, j, i)) else 0.0
  }

  function Work(m: Mesh, c: Field, u: Scalar): Scalar
    requires m.Ok()
  {
    (k, j, i) => WorkAt(m, c, u, k, j, i)
  }
  function Strength(m: Mesh, b: Field): Scalar { (k, j, i) => StrengthAt(m, b, k, j, i) }
  function Steepness(m: Mesh, u: Scalar): Scalar
    requires m.Ok()
  {
    (k, j, i) => SteepnessAt(m, u, k, j, i)
  }

  /** What B pushes through a face against the potential below it. */
  function PushAt(m: Mesh, c: Field, u: Scalar, dir: int, k: int, j: int, i: int): real
    requires m.Ok()
  {
    if dir > m.ndim then 0.0
    else Slope(Product(OnFace(c, dir, k, j, i), Below(u, dir, k, j, i)), 0.0,
               if dir == 1 then m.dx1 else if dir == 2 then m.dx2 else m.dx3)
  }

  function PushField(m: Mesh, c: Field, u: Scalar, dir: int): Scalar
    requires m.Ok()
  {
    (k, j, i) => PushAt(m, c, u, dir, k, j, i)
  }

  lemma PushIsClosed(m: Mesh, c: Field, u: Scalar, dir: int)
    requires m.Ok() && 1 <= dir <= 3 && PeriodicZones(m, u) && PeriodicFaces(m, c)
    ensures Closed(m, PushField(m, c, u, dir), dir)
  {
    hide Slope, Product;
    var g := PushField(m, c, u, dir);
    forall k, j, i ensures g(k, j, i) == PushAt(m, c, u, dir, k, j, i) {
    }
    hide PushField;
  }

  lemma WorkByParts(dx: real, b: real, b': real, um: real, u: real)
    requires dx > 0.0
    ensures Product(b, Slope(u, um, dx))
            == -Product(u, Slope(b', b, dx)) + (Slope(Product(b', u), 0.0, dx) - Slope(Product(b, um), 0.0, dx))
  {
  }

  lemma StepOfPush(m: Mesh, c: Field, u: Scalar, dir: int, k: int, j: int, i: int)
    requires m.Ok() && 1 <= dir <= 3
    ensures var k', j' := if dir == 3 then k + 1 else k, if dir == 2 then j + 1 else j;
            var i' := if dir == 1 then i + 1 else i;
            var dx := if dir == 1 then m.dx1 else if dir == 2 then m.dx2 else m.dx3;
            Step(PushField(m, c, u, dir), dir)(k, j, i)
            == if dir > m.ndim then 0.0
               else
                 Slope(Product(OnFace(c, dir, k', j', i'), u(k, j, i)), 0.0, dx)
                 - Slope(Product(OnFace(c, dir, k, j, i), Below(u, dir, k, j, i)), 0.0, dx)
  {
  }

  lemma WorkPointwise(m: Mesh, c: Field, u: Scalar, k: int, j: int, i: int)
    requires m.Ok() && FaceDiv(m, c, k, j, i) == 0.0
    ensures Work(m, c, u)(k, j, i)
         == Step(PushField(m, c, u, 1), 1)(k, j, i) + Step(PushField(m, c, u, 2), 2)(k, j, i)
         + Step(PushField(m, c, u, 3), 3)(k, j, i)
  {
    hide Product;
    assert Work(m, c, u)(k, j, i) == WorkAt(m, c, u, k, j, i);
    StepOfPush(m, c, u, 1, k, j, i); StepOfPush(m, c, u, 2, k, j, i); StepOfPush(m, c, u, 3, k, j, i);
    WorkByParts(m.dx1, c.x1(k, j, i), c.x1(k, j, i + 1), u(k, j, i - 1), u(k, j, i));
    WorkByParts(m.dx2, c.x2(k, j, i), c.x2(k, j + 1, i), u(k, j - 1, i), u(k, j, i));
    var s3 := if m.ndim > 2 then Slope(c.x3(k + 1, j, i), c.x3(k, j, i), m.dx3) else 0.0;
    if m.ndim > 2 { WorkByParts(m.dx3, c.x3(k, j, i), c.x3(k + 1, j, i), u(k - 1, j, i), u(k, j, i)); }
    NoWork(u(k, j, i), Slope(c.x1(k, j, i + 1), c.x1(k, j, i), m.dx1), Slope(c.x2(k, j + 1, i), c.x2(k, j, i), m.dx2),
           s3);
  }

  lemma NoWork(u: real, p: real, q: real, r: real)
    requires p + q + r == 0.0
    ensures Product(u, p) + Product(u, q) + Product(u, r) == 0.0
    ensures Product(u, 0.0) == 0.0
  {
  }

  /** A divergence-free periodic field does no work against any gradient. */
  lemma DivFreeDoesNoWork(m: Mesh, c: Field, u: Scalar)
    requires m.Ok() && DivFree(m, c) && PeriodicFaces(m, c) && PeriodicZones(m, u)
    ensures Total(m, Work(m, c, u)) == 0.0
  {
    hide PeriodicZones, PeriodicFaces, PushField, Total, Differences, Closed, Step, Work, FaceDiv;
    var g1, g2, g3 := PushField(m, c, u, 1), PushField(m, c, u, 2), PushField(m, c, u, 3);
    PushIsClosed(m, c, u, 1); PushIsClosed(m, c, u, 2); PushIsClosed(m, c, u, 3);
    StepsAreDifferences(m, g1, 1); StepsAreDifferences(m, g2, 2); StepsAreDifferences(m, g3, 3);
    var zero: Scalar := (k, j, i) => 0.0;
    forall k, j, i | m.Interior(k, j, i)
      ensures Work(m, c, u)(k, j, i)
              == zero(k, j, i) + Step(g1, 1)(k, j, i) + Step(g2, 2)(k, j, i) + Step(g3, 3)(k, j, i)
    {
      assert FaceDiv(m, c, k, j, i) == 0.0;
      WorkPointwise(m, c, u, k, j, i);
    }
    ByParts(m, Work(m, c, u), zero, Step(g1, 1), Step(g2, 2), Step(g3, 3), g1, g2, g3);
    TotalCombines(m, zero, zero, zero, 0.0, 0.0);
    NoTotal(m, zero);
  }

  lemma NoTotal(m: Mesh, zero: Scalar)
    requires m.Ok() && forall k, j, i {:trigger zero(k, j, i)} | m.Interior(k, j, i) :: zero(k, j, i) == 0.0
    ensures Total(m, zero) == 0.0
  {
    hide Total;
    TotalCombines(m, zero, zero, zero, 2.0, 0.0);
    assert Total(m, zero) == 2.0 * Total(m, zero);
  }

  lemma CorrectedIsPeriodic(m: Mesh, u: Scalar, b: Field)
    requires m.Ok() && PeriodicZones(m, u) && PeriodicFaces(m, b)
    ensures PeriodicFaces(m, Corrected(m, u, b))
  {
    hide PeriodicZones, Corrected;
    forall k, j | m.Ks() <= k <= m.Ke() && m.Js() <= j <= m.Je()
      ensures Corrected(m, u, b).x1(k, j, m.Ie() + 1) == Corrected(m, u, b).x1(k, j, m.Is())
    {
      CorrectedEnds1(m, u, b, k, j);
    }
    forall k, i | m.Ks() <= k <= m.Ke() && m.Is() <= i <= m.Ie()
      ensures Corrected(m, u, b).x2(k, m.Je() + 1, i) == Corrected(m, u, b).x2(k, m.Js(), i)
    {
      CorrectedEnds2(m, u, b, k, i);
    }
    if m.ndim > 2 {
      forall j, i | m.Js() <= j <= m.Je() && m.Is() <= i <= m.Ie()
        ensures Corrected(m, u, b).x3(m.Ke() + 1, j, i) == Corrected(m, u, b).x3(m.Ks(), j, i)
      {
        CorrectedEnds3(m, u, b, j, i);
      }
    }
  }

  lemma CorrectedEnds1(m: Mesh, u: Scalar, b: Field, k: int, j: int)
    requires m.Ok() && PeriodicZones(m, u) && PeriodicFaces(m, b) && m.Ks() <= k <= m.Ke() && m.Js() <= j <= m.Je()
    ensures Corrected(m, u, b).x1(k, j, m.Ie() + 1) == Corrected(m, u, b).x1(k, j, m.Is())
  {
  }

  lemma CorrectedEnds2(m: Mesh, u: Scalar, b: Field, k: int, i: int)
    requires m.Ok() && PeriodicZones(m, u) && PeriodicFaces(m, b) && m.Ks() <= k <= m.Ke() && m.Is() <= i <= m.Ie()
    ensures Corrected(m, u, b).x2(k, m.Je() + 1, i) == Corrected(m, u, b).x2(k, m.Js(), i)
  {
  }

  lemma CorrectedEnds3(m: Mesh, u: Scalar, b: Field, j: int, i: int)
    requires m.Ok() && m.ndim > 2 && PeriodicZones(m, u) && PeriodicFaces(m, b) && m.Js() <= j <= m.Je()
             && m.Is() <= i <= m.Ie()
    ensures Corrected(m, u, b).x3(m.Ke() + 1, j, i) == Corrected(m, u, b).x3(m.Ks(), j, i)
  {
  }

  lemma StrengthSplits(m: Mesh, u: Scalar, b: Field, k: int, j: int, i: int)
    requires m.Ok() && m.Interior(k, j, i)
    ensures var c := Corrected(m, u, b);
            StrengthAt(m, b, k, j, i)
                == StrengthAt(m, c, k, j, i) + 2.0 * WorkAt(m, c, u, k, j, i) + SteepnessAt(m, u, k, j, i)
  {
  }

  /** The energy of the field splits between the cleaned field and the gradient taken out, so cleaning
      never adds any. */
  lemma CleaningIsAProjection(m: Mesh, u: Scalar, b: Field)
    requires m.Ok() && PeriodicZones(m, u) && PeriodicFaces(m, b) && DivFree(m, Corrected(m, u, b))
    ensures Total(m, Strength(m, b)) == Total(m, Strength(m, Corrected(m, u, b))) + Total(m, Steepness(m, u))
    ensures Total(m, Strength(m, Corrected(m, u, b))) <= Total(m, Strength(m, b))
  {
    hide Total, Corrected, PeriodicZones, PeriodicFaces, DivFree, StrengthAt, WorkAt, SteepnessAt;
    var c := Corrected(m, u, b);
    CorrectedIsPeriodic(m, u, b);
    DivFreeDoesNoWork(m, c, u);
    var s, w, p := Strength(m, c), Work(m, c, u), Steepness(m, u);
    var sp: Scalar := (k, j, i) => s(k, j, i) + p(k, j, i);
    AddsUp(m, s, p, sp);
    forall k, j, i | m.Interior(k, j, i) ensures Strength(m, b)(k, j, i) == Mix(1.0, sp(k, j, i), 2.0, w(k, j, i)) {
      StrengthSplits(m, u, b, k, j, i);
    }
    TotalCombines(m, sp, w, Strength(m, b), 1.0, 2.0);
    forall k, j, i ensures p(k, j, i) >= 0.0 { SteepnessSigned(m, u, k, j, i); }
    TotalSigned(m, p);
  }

  lemma SteepnessSigned(m: Mesh, u: Scalar, k: int, j: int, i: int)
    requires m.Ok()
    ensures Steepness(m, u)(k, j, i) >= 0.0
  {
  }
}
