/** Whole runs of the constrained-transport driver: the containers of a block, the operations the
    driver may apply to them in any order, and what every reachable state keeps. */
module Run {
  import opened Grid
  import opened FaceCT
  import opened BoundaryEMF
  import opened Reconnect
  import opened Derefine
  import opened BoundaryClean

  /** How one polar (X2) boundary of the block is treated. */
  datatype Pole = Pole(present: bool, zeroEMF: bool, averageEMF: bool, allowFlux: bool)

  /** Block, polar boundaries, levels of polar derefinement (0 for none), and the columns kept out
      of reconnection. */
  datatype Setup = Setup(m: Mesh, spherical: bool, inner: Pole, outer: Pole, nl: int, buffer: nat)

  /** One operation on the face field in the numbered containers. */
  datatype Step =
    | Stage(full: nat, sub: nat, out: nat, emf: Field, gam0: real, gam1: real, bdt: real)
    | Reconnection(c: nat)
    | Derefinement(c: nat)
    | Clean(c: nat, d: int, inside: bool)

  /** The containers, and the one the source terms go to. */
  datatype State = State(pool: seq<Field>, src: Field)

  function PoleOf(su: Setup, inner: bool): Pole { if inner then su.inner else su.outer }

  /** Derefinement discards the flux through this pole, so there had better be none. */
  predicate MustStayClosed(su: Setup, inner: bool) {
    PoleOf(su, inner).present && su.nl > 0 && !PoleOf(su, inner).allowFlux
  }

  predicate SetupOk(su: Setup) {
    && su.m.Ok()
    && (su.nl > 0 ==> Fits(su.m, su.nl))
    && (forall inner: bool :: MustStayClosed(su, inner) ==> PoleOf(su, inner).zeroEMF || PoleOf(su, inner).averageEMF)
  }

  predicate Legal(su: Setup, n: nat, st: Step) {
    match st
    case Stage(full, sub, out, _, _, _, _) => full < n && sub < n && out < n
    case Reconnection(c) => c < n && su.m.ndim == 3
    case Derefinement(c) => c < n && su.nl > 0
    case Clean(c, d, _) => c < n && IsBoundary(su.m, d)
  }

  // -- The operations

  /** The EMF after the treatment of one pole, and of both. */
  function TreatedAt(su: Setup, inner: bool, e: Field): Field
    requires su.m.Ok()
  {
    var p := PoleOf(su, inner);
    if !p.present then e
    else
      var e' := if p.zeroEMF then ZeroedEMF(su.m, 2, inner, e) else e;
      if p.averageEMF then AveragedEMF(su.m, su.spherical, 2, inner, e') else e'
  }

  function Treated(su: Setup, e: Field): Field
    requires su.m.Ok()
  {
    TreatedAt(su, false, TreatedAt(su, true, e))
  }

  function ReconnectedPoles(su: Setup, b: Field): Field
    requires su.m.Ok()
  {
    var b' := if su.inner.present then Reconnected(su.m, true, su.buffer, b) else b;
    if su.outer.present then Reconnected(su.m, false, su.buffer, b') else b'
  }

  function Apply(su: Setup, s: State, st: Step): (s': State)
    requires SetupOk(su) && Legal(su, |s.pool|, st)
    ensures |s'.pool| == |s.pool|
  {
    match st
    case Stage(full, sub, out, emf, gam0, gam1, bdt) =>
      var src := Sourced(su.m, Treated(su, emf), s.src);
      State(s.pool[out := StageUpdate(s.pool[full], s.pool[sub], src, gam0, gam1, bdt)], src)
    case Reconnection(c) =>
      s.(pool := s.pool[c := ReconnectedPoles(su, s.pool[c])])
    case Derefinement(c) =>
      s.(pool := s.pool[c := DerefinedPoles(su.m, su.nl, su.inner.present, su.outer.present,
                                            su.inner.allowFlux, su.outer.allowFlux, s.pool[c])])
    case Clean(c, d, inside) =>
      s.(pool := s.pool[c := Cleaned(su.m, d, inside, s.pool[c])])
  }

  /** The state after a sequence of operations. */
  function After(su: Setup, s: State, steps: seq<Step>): (s': State)
    requires SetupOk(su) && forall st | st in steps :: Legal(su, |s.pool|, st)
    ensures |s'.pool| == |s.pool|
  {
    if steps == [] then s
    else
      var n := |steps| - 1;
      assert forall st | st in steps[..n] :: st in steps;
      assert steps[n] in steps;
      Apply(su, After(su, s, steps[..n]), steps[n])
  }

  // -- What is kept

  ghost predicate Good(su: Setup, b: Field)
    requires su.m.Ok()
  {
    && DivFree(su.m, b)
    && (MustStayClosed(su, true) ==> PoleClosed(su.m, true, b))
    && (MustStayClosed(su, false) ==> PoleClosed(su.m, false, b))
  }

  /** The treatment of one pole balances the EMF there and leaves the other pole alone. */
  lemma TreatmentBalances(su: Setup, inner: bool, e: Field, k: int, i: int)
    requires su.m.Ok() && PoleOf(su, inner).present && (PoleOf(su, inner).zeroEMF || PoleOf(su, inner).averageEMF)
    requires su.m.Ks() <= k <= su.m.Ke() && su.m.Is() <= i <= su.m.Ie()
    ensures Balanced(su.m, TreatedAt(su, inner, e), 2, k, PoleFace(su.m, inner), i)
  {
    hide ZeroedEMF, AveragedEMF, Balanced;
    var j := PoleFace(su.m, inner);
    var e' := if PoleOf(su, inner).zeroEMF then ZeroedEMF(su.m, 2, inner, e) else e;
    if PoleOf(su, inner).averageEMF {
      AveragingBalances(su.m, su.spherical, 2, inner, e', k, j, i);
    } else {
      ZeroingBalances(su.m, 2, inner, e, k, j, i);
    }
  }

  lemma TreatmentIsLocal(su: Setup, inner: bool, e: Field, k: int, i: int)
    requires su.m.Ok()
    ensures var j := PoleFace(su.m, !inner);
            TreatedAt(su, inner, e).x1(k, j, i) == e.x1(k, j, i) && TreatedAt(su, inner, e).x3(k, j, i) == e.x3(k, j, i)
  {
    var m, j := su.m, PoleFace(su.m, !inner);
    assert !OnFace(m, 2, inner, 1).Has(k, j, i) && !OnFace(m, 2, inner, 3).Has(k, j, i)
           && !PolarRange(m, inner).Has(k, j, i);
    assert Index(2, k, j, i) == j && FaceIndex(m, 2, inner) == PoleFace(m, inner);
  }

  lemma TreatedEMFBalances(su: Setup, inner: bool, e: Field, k: int, i: int)
    requires su.m.Ok() && PoleOf(su, inner).present && (PoleOf(su, inner).zeroEMF || PoleOf(su, inner).averageEMF)
    requires su.m.Ks() <= k <= su.m.Ke() && su.m.Is() <= i <= su.m.Ie()
    ensures Balanced(su.m, Treated(su, e), 2, k, PoleFace(su.m, inner), i)
  {
    hide TreatedAt;
    var e' := TreatedAt(su, true, e);
    if inner {
      TreatmentBalances(su, true, e, k, i);
      TreatmentIsLocal(su, false, e', k, i);
      TreatmentIsLocal(su, false, e', k, i + 1);
      TreatmentIsLocal(su, false, e', k + 1, i);
    } else {
      TreatmentBalances(su, false, e', k, i);
    }
  }

  lemma StageKeepsClosed(su: Setup, inner: bool, full: Field, sub: Field, e: Field, stale: Field, gam0: real,
                         gam1: real, bdt: real)
    requires SetupOk(su) && MustStayClosed(su, inner)
    requires PoleClosed(su.m, inner, full) && PoleClosed(su.m, inner, sub)
    ensures PoleClosed(su.m, inner, StageUpdate(full, sub, Sourced(su.m, Treated(su, e), stale), gam0, gam1, bdt))
  {
    hide Treated, Sourced, Balanced;
    var m, j, src := su.m, PoleFace(su.m, inner), Sourced(su.m, Treated(su, e), stale);
    forall k, i | m.Ks() <= k <= m.Ke() && m.Is() <= i <= m.Ie()
      ensures StageUpdate(full, sub, src, gam0, gam1, bdt).x2(k, j, i) == 0.0
    {
      TreatedEMFBalances(su, inner, e, k, i);
      BalancedDrivesNothing(m, Treated(su, e), stale, 2, k, j, i);
      assert full.x2(k, j, i) == 0.0 && sub.x2(k, j, i) == 0.0;
    }
  }

  lemma StageKeepsDivFree(m: Mesh, full: Field, sub: Field, e: Field, stale: Field, gam0: real, gam1: real, bdt: real)
    requires m.Ok() && DivFree(m, full) && DivFree(m, sub)
    ensures DivFree(m, StageUpdate(full, sub, Sourced(m, e, stale), gam0, gam1, bdt))
  {
    hide Sourced, FaceDiv, Net, StageUpdate;
    var src := Sourced(m, e, stale);
    var b := StageUpdate(full, sub, src, gam0, gam1, bdt);
    forall k, j, i | m.Interior(k, j, i) ensures FaceDiv(m, b, k, j, i) == 0.0 {
      assert FaceDiv(m, full, k, j, i) == 0.0 && FaceDiv(m, sub, k, j, i) == 0.0;
      NetIsDiv(m, full, k, j, i);
      NetIsDiv(m, sub, k, j, i);
      SourceHasNoNet(m, e, stale, k, j, i);
      NetOfStage(m, full, sub, src, gam0, gam1, bdt, k, j, i);
      NetIsDiv(m, b, k, j, i);
    }
  }

  lemma ReconnectKeepsGood(su: Setup, inner: bool, b: Field)
    requires SetupOk(su) && su.m.ndim == 3 && Good(su, b)
    ensures Good(su, Reconnected(su.m, inner, su.buffer, b))
  {
  }

  lemma CleanKeepsGood(su: Setup, d: int, inside: bool, b: Field)
    requires SetupOk(su) && IsBoundary(su.m, d) && Good(su, b)
    ensures Good(su, Cleaned(su.m, d, inside, b))
  {
    hide Cleaned, DivFree;
    CleanKeepsDivFree(su.m, d, inside, b);
    CleanKeepsClosed(su.m, d, inside, b, true);
    CleanKeepsClosed(su.m, d, inside, b, false);
  }

  lemma CleanKeepsClosed(m: Mesh, d: int, inside: bool, b: Field, inner: bool)
    requires m.Ok() && IsBoundary(m, d) && DivFree(m, b)
    ensures PoleClosed(m, inner, b) ==> PoleClosed(m, inner, Cleaned(m, d, inside, b))
  {
    hide Cleaned, DivFree;
    var j := PoleFace(m, inner);
    forall k, i | m.Ks() <= k <= m.Ke() && m.Is() <= i <= m.Ie()
      ensures Cleaned(m, d, inside, b).x2(k, j, i) == b.x2(k, j, i)
    {
      assert m.InBounds(k, j, i) && Index(2, k, j, i) == j;
      if d == 2 && inside == inner {
        CleanKeepsDomainFace(m, d, inside, b, k, j, i);
      } else {
        CleanChangesOnlyItsFaces(m, d, inside, b, k, j, i);
      }
    }
  }

  /** Every operation keeps every container good, whatever it aliases. */
  lemma StepKeepsGood(su: Setup, s: State, st: Step)
    requires SetupOk(su) && Legal(su, |s.pool|, st)
    requires forall b | b in s.pool :: Good(su, b)
    ensures forall b | b in Apply(su, s, st).pool :: Good(su, b)
  {
    hide Good, Treated, StageUpdate, ReconnectedPoles, DerefinedPoles, Cleaned;
    match st
    case Stage(full, sub, out, emf, gam0, gam1, bdt) =>
      StageKeepsGood(su, s.pool[full], s.pool[sub], emf, s.src, gam0, gam1, bdt);
    case Reconnection(c) =>
      ReconnectPolesKeepsGood(su, s.pool[c]);
    case Derefinement(c) =>
      DerefineKeepsGood(su, s.pool[c]);
    case Clean(c, d, inside) =>
      CleanKeepsGood(su, d, inside, s.pool[c]);
  }

  lemma StageKeepsGood(su: Setup, full: Field, sub: Field, e: Field, stale: Field, gam0: real, gam1: real, bdt: real)
    requires SetupOk(su) && Good(su, full) && Good(su, sub)
    ensures Good(su, StageUpdate(full, sub, Sourced(su.m, Treated(su, e), stale), gam0, gam1, bdt))
  {
    hide Treated, Sourced, StageUpdate, DivFree, PoleClosed;
    StageKeepsDivFree(su.m, full, sub, Treated(su, e), stale, gam0, gam1, bdt);
    if MustStayClosed(su, true) { StageKeepsClosed(su, true, full, sub, e, stale, gam0, gam1, bdt); }
    if MustStayClosed(su, false) { StageKeepsClosed(su, false, full, sub, e, stale, gam0, gam1, bdt); }
  }

  lemma ReconnectPolesKeepsGood(su: Setup, b: Field)
    requires SetupOk(su) && su.m.ndim == 3 && Good(su, b)
    ensures Good(su, ReconnectedPoles(su, b))
  {
    hide Good, Reconnected;
    var b' := if su.inner.present then Reconnected(su.m, true, su.buffer, b) else b;
    if su.inner.present { ReconnectKeepsGood(su, true, b); }
    if su.outer.present { ReconnectKeepsGood(su, false, b'); }
  }

  lemma DerefineKeepsGood(su: Setup, b: Field)
    requires SetupOk(su) && su.nl > 0 && Good(su, b)
    ensures Good(su,
                 DerefinedPoles(su.m, su.nl, su.inner.present, su.outer.present, su.inner.allowFlux, su.outer.allowFlux,
                                b))
  {
    hide DivFree, PoleClosed, Derefined;
    DerefinePolesKeepsDivFree(su.m, su.nl, su.inner.present, su.outer.present, su.inner.allowFlux, su.outer.allowFlux,
                              b);
  }

  /** Safety of every run: from good containers, any sequence of stages (with any EMF, weights and
      step, and any aliasing of the containers), reconnections, derefinements and clean-ups leaves
      every container divergence-free in every interior zone. */
  lemma {:induction false} RunStaysDivFree(su: Setup, s: State, steps: seq<Step>)
    requires SetupOk(su) && forall st | st in steps :: Legal(su, |s.pool|, st)
    requires forall b | b in s.pool :: Good(su, b)
    ensures forall b | b in After(su, s, steps).pool :: Good(su, b) && DivFree(su.m, b)
  {
    if steps != [] {
      var n := |steps| - 1;
      assert forall st | st in steps[..n] :: st in steps;
      assert steps[n] in steps;
      RunStaysDivFree(su, s, steps[..n]);
      StepKeepsGood(su, After(su, s, steps[..n]), steps[n]);
    }
  }

  // -- Starting from a potential

  /** On the polar row the potential along X1 does not vary with X3, nor that along X3 with X1 (both
      vanish on the axis of an axisymmetric seed field). */
  ghost predicate UniformOnPole(m: Mesh, inner: bool, a: Field) {
    var j := PoleFace(m, inner);
    forall k, i | m.Ks() <= k <= m.Ke() + 1 && m.Is() <= i <= m.Ie() + 1 ::
      a.x1(k, j, i) == a.x1(m.Ks(), j, i) && a.x3(k, j, i) == a.x3(k, j, m.Is())
  }

  lemma CurlIsGood(su: Setup, a: Field, stale: Field)
    requires SetupOk(su)
    requires forall inner: bool :: MustStayClosed(su, inner) ==> UniformOnPole(su.m, inner, a)
    ensures Good(su, Curled(su.m, a, stale))
  {
    hide Curled;
    CurlIsDivFree(su.m, a, stale);
    if MustStayClosed(su, true) { CurlClosesPole(su.m, true, a, stale); }
    if MustStayClosed(su, false) { CurlClosesPole(su.m, false, a, stale); }
  }

  lemma CurlClosesPole(m: Mesh, inner: bool, a: Field, stale: Field)
    requires m.Ok() && m.ndim == 3 && UniformOnPole(m, inner, a)
    ensures PoleClosed(m, inner, Curled(m, a, stale))
  {
    hide UniformOnPole, Curled;
    forall k, i | m.Ks() <= k <= m.Ke() && m.Is() <= i <= m.Ie()
      ensures Curled(m, a, stale).x2(k, PoleFace(m, inner), i) == 0.0
    {
      CurlThroughPole(m, inner, a, stale, k, i);
    }
  }

  lemma CurlThroughPole(m: Mesh, inner: bool, a: Field, stale: Field, k: int, i: int)
    requires m.Ok() && m.ndim == 3 && UniformOnPole(m, inner, a) && m.Ks() <= k <= m.Ke() && m.Is() <= i <= m.Ie()
    ensures Curled(m, a, stale).x2(k, PoleFace(m, inner), i) == 0.0
  {
    hide UniformOnPole, CurlFace, Mid, Curled;
    var j := PoleFace(m, inner);
    CurlAtX2Face(m, a, stale, k, j, i);
    UniformAt(m, inner, a, k, i);
    UniformAt(m, inner, a, k, i + 1);
    UniformAt(m, inner, a, k + 1, i);
    UniformAt(m, inner, a, k + 1, i + 1);
    NoSlopeNoCurl(m, Mid(a.x1(k, j, i), a.x1(k, j, i + 1)), Mid(a.x3(k, j, i), a.x3(k + 1, j, i)));
  }

  lemma CurlAtX2Face(m: Mesh, a: Field, stale: Field, k: int, j: int, i: int)
    requires m.Ok() && m.ndim == 3 && m.FaceRange(2).Has(k, j, i)
    ensures Curled(m, a, stale).x2(k, j, i)
         == CurlFace(m.dx3, m.dx1, Mid(a.x1(k + 1, j, i), a.x1(k + 1, j, i + 1)), Mid(a.x1(k, j, i), a.x1(k, j, i + 1)),
                     Mid(a.x3(k, j, i + 1), a.x3(k + 1, j, i + 1)), Mid(a.x3(k, j, i), a.x3(k + 1, j, i)))
  {
    hide CurlFace, Mid;
    m.InteriorIsInside(k, j, i);
    CurledAt(m, a, stale, k, j, i);
  }

  lemma UniformAt(m: Mesh, inner: bool, a: Field, k: int, i: int)
    requires UniformOnPole(m, inner, a) && m.Ks() <= k <= m.Ke() + 1 && m.Is() <= i <= m.Ie() + 1
    ensures var j := PoleFace(m, inner);
            a.x1(k, j, i) == a.x1(m.Ks(), j, i) && a.x3(k, j, i) == a.x3(k, j, m.Is())
  {
  }

  lemma NoSlopeNoCurl(m: Mesh, p: real, q: real)
    requires m.Ok()
    ensures CurlFace(m.dx3, m.dx1, p, p, q, q) == 0.0
  {
  }

  lemma ZeroIsGood(su: Setup)
    requires SetupOk(su)
    ensures Good(su, Zero())
  {
  }

  /** The whole story: seed container 0 with the curl of a potential, leave the others as allocated,
      and run anything.  Every zone of every container is divergence-free at every point. */
  lemma SeededRunIsDivFree(su: Setup, a: Field, others: nat, src: Field, steps: seq<Step>)
    requires SetupOk(su) && forall st | st in steps :: Legal(su, 1 + others, st)
    requires forall inner: bool :: MustStayClosed(su, inner) ==> UniformOnPole(su.m, inner, a)
    ensures var s := State([Curled(su.m, a, Zero())] + seq(others, _ => Zero()), src);
            forall b | b in After(su, s, steps).pool :: DivFree(su.m, b)
  {
    hide Good, Curled, Zero, DivFree, Apply;
    var s := State([Curled(su.m, a, Zero())] + seq(others, _ => Zero()), src);
    CurlIsGood(su, a, Zero());
    ZeroIsGood(su);
    RunStaysDivFree(su, s, steps);
  }
}
