/** One stage of the integrator on the face field: update, reconnection, polar derefinement.  What it
    leaves is written out face by face, in terms of the two old fields and the treated EMF. */
module Stages {
  import opened Grid
  import opened Sums
  import opened FaceCT
  import opened BoundaryEMF
  import opened Reconnect
  import opened BoundaryClean
  import opened Derefine
  import opened BothPoles
  import opened Run
  import opened Emf
  import opened CentredEMF
  import FluxCT

  /** The field one stage leaves in its output container: update, reconnect, derefine. */
  ghost function StageResult(su: Setup, reconnect: bool, full: Field, sub: Field, emf: Field, stale: Field,
                             gam0: real, gam1: real, bdt: real): Field
    requires SetupOk(su)
  {
    var b := StageUpdate(full, sub, Sourced(su.m, Treated(su, emf), stale), gam0, gam1, bdt);
    var b' := if reconnect then ReconnectedPoles(su, b) else b;
    if su.nl > 0
    then DerefinedPoles(su.m, su.nl, su.inner.present, su.outer.present, su.inner.allowFlux, su.outer.allowFlux, b')
    else b'
  }

  lemma StageResultIsGood(su: Setup, reconnect: bool, full: Field, sub: Field, emf: Field, stale: Field,
                          gam0: real, gam1: real, bdt: real)
    requires SetupOk(su) && (reconnect ==> su.m.ndim == 3) && Good(su, full) && Good(su, sub)
    ensures Good(su, StageResult(su, reconnect, full, sub, emf, stale, gam0, gam1, bdt))
  {
    hide Good, Sourced, Treated, StageUpdate, ReconnectedPoles, DerefinedPoles;
    var b := StageUpdate(full, sub, Sourced(su.m, Treated(su, emf), stale), gam0, gam1, bdt);
    StageKeepsGood(su, full, sub, emf, stale, gam0, gam1, bdt);
    if reconnect { ReconnectPolesKeepsGood(su, b); }
    if su.nl > 0 { DerefineKeepsGood(su, if reconnect then ReconnectedPoles(su, b) else b); }
  }

  /** The operations of a run that make up a stage, in the driver's order. */
  ghost function StageSteps(su: Setup, reconnect: bool, full: nat, sub: nat, out: nat, emf: Field, gam0: real,
                            gam1: real, bdt: real): seq<Step>
  {
    [Stage(full, sub, out, emf, gam0, gam1, bdt)] + (if reconnect then [Reconnection(out)] else [])
    + (if su.nl > 0 then [Derefinement(out)] else [])
  }

  /** Runs are made of stages: those operations leave the stage result in the output container. */
  lemma RunsMakeStages(su: Setup, reconnect: bool, s: State, full: nat, sub: nat, out: nat, emf: Field, gam0: real,
                       gam1: real, bdt: real)
    requires SetupOk(su) && (reconnect ==> su.m.ndim == 3) && full < |s.pool| && sub < |s.pool| && out < |s.pool|
    ensures var steps := StageSteps(su, reconnect, full, sub, out, emf, gam0, gam1, bdt);
            && (forall st | st in steps :: Legal(su, |s.pool|, st))
            && After(su, s, steps).pool
               == s.pool[out := StageResult(su, reconnect, s.pool[full], s.pool[sub], emf, s.src, gam0, gam1, bdt)]
  {
    hide StageUpdate, Sourced, Treated, ReconnectedPoles, DerefinedPoles, After;
    var first := Stage(full, sub, out, emf, gam0, gam1, bdt);
    var done, t := [first], Apply(su, s, first);
    StartAfter(su, s);
    AfterOne(su, s, [], first);
    assert [] + [first] == done;
    if reconnect {
      AfterOne(su, s, done, Reconnection(out));
      done, t := done + [Reconnection(out)], Apply(su, t, Reconnection(out));
    }
    if su.nl > 0 {
      AfterOne(su, s, done, Derefinement(out));
      done, t := done + [Derefinement(out)], Apply(su, t, Derefinement(out));
    }
    assert done == StageSteps(su, reconnect, full, sub, out, emf, gam0, gam1, bdt);
  }

  lemma StartAfter(su: Setup, s: State)
    requires SetupOk(su)
    ensures After(su, s, []) == s
  {
  }

  lemma AfterOne(su: Setup, s: State, steps: seq<Step>, st: Step)
    requires SetupOk(su) && (forall st' | st' in steps :: Legal(su, |s.pool|, st')) && Legal(su, |s.pool|, st)
    ensures forall st' | st' in steps + [st] :: Legal(su, |s.pool|, st')
    ensures After(su, s, steps + [st]) == Apply(su, After(su, s, steps), st)
  {
    hide Apply, Legal;
    assert (steps + [st])[..|steps|] == steps;
  }

  // -- The treated EMF, edge by edge

  /** The treatments touch E1 and E3 on the polar faces (and E3 beyond them), and nothing between. */
  lemma TreatedBetween(su: Setup, e: Field, k: int, j: int, i: int)
    requires su.m.Ok() && su.m.InBounds(k, j, i)
    ensures Treated(su, e).x2(k, j, i) == e.x2(k, j, i)
    ensures su.m.Js() < j <= su.m.Je()
            ==> Treated(su, e).x1(k, j, i) == e.x1(k, j, i) && Treated(su, e).x3(k, j, i) == e.x3(k, j, i)
  {
    hide TreatedAt;
    OnePoleBetween(su, true, e, k, j, i);
    OnePoleBetween(su, false, TreatedAt(su, true, e), k, j, i);
  }

  lemma OnePoleBetween(su: Setup, inner: bool, e: Field, k: int, j: int, i: int)
    requires su.m.Ok() && su.m.InBounds(k, j, i)
    ensures TreatedAt(su, inner, e).x2(k, j, i) == e.x2(k, j, i)
    ensures su.m.Js() < j <= su.m.Je()
            ==> TreatedAt(su, inner, e).x1(k, j, i) == e.x1(k, j, i)
                && TreatedAt(su, inner, e).x3(k, j, i) == e.x3(k, j, i)
  {
    hide ZeroedEMF, AveragedEMF;
    ZeroedEdges(su.m, 2, inner, e, k, j, i);
    AveragedOnX2(su.m, su.spherical, inner, e, k, j, i);
    AveragedOnX2(su.m, su.spherical, inner, ZeroedEMF(su.m, 2, inner, e), k, j, i);
  }

  /** On a polar face: zeroing leaves zeros, averaging the mean along the face, and with neither, or where
      the face is no pole of this block, the EMF is what it was. */
  lemma TreatedOnPole(su: Setup, inner: bool, e: Field, k: int, i: int)
    requires su.m.Ok() && 0 <= i <= su.m.Ie() + su.m.ng && 0 <= k <= (if su.m.ndim > 2 then su.m.Ke() + su.m.ng else 0)
    ensures var m, p, t := su.m, if inner then su.inner else su.outer, Treated(su, e);
            var j := if inner then m.Js() else m.Je() + 1;
            if !p.present || (!p.zeroEMF && !p.averageEMF)
            then t.x1(k, j, i) == e.x1(k, j, i) && t.x3(k, j, i) == e.x3(k, j, i)
            else if p.zeroEMF then t.x1(k, j, i) == 0.0 && t.x3(k, j, i) == 0.0
            else
              && (if m.ndim > 2 then t.x1(k, j, i) * m.n3 as real == Sum((z: int) => e.x1(z, j, i), m.Ks(), m.n3)
                  else t.x1(k, j, i) == e.x1(k, j, i))
              && (if su.spherical then t.x3(k, j, i) == 0.0
                  else t.x3(k, j, i) * m.n1 as real == Sum((x: int) => e.x3(k, j, x), m.Is(), m.n1))
  {
    hide TreatedAt, Sum;
    var m, p, e' := su.m, if inner then su.inner else su.outer, TreatedAt(su, true, e);
    var j := if inner then m.Js() else m.Je() + 1;
    if inner {
      OnePoleTreated(su, true, e, k, i);
      TreatmentIsLocal(su, false, e', k, i);
    } else {
      forall k', i' ensures e'.x1(k', j, i') == e.x1(k', j, i') && e'.x3(k', j, i') == e.x3(k', j, i') {
        TreatmentIsLocal(su, true, e, k', i');
      }
      OnePoleTreated(su, false, e', k, i);
      SumSame((z: int) => e.x1(z, j, i), (z: int) => e'.x1(z, j, i), m.Ks(), m.n3);
      SumSame((x: int) => e.x3(k, j, x), (x: int) => e'.x3(k, j, x), m.Is(), m.n1);
    }
  }

  lemma OnePoleTreated(su: Setup, inner: bool, e: Field, k: int, i: int)
    requires su.m.Ok() && 0 <= i <= su.m.Ie() + su.m.ng && 0 <= k <= (if su.m.ndim > 2 then su.m.Ke() + su.m.ng else 0)
    ensures var m, p, t := su.m, if inner then su.inner else su.outer, TreatedAt(su, inner, e);
            var j := if inner then m.Js() else m.Je() + 1;
            if !p.present || (!p.zeroEMF && !p.averageEMF)
            then t.x1(k, j, i) == e.x1(k, j, i) && t.x3(k, j, i) == e.x3(k, j, i)
            else if p.zeroEMF then t.x1(k, j, i) == 0.0 && t.x3(k, j, i) == 0.0
            else
              && (if m.ndim > 2 then t.x1(k, j, i) * m.n3 as real == Sum((z: int) => e.x1(z, j, i), m.Ks(), m.n3)
                  else t.x1(k, j, i) == e.x1(k, j, i))
              && (if su.spherical then t.x3(k, j, i) == 0.0
                  else t.x3(k, j, i) * m.n1 as real == Sum((x: int) => e.x3(k, j, x), m.Is(), m.n1))
  {
    hide ZeroedEMF, AveragedEMF, Sum;
    var m, z := su.m, ZeroedEMF(su.m, 2, inner, e);
    var j := if inner then m.Js() else m.Je() + 1;
    ZeroedEdges(m, 2, inner, e, k, j, i);
    AveragedOnX2(m, su.spherical, inner, e, k, j, i);
    AveragedOnX2(m, su.spherical, inner, z, k, j, i);
    if m.ndim > 2 {
      forall z' | m.Ks() <= z' < m.Ks() + m.n3 ensures z.x1(z', j, i) == 0.0 { ZeroedEdges(m, 2, inner, e, z', j, i); }
      ZeroSum((z': int) => z.x1(z', j, i), m.Ks(), m.n3, AveragedEMF(m, su.spherical, 2, inner, z).x1(k, j, i));
    }
    if !su.spherical {
      forall x | m.Is() <= x < m.Is() + m.n1 ensures z.x3(k, j, x) == 0.0 { ZeroedEdges(m, 2, inner, e, k, j, x); }
      ZeroSum((x: int) => z.x3(k, j, x), m.Is(), m.n1, AveragedEMF(m, su.spherical, 2, inner, z).x3(k, j, i));
    }
  }

  lemma ZeroSum(f: int -> real, lo: int, n: nat, mean: real)
    requires n > 0 && forall x | lo <= x < lo + n :: f(x) == 0.0
    ensures Sum(f, lo, n) == 0.0 && (mean * n as real == Sum(f, lo, n) ==> mean == 0.0)
  {
    SumConst(f, 0.0, lo, n);
  }

  // -- The law of a stage

  // The EMF differenced around a face: what it adds to the field per unit of time.

  function Change1(m: Mesh, e: Field, k: int, j: int, i: int): real
    requires m.Ok()
  {
    (if m.ndim > 2 then (e.x2(k + 1, j, i) - e.x2(k, j, i)) / m.dx3 else 0.0)
    - (e.x3(k, j + 1, i) - e.x3(k, j, i)) / m.dx2
  }

  function Change2(m: Mesh, e: Field, k: int, j: int, i: int): real
    requires m.Ok()
  {
    (e.x3(k, j, i + 1) - e.x3(k, j, i)) / m.dx1
    - (if m.ndim > 2 then (e.x1(k + 1, j, i) - e.x1(k, j, i)) / m.dx3 else 0.0)
  }

  function Change3(m: Mesh, e: Field, k: int, j: int, i: int): real
    requires m.Ok()
  {
    (e.x1(k, j + 1, i) - e.x1(k, j, i)) / m.dx2 - (e.x2(k, j, i + 1) - e.x2(k, j, i)) / m.dx1
  }

  function Sum3(u: real, p: real, v: real, q: real, w: real, r: real): real { u * p + v * q + w * r }

  function Advance(u: real, v: real, w: real, sub: Scalar, full: Scalar, change: real, k: int, j: int, i: int): real {
    Sum3(u, sub(k, j, i), v, full(k, j, i), w, change)
  }

  function Advanced(m: Mesh, full: Field, sub: Field, e: Field, gam0: real, gam1: real, bdt: real): Field
    requires m.Ok()
  {
    Field((k, j, i) => Advance(gam0, gam1, bdt, sub.x1, full.x1, Change1(m, e, k, j, i), k, j, i),
          (k, j, i) => Advance(gam0, gam1, bdt, sub.x2, full.x2, Change2(m, e, k, j, i), k, j, i),
          (k, j, i) => Advance(gam0, gam1, bdt, sub.x3, full.x3, Change3(m, e, k, j, i), k, j, i))
  }

  /** Columns of X3 faces reconnection treats. */
  predicate Column(su: Setup, j: int, i: int) {
    && 0 <= i <= su.m.Ie() + su.m.ng - su.buffer
    && ((su.inner.present && j == su.m.Js()) || (su.outer.present && j == su.m.Je()))
  }

  function LessMean3(su: Setup, b: Field, k: int, j: int, i: int): real
    requires su.m.Ok()
  {
    b.x3(k, j, i)
    - (if Column(su, j, i) then Sum(Line(b.x3, 3, 0, j, i), su.m.Ks(), su.m.n3) / su.m.n3 as real else 0.0)
  }

  /** `b` with the mean taken off every such column. */
  function LessMeans(su: Setup, b: Field): Field
    requires su.m.Ok()
  {
    b.(x3 := (k, j, i) => LessMean3(su, b, k, j, i))
  }

  /** Rows of zones, and of X2 faces, which derefinement changes at a pole. */
  predicate DerefinedZones(su: Setup, inner: bool, j: int) {
    su.nl > 0 && PoleOf(su, inner).present && (if inner then j < su.m.Js() + su.nl else j > su.m.Je() - su.nl)
  }
  predicate DerefinedFaces(su: Setup, inner: bool, j: int) {
    su.nl > 0 && PoleOf(su, inner).present && (if inner then j < su.m.Js() + su.nl else j > su.m.Je() + 1 - su.nl)
  }

  /** On every interior face outside the derefined rows `c` is `b`. */
  ghost predicate SameOffRows(su: Setup, b: Field, c: Field) {
    forall k, j, i ::
      && (su.m.FaceRange(1).Has(k, j, i) && !DerefinedZones(su, true, j) && !DerefinedZones(su, false, j)
          ==> c.x1(k, j, i) == b.x1(k, j, i))
      && (su.m.FaceRange(2).Has(k, j, i) && !DerefinedFaces(su, true, j) && !DerefinedFaces(su, false, j)
          ==> c.x2(k, j, i) == b.x2(k, j, i))
      && (su.m.FaceRange(3).Has(k, j, i) && !DerefinedZones(su, true, j) && !DerefinedZones(su, false, j)
          ==> c.x3(k, j, i) == b.x3(k, j, i))
  }

  /** In every derefined row `c` holds what coarse cells would carry of `b`. */
  ghost predicate CoarseInRows(su: Setup, b: Field, c: Field) {
    forall inner: bool, k, j, i | su.m.Interior(k, j, i) && DerefinedZones(su, inner, j) ::
      CoarseAt(su, inner, b, c, k, j, i)
  }

  ghost predicate CoarseAt(su: Setup, inner: bool, b: Field, c: Field, k: int, jc: int, i: int)
    requires su.m.Interior(k, jc, i) && DerefinedZones(su, inner, jc)
  {
    var m, nl := su.m, su.nl;
    var l := if inner then m.Js() + nl - 1 - jc else jc - (m.Je() + 1 - nl);
    var j, len := if inner then jc else jc + 1, Pow2(l + 1);
    CarriesCell(m, b, c, inner, !PoleOf(su, inner).allowFlux && j == (if inner then m.Js() else m.Je() + 1),
                k - (k - m.ng) % len, len, k, jc, j, i)
  }

  /** The derefined rows of the two poles, if both are on the block, do not overlap. */
  predicate RowsApart(su: Setup) { su.inner.present && su.outer.present ==> 2 * su.nl <= su.m.n2 }

  /** What a stage leaves in `out`: on every interior face outside the derefined rows the combination of the
      old fields and the circulation of the treated EMF, less the column mean where B3 is reconnected; in
      the derefined rows what coarse cells would carry of that; no net B3 through reconnected columns. */
  ghost predicate StageLaw(su: Setup, reconnect: bool, full: Field, sub: Field, emf: Field, gam0: real, gam1: real,
                           bdt: real, out: Field)
    requires SetupOk(su)
  {
    var b := Advanced(su.m, full, sub, Treated(su, emf), gam0, gam1, bdt);
    var b' := if reconnect then LessMeans(su, b) else b;
    && SameOffRows(su, b', out)
    && (su.nl > 0 && RowsApart(su) ==> CoarseInRows(su, b', out))
    && (reconnect && su.nl <= 0 ==> NoNetColumns(su, out))
  }

  ghost predicate NoNetColumns(su: Setup, b: Field)
    requires su.m.Ok()
  {
    forall j, i | Column(su, j, i) :: Sum(Line(b.x3, 3, 0, j, i), su.m.Ks(), su.m.n3) == 0.0
  }

  // -- The update

  lemma TurnOver(b: real, c: real, x: real, y: real)
    requires b > 0.0 && c > 0.0
    ensures (c * x + b * y) / (b * c) == x / b + y / c && (c * x) / (b * c) == x / b
  {
    var u, v := x / b, y / c;
    assert c * x + b * y == (u + v) * (b * c) && c * x == u * (b * c);
  }

  lemma Circulation1Is(m: Mesh, p': real, p: real, q': real, q: real)
    requires m.Ok()
    ensures CirculationF1(m, p', p, q', q) == (if m.ndim > 2 then (q' - q) / m.dx3 else 0.0) - (p' - p) / m.dx2
  {
    TurnOver(m.dx2, m.dx3, -(p' - p), q' - q);
  }

  lemma Circulation2Is(m: Mesh, p': real, p: real, q': real, q: real)
    requires m.Ok()
    ensures CirculationF2(m, p', p, q', q) == (p' - p) / m.dx1 - (if m.ndim > 2 then (q' - q) / m.dx3 else 0.0)
  {
    TurnOver(m.dx1, m.dx3, p' - p, -(q' - q));
  }

  lemma Circulation3Is(m: Mesh, p': real, p: real, q': real, q: real)
    requires m.Ok()
    ensures CirculationF3(m, p', p, q', q) == (q' - q) / m.dx2 - (p' - p) / m.dx1
  {
    TurnOver(m.dx1, m.dx2, -(p' - p), q' - q);
  }

  lemma UpdateAt(full: Field, sub: Field, src: Field, gam0: real, gam1: real, bdt: real, k: int, j: int, i: int)
    ensures var b := StageUpdate(full, sub, src, gam0, gam1, bdt);
            && b.x1(k, j, i) == Sum3(gam0, sub.x1(k, j, i), gam1, full.x1(k, j, i), bdt, src.x1(k, j, i))
            && b.x2(k, j, i) == Sum3(gam0, sub.x2(k, j, i), gam1, full.x2(k, j, i), bdt, src.x2(k, j, i))
            && b.x3(k, j, i) == Sum3(gam0, sub.x3(k, j, i), gam1, full.x3(k, j, i), bdt, src.x3(k, j, i))
  {
  }

  ghost predicate SameInside(m: Mesh, b: Field, c: Field) {
    forall k, j, i ::
      && (m.FaceRange(1).Has(k, j, i) ==> c.x1(k, j, i) == b.x1(k, j, i))
      && (m.FaceRange(2).Has(k, j, i) ==> c.x2(k, j, i) == b.x2(k, j, i))
      && (m.FaceRange(3).Has(k, j, i) ==> c.x3(k, j, i) == b.x3(k, j, i))
  }

  lemma UpdateIsAdvance(m: Mesh, full: Field, sub: Field, e: Field, stale: Field, gam0: real, gam1: real, bdt: real)
    requires m.Ok()
    ensures SameInside(m, Advanced(m, full, sub, e, gam0, gam1, bdt),
                       StageUpdate(full, sub, Sourced(m, e, stale), gam0, gam1, bdt))
  {
    var b, c :=
      Advanced(m, full, sub, e, gam0, gam1, bdt), StageUpdate(full, sub, Sourced(m, e, stale), gam0, gam1, bdt);
    forall k, j, i
      ensures m.FaceRange(1).Has(k, j, i) ==> c.x1(k, j, i) == b.x1(k, j, i)
      ensures m.FaceRange(2).Has(k, j, i) ==> c.x2(k, j, i) == b.x2(k, j, i)
      ensures m.FaceRange(3).Has(k, j, i) ==> c.x3(k, j, i) == b.x3(k, j, i)
    {
      AdvanceAt(m, full, sub, e, stale, gam0, gam1, bdt, k, j, i);
    }
  }

  lemma SourceOnX1(m: Mesh, e: Field, stale: Field, k: int, j: int, i: int)
    requires m.Ok() && m.FaceRange(1).Has(k, j, i)
    ensures Sourced(m, e, stale).x1(k, j, i) == Change1(m, e, k, j, i)
  {
    SourcedAt(m, e, stale, k, j, i);
    hide Sourced, CirculationF1;
    Circulation1Is(m, e.x3(k, j + 1, i), e.x3(k, j, i), Above(m, e.x2, k, j, i), e.x2(k, j, i));
  }

  lemma SourceOnX2(m: Mesh, e: Field, stale: Field, k: int, j: int, i: int)
    requires m.Ok() && m.FaceRange(2).Has(k, j, i)
    ensures Sourced(m, e, stale).x2(k, j, i) == Change2(m, e, k, j, i)
  {
    SourcedAt(m, e, stale, k, j, i);
    hide Sourced, CirculationF2;
    Circulation2Is(m, e.x3(k, j, i + 1), e.x3(k, j, i), Above(m, e.x1, k, j, i), e.x1(k, j, i));
  }

  lemma SourceOnX3(m: Mesh, e: Field, stale: Field, k: int, j: int, i: int)
    requires m.Ok() && m.FaceRange(3).Has(k, j, i)
    ensures Sourced(m, e, stale).x3(k, j, i) == Change3(m, e, k, j, i)
  {
    SourcedAt(m, e, stale, k, j, i);
    hide Sourced, CirculationF3;
    Circulation3Is(m, e.x2(k, j, i + 1), e.x2(k, j, i), e.x1(k, j + 1, i), e.x1(k, j, i));
  }

  lemma AdvanceAt(m: Mesh, full: Field, sub: Field, e: Field, stale: Field, gam0: real, gam1: real, bdt: real, k: int,
                  j: int, i: int)
    requires m.Ok()
    ensures var b, c :=
            Advanced(m, full, sub, e, gam0, gam1, bdt), StageUpdate(full, sub, Sourced(m, e, stale), gam0, gam1, bdt);
            && (m.FaceRange(1).Has(k, j, i) ==> c.x1(k, j, i) == b.x1(k, j, i))
            && (m.FaceRange(2).Has(k, j, i) ==> c.x2(k, j, i) == b.x2(k, j, i))
            && (m.FaceRange(3).Has(k, j, i) ==> c.x3(k, j, i) == b.x3(k, j, i))
  {
    UpdateAt(full, sub, Sourced(m, e, stale), gam0, gam1, bdt, k, j, i);
    AdvancedAt(m, full, sub, e, gam0, gam1, bdt, k, j, i);
    hide StageUpdate, Sourced, Sum3, Change1, Change2, Change3, Advanced;
    if m.FaceRange(1).Has(k, j, i) { SourceOnX1(m, e, stale, k, j, i); }
    if m.FaceRange(2).Has(k, j, i) { SourceOnX2(m, e, stale, k, j, i); }
    if m.FaceRange(3).Has(k, j, i) { SourceOnX3(m, e, stale, k, j, i); }
  }

  lemma AdvancedAt(m: Mesh, full: Field, sub: Field, e: Field, gam0: real, gam1: real, bdt: real, k: int, j: int,
                   i: int)
    requires m.Ok()
    ensures var b := Advanced(m, full, sub, e, gam0, gam1, bdt);
            && b.x1(k, j, i) == Sum3(gam0, sub.x1(k, j, i), gam1, full.x1(k, j, i), bdt, Change1(m, e, k, j, i))
            && b.x2(k, j, i) == Sum3(gam0, sub.x2(k, j, i), gam1, full.x2(k, j, i), bdt, Change2(m, e, k, j, i))
            && b.x3(k, j, i) == Sum3(gam0, sub.x3(k, j, i), gam1, full.x3(k, j, i), bdt, Change3(m, e, k, j, i))
  {
    hide Sum3, Change1, Change2, Change3;
  }

  // -- Reconnection at both poles

  /** Both passes of reconnection take the mean off every column of the rows of the poles present. */
  lemma ReconnectionIs(su: Setup, b: Field, k: int, j: int, i: int)
    requires su.m.Ok() && su.m.ndim == 3
    ensures var r := ReconnectedPoles(su, b);
            && r.x1(k, j, i) == b.x1(k, j, i) && r.x2(k, j, i) == b.x2(k, j, i)
            && r.x3(k, j, i) == LessMeans(su, b).x3(k, j, i)
  {
    hide LineMean, Reconnected;
    var m := su.m;
    var p := if su.inner.present then Reconnected(m, true, su.buffer, b) else b;
    ColumnMean(m, b.x3, k, j, i);
    forall z { TakenOff(m, true, su.buffer, b, z, j, i); }
    TakenOff(m, false, su.buffer, p, k, j, i);
    if su.inner.present && su.outer.present && j == m.Je() && 0 <= i <= m.Ie() + m.ng - su.buffer {
      if m.Js() == m.Je() {
        ReconnectedSumIsZero(m, true, su.buffer, b, i);
        MeanOfColumn(m, p.x3, (z: int) => p.x3(z, j, i), k, j, i);
      } else {
        SameColumn(m, p.x3, b.x3, k, j, i);
      }
    }
  }

  lemma TakenOff(m: Mesh, inner: bool, buffer: nat, b: Field, k: int, j: int, i: int)
    requires m.Ok()
    ensures Reconnected(m, inner, buffer, b).x1 == b.x1 && Reconnected(m, inner, buffer, b).x2 == b.x2
    ensures Reconnected(m, inner, buffer, b).x3(k, j, i)
            == if j == (if inner then m.Js() else m.Je()) && 0 <= i <= m.Ie() + m.ng - buffer
               then b.x3(k, j, i) - LineMean(m, b.x3, 3, k, j, i) else b.x3(k, j, i)
  {
    hide LineMean;
  }

  lemma ColumnMean(m: Mesh, s: Scalar, k: int, j: int, i: int)
    requires m.Ok()
    ensures LineMean(m, s, 3, k, j, i) == Sum(Line(s, 3, 0, j, i), m.Ks(), m.n3) / m.n3 as real
  {
  }

  lemma SameColumn(m: Mesh, s: Scalar, t: Scalar, k: int, j: int, i: int)
    requires m.Ok() && forall z :: s(z, j, i) == t(z, j, i)
    ensures LineMean(m, s, 3, k, j, i) == LineMean(m, t, 3, k, j, i)
  {
    SumSame(Line(s, 3, k, j, i), Line(t, 3, k, j, i), m.Ks(), m.n3);
  }

  lemma MeanOfColumn(m: Mesh, s: Scalar, f: int -> real, k: int, j: int, i: int)
    requires m.Ok() && (forall z :: f(z) == s(z, j, i)) && Sum(f, m.Ks(), m.n3) == 0.0
    ensures LineMean(m, s, 3, k, j, i) == 0.0
  {
    SumSame(f, Line(s, 3, k, j, i), m.Ks(), m.n3);
  }

  /** No net B3 threads the columns it treated. */
  lemma ReconnectedColumns(su: Setup, b: Field)
    requires su.m.Ok() && su.m.ndim == 3
    ensures NoNetColumns(su, ReconnectedPoles(su, b))
  {
    hide LineMean, Sum, Reconnected;
    var m, r := su.m, ReconnectedPoles(su, b);
    var p := if su.inner.present then Reconnected(m, true, su.buffer, b) else b;
    forall j, i | Column(su, j, i)
      ensures Sum(Line(r.x3, 3, 0, j, i), m.Ks(), m.n3) == 0.0
    {
      if su.outer.present && j == m.Je() {
        ReconnectedSumIsZero(m, false, su.buffer, p, i);
        SumSame((z: int) => r.x3(z, j, i), Line(r.x3, 3, 0, j, i), m.Ks(), m.n3);
      } else {
        ReconnectedSumIsZero(m, true, su.buffer, b, i);
        forall z ensures r.x3(z, j, i) == p.x3(z, j, i) { TakenOff(m, false, su.buffer, p, z, j, i); }
        SumSame((z: int) => p.x3(z, j, i), Line(r.x3, 3, 0, j, i), m.Ks(), m.n3);
      }
    }
  }

  lemma SameMeansOff(su: Setup, b: Field, c: Field)
    requires su.m.Ok() && su.m.ndim == 3 && SameInside(su.m, b, c)
    ensures SameInside(su.m, LessMeans(su, b), ReconnectedPoles(su, c))
  {
    hide ReconnectedPoles, Sum;
    var m := su.m;
    forall k, j, i
      ensures var b', c' := LessMeans(su, b), ReconnectedPoles(su, c);
              && (m.FaceRange(1).Has(k, j, i) ==> c'.x1(k, j, i) == b'.x1(k, j, i))
              && (m.FaceRange(2).Has(k, j, i) ==> c'.x2(k, j, i) == b'.x2(k, j, i))
              && (m.FaceRange(3).Has(k, j, i) ==> c'.x3(k, j, i) == b'.x3(k, j, i))
    {
      ReconnectionIs(su, c, k, j, i);
      if m.FaceRange(3).Has(k, j, i) { SumSame(Line(b.x3, 3, 0, j, i), Line(c.x3, 3, 0, j, i), m.Ks(), m.n3); }
    }
  }

  // -- Derefinement at both poles

  lemma OffRows(su: Setup, b: Field)
    requires SetupOk(su) && su.nl > 0
    ensures SameOffRows(su, b, DerefinedPoles(su.m, su.nl, su.inner.present, su.outer.present, su.inner.allowFlux,
                                              su.outer.allowFlux, b))
  {
    var m, nl := su.m, su.nl;
    var p := if su.inner.present then Derefined(m, nl, true, su.inner.allowFlux, b) else b;
    var d := if su.outer.present then Derefined(m, nl, false, su.outer.allowFlux, p) else p;
    hide Mean1, Mean2, Inner3;
    forall k, j, i
      ensures m.FaceRange(1).Has(k, j, i) && !DerefinedZones(su, true, j) && !DerefinedZones(su, false, j)
              ==> d.x1(k, j, i) == b.x1(k, j, i)
      ensures m.FaceRange(2).Has(k, j, i) && !DerefinedFaces(su, true, j) && !DerefinedFaces(su, false, j)
              ==> d.x2(k, j, i) == b.x2(k, j, i)
      ensures m.FaceRange(3).Has(k, j, i) && !DerefinedZones(su, true, j) && !DerefinedZones(su, false, j)
              ==> d.x3(k, j, i) == b.x3(k, j, i)
    {
      PassAt(m, nl, true, su.inner.allowFlux, b, k, j, i);
      PassAt(m, nl, false, su.outer.allowFlux, p, k, j, i);
    }
  }

  lemma PassAt(m: Mesh, nl: int, inner: bool, allow: bool, b: Field, k: int, j: int, i: int)
    requires m.Ok()
    ensures var d := Derefined(m, nl, inner, allow, b);
            && d.x1(k, j, i) == New1(m, nl, inner, b, k, j, i) && d.x2(k, j, i) == New2(m, nl, inner, allow, b, k, j, i)
            && d.x3(k, j, i) == New3(m, nl, inner, b, k, j, i)
  {
    hide New1, New2, New3;
  }

  function PolesOf(su: Setup): Poles {
    Poles(su.inner.present, su.outer.present, su.inner.allowFlux, su.outer.allowFlux)
  }

  lemma CoarseRows(su: Setup, b: Field, c: Field)
    requires SetupOk(su) && su.nl > 0 && RowsApart(su) && SameInside(su.m, b, c)
    ensures CoarseInRows(su, b, DerefinedPoles(su.m, su.nl, su.inner.present, su.outer.present, su.inner.allowFlux,
                                               su.outer.allowFlux, c))
  {
    hide CoarseAt, DerefinedPoles;
    var d := DerefinedPoles(su.m, su.nl, su.inner.present, su.outer.present, su.inner.allowFlux, su.outer.allowFlux, c);
    forall inner: bool, k, j, i | su.m.Interior(k, j, i) && DerefinedZones(su, inner, j)
      ensures CoarseAt(su, inner, b, d, k, j, i)
    {
      CoarseRow(su, inner, b, c, k, j, i);
    }
  }

  lemma CoarseRow(su: Setup, inner: bool, b: Field, c: Field, k: int, jc: int, i: int)
    requires SetupOk(su) && su.nl > 0 && RowsApart(su) && SameInside(su.m, b, c)
    requires su.m.Interior(k, jc, i) && DerefinedZones(su, inner, jc)
    ensures CoarseAt(su, inner, b, DerefinedPoles(su.m, su.nl, su.inner.present, su.outer.present, su.inner.allowFlux,
                                                  su.outer.allowFlux, c), k, jc, i)
  {
    hide Net, Sum, CarriesCell, AtPoles, DerefinedPoles, Pow2, Fits, SetupOk, Apart, SameInside, Mesh.Interior;
    var m, nl := su.m, su.nl;
    var l := if inner then m.Js() + nl - 1 - jc else jc - (m.Je() + 1 - nl);
    var j, len := if inner then jc else jc + 1, Pow2(l + 1);
    var shut := !PoleOf(su, inner).allowFlux && j == (if inner then m.Js() else m.Je() + 1);
    CoarseRowAt(su, inner, b, c, k, jc, i, l, len, k - (k - m.ng) % len, j, shut);
  }

  lemma CoarseRowAt(su: Setup, inner: bool, b: Field, c: Field, k: int, jc: int, i: int, l: int, len: nat, k0: int,
                    j: int, shut: bool)
    requires SetupOk(su) && su.nl > 0 && RowsApart(su) && SameInside(su.m, b, c)
    requires su.m.Interior(k, jc, i) && DerefinedZones(su, inner, jc)
    requires l == (if inner then su.m.Js() + su.nl - 1 - jc else jc - (su.m.Je() + 1 - su.nl)) && len == Pow2(l + 1)
    requires k0 == k - (k - su.m.ng) % len && j == (if inner then jc else jc + 1)
    requires shut == (!PoleOf(su, inner).allowFlux && j == (if inner then su.m.Js() else su.m.Je() + 1))
    ensures CarriesCell(su.m, b, DerefinedPoles(su.m, su.nl, su.inner.present, su.outer.present, su.inner.allowFlux,
                                                su.outer.allowFlux, c), inner, shut, k0, len, k, jc, j, i)
  {
    var m, nl, ps := su.m, su.nl, PolesOf(su);
    hide Net, Sum, CarriesCell, DerefinedPoles, Pow2, SameInside;
    RowsHold(m, nl, ps, inner, c, k, jc, i);
    CellInside(m, nl, ps, inner, k, jc, i, l);
    CellOfSame(m, b, c, AtPoles(m, nl, ps, c), inner, shut, k0, len, k, jc, j, i);
  }

  lemma CellInside(m: Mesh, nl: int, ps: Poles, inner: bool, k: int, jc: int, i: int, l: int)
    requires Apart(m, nl, ps) && ps.At(inner) && m.Interior(k, jc, i)
    requires if inner then jc < m.Js() + nl else jc > m.Je() - nl
    requires l == (if inner then m.Js() + nl - 1 - jc else jc - (m.Je() + 1 - nl))
    ensures var k0 := k - (k - m.ng) % Pow2(l + 1);
            m.Ks() <= k0 && k0 + Pow2(l + 1) <= m.Ke() + 1
  {
    hide Pow2;
    RowNames(m, nl, ps, inner, k, jc, i, l, Pow2(l + 1));
    CoarseCell(m, nl, inner, FaceOfRow(inner, jc), k);
  }

  lemma CellOfSame(m: Mesh, b: Field, c: Field, d: Field, inner: bool, shut: bool, k0: int, len: nat, k: int, jc: int,
                   j: int, i: int)
    requires m.Ok() && m.ndim == 3 && SameInside(m, b, c) && CarriesCell(m, c, d, inner, shut, k0, len, k, jc, j, i)
    requires m.Ks() <= k0 && k0 + len <= m.Ke() + 1 && len > 0 && m.Interior(k0, jc, i) && jc <= j <= jc + 1
    ensures CarriesCell(m, b, d, inner, shut, k0, len, k, jc, j, i)
  {
    SameSums(m, b, c, k0, len, jc, j, i);
    assert c.x3(k0, jc, i) == b.x3(k0, jc, i) && c.x3(k0 + len, jc, i) == b.x3(k0 + len, jc, i);
    hide SameInside, Sum, Total, Net, Times, Weighted, NetLine;
  }

  lemma SameSums(m: Mesh, b: Field, c: Field, k0: int, len: nat, jc: int, j: int, i: int)
    requires m.Ok() && m.ndim == 3 && SameInside(m, b, c) && m.Ks() <= k0 && k0 + len <= m.Ke() + 1
    requires m.Js() <= jc <= m.Je() && m.Is() <= i <= m.Ie() && jc <= j <= jc + 1
    ensures Sum(Line(b.x1, 3, 0, jc, i), k0, len) == Sum(Line(c.x1, 3, 0, jc, i), k0, len)
    ensures Sum(Line(b.x1, 3, 0, jc, i + 1), k0, len) == Sum(Line(c.x1, 3, 0, jc, i + 1), k0, len)
    ensures Sum(Line(b.x2, 3, 0, j, i), k0, len) == Sum(Line(c.x2, 3, 0, j, i), k0, len)
    ensures Total(Weighted(b.x2, m.A2()), k0, len, j, i) == Total(Weighted(c.x2, m.A2()), k0, len, j, i)
    ensures Sum(NetLine(m, b, jc, i), k0, len) == Sum(NetLine(m, c, jc, i), k0, len)
  {
    SumSame(Line(Weighted(b.x2, m.A2()), 3, 0, j, i), Line(Weighted(c.x2, m.A2()), 3, 0, j, i), k0, len);
    SumSame(Line(b.x1, 3, 0, jc, i), Line(c.x1, 3, 0, jc, i), k0, len);
    SumSame(Line(b.x1, 3, 0, jc, i + 1), Line(c.x1, 3, 0, jc, i + 1), k0, len);
    SumSame(Line(b.x2, 3, 0, j, i), Line(c.x2, 3, 0, j, i), k0, len);
    forall x | k0 <= x < k0 + len ensures NetLine(m, b, jc, i)(x) == NetLine(m, c, jc, i)(x) {
      m.FacesOfZone(x, jc, i);
      SameNet(m, b, c, x, jc, i);
    }
    SumSame(NetLine(m, b, jc, i), NetLine(m, c, jc, i), k0, len);
  }

  lemma SameNet(m: Mesh, b: Field, c: Field, k: int, j: int, i: int)
    requires m.Ok() && SameInside(m, b, c) && m.Interior(k, j, i)
    ensures Net(m, b, k, j, i) == Net(m, c, k, j, i)
  {
    m.FacesOfZone(k, j, i);
    hide NetOf;
    assert m.ndim > 2 ==> m.FaceRange(3).Has(k + 1, j, i);
  }

  // -- The law holds

  lemma SameThenOff(su: Setup, b: Field, c: Field, d: Field)
    requires SameInside(su.m, b, c) && SameOffRows(su, c, d)
    ensures SameOffRows(su, b, d)
  {
  }

  lemma StageObeys(su: Setup, reconnect: bool, full: Field, sub: Field, emf: Field, stale: Field, gam0: real,
                   gam1: real, bdt: real)
    requires SetupOk(su) && (reconnect ==> su.m.ndim == 3)
    ensures StageLaw(su, reconnect, full, sub, emf, gam0, gam1, bdt,
                     StageResult(su, reconnect, full, sub, emf, stale, gam0, gam1, bdt))
  {
    hide Treated, Sourced, StageUpdate, Advanced, ReconnectedPoles, DerefinedPoles, LessMeans, SameInside, SameOffRows,
         CoarseInRows, NoNetColumns;
    var m, e := su.m, Treated(su, emf);
    var b, c :=
      Advanced(m, full, sub, e, gam0, gam1, bdt), StageUpdate(full, sub, Sourced(m, e, stale), gam0, gam1, bdt);
    UpdateIsAdvance(m, full, sub, e, stale, gam0, gam1, bdt);
    var b', c' := if reconnect then LessMeans(su, b) else b, if reconnect then ReconnectedPoles(su, c) else c;
    if reconnect {
      SameMeansOff(su, b, c);
      ReconnectedColumns(su, c);
    }
    if su.nl > 0 {
      OffRows(su, c');
      SameThenOff(su, b', c', StageResult(su, reconnect, full, sub, emf, stale, gam0, gam1, bdt));
      if RowsApart(su) { CoarseRows(su, b', c'); }
    } else {
      NoRows(su, b', c');
    }
  }

  lemma NoRows(su: Setup, b: Field, c: Field)
    requires SameInside(su.m, b, c)
    ensures SameOffRows(su, b, c)
  {
  }

  // -- What the law says

  // Face by face, with nothing left to look up: on every interior face outside the derefined rows and the
  // reconnected columns, the integrator's combination of the old fields plus the step times the circulation
  // of the treated EMF per area.

  lemma StageOnX1(su: Setup, reconnect: bool, full: Field, sub: Field, emf: Field, gam0: real, gam1: real, bdt: real,
                 out: Field, k: int, j: int, i: int)
    requires SetupOk(su) && StageLaw(su, reconnect, full, sub, emf, gam0, gam1, bdt, out)
    requires su.m.Ks() <= k <= su.m.Ke() && su.m.Js() <= j <= su.m.Je() && su.m.Is() <= i <= su.m.Ie() + 1
    requires su.nl > 0
             ==> (su.inner.present ==> j >= su.m.Js() + su.nl) && (su.outer.present ==> j <= su.m.Je() - su.nl)
    ensures var m, e := su.m, Treated(su, emf);
            out.x1(k, j, i) == gam0 * sub.x1(k, j, i) + gam1 * full.x1(k, j, i)
                              + bdt * ((if m.ndim > 2 then (e.x2(k + 1, j, i) - e.x2(k, j, i)) / m.dx3 else 0.0)
                                       - (e.x3(k, j + 1, i) - e.x3(k, j, i)) / m.dx2)
  {
    hide Treated, Sum;
    assert su.m.FaceRange(1).Has(k, j, i);
    AdvancedAt(su.m, full, sub, Treated(su, emf), gam0, gam1, bdt, k, j, i);
    hide Advanced;
  }

  lemma StageOnX2(su: Setup, reconnect: bool, full: Field, sub: Field, emf: Field, gam0: real, gam1: real, bdt: real,
                 out: Field, k: int, j: int, i: int)
    requires SetupOk(su) && StageLaw(su, reconnect, full, sub, emf, gam0, gam1, bdt, out)
    requires su.m.Ks() <= k <= su.m.Ke() && su.m.Js() <= j <= su.m.Je() + 1 && su.m.Is() <= i <= su.m.Ie()
    requires su.nl > 0
             ==> (su.inner.present ==> j >= su.m.Js() + su.nl) && (su.outer.present ==> j <= su.m.Je() + 1 - su.nl)
    ensures var m, e := su.m, Treated(su, emf);
            out.x2(k, j, i) == gam0 * sub.x2(k, j, i) + gam1 * full.x2(k, j, i)
                              + bdt * ((e.x3(k, j, i + 1) - e.x3(k, j, i)) / m.dx1
                                       - (if m.ndim > 2 then (e.x1(k + 1, j, i) - e.x1(k, j, i)) / m.dx3 else 0.0))
  {
    hide Treated, Sum;
    assert su.m.FaceRange(2).Has(k, j, i);
    AdvancedAt(su.m, full, sub, Treated(su, emf), gam0, gam1, bdt, k, j, i);
    hide Advanced;
  }

  lemma StageOnX3(su: Setup, reconnect: bool, full: Field, sub: Field, emf: Field, gam0: real, gam1: real, bdt: real,
                 out: Field, k: int, j: int, i: int)
    requires SetupOk(su) && StageLaw(su, reconnect, full, sub, emf, gam0, gam1, bdt, out)
    requires su.m.Ks() <= k <= (if su.m.ndim > 2 then su.m.Ke() + 1 else su.m.Ke())
    requires su.m.Js() <= j <= su.m.Je() && su.m.Is() <= i <= su.m.Ie()
    requires su.nl > 0
             ==> (su.inner.present ==> j >= su.m.Js() + su.nl) && (su.outer.present ==> j <= su.m.Je() - su.nl)
    requires reconnect && i <= su.m.Ie() + su.m.ng - su.buffer
             ==> (su.inner.present ==> j != su.m.Js()) && (su.outer.present ==> j != su.m.Je())
    ensures var m, e := su.m, Treated(su, emf);
            out.x3(k, j, i) == gam0 * sub.x3(k, j, i) + gam1 * full.x3(k, j, i)
                              + bdt * ((e.x1(k, j + 1, i) - e.x1(k, j, i)) / m.dx2
                                       - (e.x2(k, j, i + 1) - e.x2(k, j, i)) / m.dx1)
  {
    hide Treated, Sum;
    assert su.m.FaceRange(3).Has(k, j, i);
    AdvancedAt(su.m, full, sub, Treated(su, emf), gam0, gam1, bdt, k, j, i);
    hide Advanced;
  }

  /** Through a reconnected column no net B3 is left, where nothing is derefined. */
  lemma StageClosesColumns(su: Setup, reconnect: bool, full: Field, sub: Field, emf: Field, gam0: real, gam1: real,
                           bdt: real, out: Field, inner: bool, i: int)
    requires SetupOk(su) && StageLaw(su, reconnect, full, sub, emf, gam0, gam1, bdt, out)
    requires reconnect && su.nl <= 0 && (if inner then su.inner.present else su.outer.present)
    requires 0 <= i <= su.m.Ie() + su.m.ng - su.buffer
    ensures var j := if inner then su.m.Js() else su.m.Je();
            Sum((z: int) => out.x3(z, j, i), su.m.Ks(), su.m.n3) == 0.0
  {
    hide Treated, Sum, Advanced, LessMeans, SameOffRows;
    var j := if inner then su.m.Js() else su.m.Je();
    assert Column(su, j, i);
    SumSame((z: int) => out.x3(z, j, i), Line(out.x3, 3, 0, j, i), su.m.Ks(), su.m.n3);
  }

  lemma TreatedAway(su: Setup, e: Field, k: int, j: int, i: int)
    requires su.m.Ok() && 0 <= i <= su.m.Ie() + su.m.ng && 0 <= k <= (if su.m.ndim > 2 then su.m.Ke() + su.m.ng else 0)
    requires su.m.Js() <= j <= su.m.Je() + 1 && (su.inner.present ==> j > su.m.Js())
             && (su.outer.present ==> j <= su.m.Je())
    ensures Treated(su, e).x1(k, j, i) == e.x1(k, j, i) && Treated(su, e).x3(k, j, i) == e.x3(k, j, i)
  {
    hide Treated, Sum;
    if j == su.m.Js() {
      TreatedOnPole(su, true, e, k, i);
    } else if j == su.m.Je() + 1 {
      TreatedOnPole(su, false, e, k, i);
    } else {
      TreatedBetween(su, e, k, j, i);
    }
  }

  // Away from the poles the law speaks of the EMF as it was given.

  lemma LawOnX1(su: Setup, reconnect: bool, full: Field, sub: Field, emf: Field, stale: Field, gam0: real, gam1: real,
                bdt: real, out: Field, k: int, j: int, i: int)
    requires SetupOk(su) && StageLaw(su, reconnect, full, sub, emf, gam0, gam1, bdt, out)
    requires su.m.FaceRange(1).Has(k, j, i) && (su.inner.present ==> j > su.m.Js() && j >= su.m.Js() + su.nl)
             && (su.outer.present ==> j < su.m.Je() && j <= su.m.Je() - su.nl)
    ensures out.x1(k, j, i)
            == Sum3(gam0, sub.x1(k, j, i), gam1, full.x1(k, j, i), bdt, Sourced(su.m, emf, stale).x1(k, j, i))
  {
    hide Treated, Sourced, StageUpdate, Sum;
    var m := su.m;
    TreatedAway(su, emf, k, j, i);
    TreatedAway(su, emf, k, j + 1, i);
    TreatedBetween(su, emf, k, j, i);
    if m.ndim > 2 { TreatedBetween(su, emf, k + 1, j, i); }
    SourceOnX1(m, emf, stale, k, j, i);
    assert Change1(m, Treated(su, emf), k, j, i) == Change1(m, emf, k, j, i);
    AdvancedAt(m, full, sub, Treated(su, emf), gam0, gam1, bdt, k, j, i);
    hide Advanced, Change1, Sum3;
  }

  lemma LawOnX2(su: Setup, reconnect: bool, full: Field, sub: Field, emf: Field, stale: Field, gam0: real, gam1: real,
                bdt: real, out: Field, k: int, j: int, i: int)
    requires SetupOk(su) && StageLaw(su, reconnect, full, sub, emf, gam0, gam1, bdt, out)
    requires su.m.FaceRange(2).Has(k, j, i) && (su.inner.present ==> j > su.m.Js() && j >= su.m.Js() + su.nl)
             && (su.outer.present ==> j <= su.m.Je() && j <= su.m.Je() + 1 - su.nl)
    ensures out.x2(k, j, i)
            == Sum3(gam0, sub.x2(k, j, i), gam1, full.x2(k, j, i), bdt, Sourced(su.m, emf, stale).x2(k, j, i))
  {
    hide Treated, Sourced, StageUpdate, Sum;
    var m := su.m;
    TreatedAway(su, emf, k, j, i);
    TreatedAway(su, emf, k, j, i + 1);
    if m.ndim > 2 { TreatedAway(su, emf, k + 1, j, i); }
    SourceOnX2(m, emf, stale, k, j, i);
    assert Change2(m, Treated(su, emf), k, j, i) == Change2(m, emf, k, j, i);
    AdvancedAt(m, full, sub, Treated(su, emf), gam0, gam1, bdt, k, j, i);
    hide Advanced, Change2, Sum3;
  }

  lemma LawOnX3(su: Setup, reconnect: bool, full: Field, sub: Field, emf: Field, stale: Field, gam0: real, gam1: real,
                bdt: real, out: Field, k: int, j: int, i: int)
    requires SetupOk(su) && StageLaw(su, reconnect, full, sub, emf, gam0, gam1, bdt, out)
    requires su.m.FaceRange(3).Has(k, j, i) && (su.inner.present ==> j > su.m.Js() && j >= su.m.Js() + su.nl)
             && (su.outer.present ==> j < su.m.Je() && j <= su.m.Je() - su.nl)
    ensures out.x3(k, j, i)
            == Sum3(gam0, sub.x3(k, j, i), gam1, full.x3(k, j, i), bdt, Sourced(su.m, emf, stale).x3(k, j, i))
  {
    hide Treated, Sourced, StageUpdate, Sum;
    var m := su.m;
    TreatedAway(su, emf, k, j, i);
    TreatedAway(su, emf, k, j + 1, i);
    TreatedBetween(su, emf, k, j, i);
    TreatedBetween(su, emf, k, j, i + 1);
    SourceOnX3(m, emf, stale, k, j, i);
    assert Change3(m, Treated(su, emf), k, j, i) == Change3(m, emf, k, j, i);
    AdvancedAt(m, full, sub, Treated(su, emf), gam0, gam1, bdt, k, j, i);
    hide Advanced, Change3, Sum3;
  }

  /** That update: the component along the axis does not change, any other by minus the difference of its flux along
      the axis over the spacing. */
  lemma OneDimensionalIs(m: Mesh, q: FluxCT.Fluxes, axis: int, v: int, k: int, j: int, i: int)
    requires m.Ok()
    ensures var f, d := Flux(q, axis, v), if axis == 1 then m.dx1 else if axis == 2 then m.dx2 else m.dx3;
            var ahead :=
            f(if axis == 3 then k + 1 else k, if axis == 2 then j + 1 else j, if axis == 1 then i + 1 else i);
            OneDimensionalUpdate(m, q, axis, v, k, j, i) == if v == axis then 0.0 else -((ahead - f(k, j, i)) / d)
  {
  }

  lemma PlanarStageSum(su: Setup, reconnect: bool, full: Field, sub: Field, gam0: real, gam1: real, bdt: real,
                       out: Field, scheme: Scheme, q: FluxCT.Fluxes, z: Zones, cstale: Field, rho: Field, estale: Field,
                       axis: int, v: int, k: int, j: int, i: int)
    requires SetupOk(su) && su.m.FaceRange(v).Has(k, j, i) && 1 <= axis <= su.m.ndim && 1 <= v <= 3 && scheme != BS99
    requires PlanarZones(z, axis) && ConsistentFluxes(q, z, axis)
    requires StageLaw(su, reconnect, full, sub, EdgeEMF(su.m, scheme, q, CentredField(su.m, z, cstale), rho, estale),
                      gam0, gam1, bdt, out)
    requires su.inner.present ==> j > su.m.Js() && j >= su.m.Js() + su.nl
    requires var jc := if v == 2 then j - 1 else j; su.outer.present ==> jc < su.m.Je() && jc <= su.m.Je() - su.nl
    ensures Component(out, v)(k, j, i)
            == Sum3(gam0, Component(sub, v)(k, j, i), gam1, Component(full, v)(k, j, i), bdt,
                    OneDimensionalUpdate(su.m, q, axis, v, k, j, i))
  {
    hide Treated, PlanarZones, ConsistentFluxes, CentredField, EdgeEMF, Sourced, StageLaw, Sum3, OneDimensionalUpdate;
    var m, emf := su.m, EdgeEMF(su.m, scheme, q, CentredField(su.m, z, cstale), rho, estale);
    if v == 1 { LawOnX1(su, reconnect, full, sub, emf, estale, gam0, gam1, bdt, out, k, j, i); }
    else if v == 2 { LawOnX2(su, reconnect, full, sub, emf, estale, gam0, gam1, bdt, out, k, j, i); }
    else { LawOnX3(su, reconnect, full, sub, emf, estale, gam0, gam1, bdt, out, k, j, i); }
    PlanarStateUpdate(m, scheme, q, z, cstale, rho, estale, estale, axis, v, k, j, i);
  }

  /** Where the state varies along one axis only, and away from what is done at the poles, a stage combines the old
      fields and adds the step times the conservative update of one dimension. */
  lemma PlanarStage(su: Setup, reconnect: bool, full: Field, sub: Field, gam0: real, gam1: real, bdt: real, out: Field,
                    scheme: Scheme, q: FluxCT.Fluxes, z: Zones, cstale: Field, rho: Field, estale: Field,
                    axis: int, v: int, k: int, j: int, i: int)
    requires SetupOk(su) && su.m.FaceRange(v).Has(k, j, i) && 1 <= axis <= su.m.ndim && 1 <= v <= 3 && scheme != BS99
    requires PlanarZones(z, axis) && ConsistentFluxes(q, z, axis)
    requires StageLaw(su, reconnect, full, sub, EdgeEMF(su.m, scheme, q, CentredField(su.m, z, cstale), rho, estale),
                      gam0, gam1, bdt, out)
    requires su.inner.present ==> j > su.m.Js() && j >= su.m.Js() + su.nl
    requires var jc := if v == 2 then j - 1 else j; su.outer.present ==> jc < su.m.Je() && jc <= su.m.Je() - su.nl
    ensures Component(out, v)(k, j, i)
            == gam0 * Component(sub, v)(k, j, i) + gam1 * Component(full, v)(k, j, i)
               + bdt * OneDimensionalUpdate(su.m, q, axis, v, k, j, i)
  {
    assert su.m.Ok();
    hide *;
    PlanarStageSum(su, reconnect, full, sub, gam0, gam1, bdt, out, scheme, q, z, cstale, rho, estale, axis, v, k, j, i);
    Sum3Is(gam0, Component(sub, v)(k, j, i), gam1, Component(full, v)(k, j, i), bdt,
           OneDimensionalUpdate(su.m, q, axis, v, k, j, i));
  }

  lemma Sum3Is(u: real, p: real, v: real, q: real, w: real, r: real)
    ensures Sum3(u, p, v, q, w, r) == u * p + v * q + w * r
  {
  }

  // -- The other operations of a run

  /** The container an operation writes. */
  function Target(st: Step): nat {
    match st
    case Stage(_, _, out, _, _, _, _) => out
    case Reconnection(c) => c
    case Derefinement(c) => c
    case Clean(c, _, _) => c
  }

  /** Every operation leaves the other containers alone and does its work on its own: a stage obeys the law of a
      bare stage, reconnection leaves no net B3 in its columns, derefinement what coarse cells would carry in its
      rows and the old field off them, the clean-up no divergence in its zones. */
  lemma StepsDoTheirWork(su: Setup, s: State, st: Step)
    requires SetupOk(su) && Legal(su, |s.pool|, st)
    ensures var t := Apply(su, s, st);
            && (forall n | 0 <= n < |s.pool| && n != Target(st) :: t.pool[n] == s.pool[n])
            && var b := t.pool[Target(st)];
               match st
               case Stage(full, sub, _, emf, gam0, gam1, bdt) =>
                 SameInside(su.m, Advanced(su.m, s.pool[full], s.pool[sub], Treated(su, emf), gam0, gam1, bdt), b)
               case Reconnection(c) => NoNetColumns(su, b) && SameInside(su.m, LessMeans(su, s.pool[c]), b)
               case Derefinement(c) => SameOffRows(su, s.pool[c], b)
                                       && (RowsApart(su) ==> CoarseInRows(su, s.pool[c], b))
               case Clean(c, d, inside) =>
                 forall k, j, i | CleanedZone(su.m, d, inside, k, j, i) :: FaceDiv(su.m, b, k, j, i) == 0.0
  {
    hide StageUpdate, Sourced, Treated, Advanced, LessMeans, ReconnectedPoles, DerefinedPoles, Cleaned, FaceDiv,
         SameOffRows, CoarseInRows, NoNetColumns, SameInside;
    match st
    case Stage(full, sub, out, emf, gam0, gam1, bdt) =>
      UpdateIsAdvance(su.m, s.pool[full], s.pool[sub], Treated(su, emf), s.src, gam0, gam1, bdt);
    case Reconnection(c) =>
      ReconnectedColumns(su, s.pool[c]);
      SameAsItself(su.m, s.pool[c]);
      SameMeansOff(su, s.pool[c], s.pool[c]);
    case Derefinement(c) =>
      OffRows(su, s.pool[c]);
      SameAsItself(su.m, s.pool[c]);
      if RowsApart(su) { CoarseRows(su, s.pool[c], s.pool[c]); }
    case Clean(c, d, inside) =>
      forall k, j, i | CleanedZone(su.m, d, inside, k, j, i)
        ensures FaceDiv(su.m, Cleaned(su.m, d, inside, s.pool[c]), k, j, i) == 0.0
      {
        CleanLeavesNoDiv(su.m, d, inside, s.pool[c], k, j, i);
      }
  }

  lemma SameAsItself(m: Mesh, b: Field)
    ensures SameInside(m, b, b)
  {
  }
}
