/** The boundary fixes of the cell-centred transport (b_flux_ct): fluxes beside a domain face are
    overwritten so that the EMFs on the face vanish, in whatever order and mixture the fixes come. */
module FluxFix {
  import opened Grid
  import opened BoundaryEMF
  import opened BoundaryClean
  import opened FluxCT

  /** One fix: of the face in direction `d` (X1 or X2), by zeroing (ZeroBoundaryFlux) or by matching
      (Bflux0). */
  datatype Fix = Fix(d: int, inner: bool, zero: bool)

  predicate FixOk(fx: Fix) { 1 <= fx.d <= 2 }

  /** Zone faces of index `f` along `d`, with one ghost on every side across. */
  function SideBox(m: Mesh, d: int, f: int): Box {
    var g := if m.ndim > 2 then 1 else 0;
    Box(m.Ks() - g, m.Ke() + g, if d == 2 then f else m.Js() - 1, if d == 2 then f else m.Je() + 1,
        if d == 1 then f else m.Is() - 1, if d == 1 then f else m.Ie() + 1)
  }

  /** Zones on the two sides of the face. */
  function GhostSide(m: Mesh, d: int, inner: bool): int {
    if inner then FaceIndex(m, d, inner) - 1 else FaceIndex(m, d, inner)
  }
  function DomainSide(m: Mesh, d: int, inner: bool): int {
    if inner then FaceIndex(m, d, inner) else FaceIndex(m, d, inner) - 1
  }

  function ZeroAt(m: Mesh, d: int, inner: bool, s: Scalar, k: int, j: int, i: int): real {
    if SideBox(m, d, FaceIndex(m, d, inner)).Has(k, j, i) then 0.0 else s(k, j, i)
  }

  /** Minus the value of the zone on the domain side. */
  function MirrorAt(m: Mesh, d: int, inner: bool, s: Scalar, k: int, j: int, i: int): real {
    if SideBox(m, d, GhostSide(m, d, inner)).Has(k, j, i) then -At(s, d, DomainSide(m, d, inner), k, j, i)
    else s(k, j, i)
  }

  /** The same plus the two fluxes `c` through the face that share an edge, a step back along `t`. */
  function MatchAt(m: Mesh, d: int, inner: bool, t: int, s: Scalar, c: Scalar, k: int, j: int, i: int): real {
    var f := FaceIndex(m, d, inner);
    if SideBox(m, d, GhostSide(m, d, inner)).Has(k, j, i)
    then -At(s, d, DomainSide(m, d, inner), k, j, i) + At(c, d, f, k, j, i)
         + At(c, d, f, if t == 3 then k - 1 else k, if t == 2 then j - 1 else j, if t == 1 then i - 1 else i)
    else s(k, j, i)
  }

  function Zeroed(m: Mesh, d: int, inner: bool, s: Scalar): Scalar {
    (k, j, i) => ZeroAt(m, d, inner, s, k, j, i)
  }
  function Mirrored(m: Mesh, d: int, inner: bool, s: Scalar): Scalar {
    (k, j, i) => MirrorAt(m, d, inner, s, k, j, i)
  }
  function Matched(m: Mesh, d: int, inner: bool, t: int, s: Scalar, c: Scalar): Scalar {
    (k, j, i) => MatchAt(m, d, inner, t, s, c, k, j, i)
  }

  /** The fluxes after one fix. */
  function Fixed(m: Mesh, fx: Fix, q: Fluxes): Fluxes {
    var d, n := fx.d, fx.inner;
    if d == 1 then
      if fx.zero then
        Fluxes(q.f1.(x2 := Zeroed(m, 1, n, q.f1.x2), x3 := Zeroed(m, 1, n, q.f1.x3)),
               q.f2.(x1 := Mirrored(m, 1, n, q.f2.x1)),
               if m.ndim > 2 then q.f3.(x1 := Mirrored(m, 1, n, q.f3.x1)) else q.f3)
      else
        Fluxes(q.f1, q.f2.(x1 := Matched(m, 1, n, 2, q.f2.x1, q.f1.x2)),
               if m.ndim > 2 then q.f3.(x1 := Matched(m, 1, n, 3, q.f3.x1, q.f1.x3)) else q.f3)
    else if fx.zero then
      Fluxes(q.f1.(x2 := Mirrored(m, 2, n, q.f1.x2)),
             q.f2.(x1 := Zeroed(m, 2, n, q.f2.x1), x3 := Zeroed(m, 2, n, q.f2.x3)),
             if m.ndim > 2 then q.f3.(x2 := Mirrored(m, 2, n, q.f3.x2)) else q.f3)
    else
      Fluxes(q.f1.(x2 := Matched(m, 2, n, 1, q.f1.x2, q.f2.x1)), q.f2,
             if m.ndim > 2 then q.f3.(x2 := Matched(m, 2, n, 3, q.f3.x2, q.f2.x3)) else q.f3)
  }

  function AllFixed(m: Mesh, fixes: seq<Fix>, q: Fluxes): Fluxes {
    if fixes == [] then q else Fixed(m, fixes[|fixes| - 1], AllFixed(m, fixes[..|fixes| - 1], q))
  }

  // -- What is kept

  /** The EMFs along the face vanish on the edge at (k, j, i). */
  predicate QuietAt(m: Mesh, d: int, q: Fluxes, k: int, j: int, i: int) {
    Emf3(q, k, j, i) == 0.0 && (m.ndim > 2 ==> if d == 1 then Emf2(q, k, j, i) == 0.0 else Emf1(q, k, j, i) == 0.0)
  }

  ghost predicate Quiet(m: Mesh, d: int, inner: bool, q: Fluxes) {
    forall k, j, i | EdgeBox(m).Has(k, j, i) && Index(d, k, j, i) == FaceIndex(m, d, inner) :: QuietAt(m, d, q, k, j, i)
  }

  /** A fix silences its own face, edges shared with other faces included. */
  lemma FixSilences(m: Mesh, fx: Fix, q: Fluxes)
    requires m.Ok() && FixOk(fx)
    ensures Quiet(m, fx.d, fx.inner, Fixed(m, fx, q))
  {
    forall k, j, i | EdgeBox(m).Has(k, j, i) && Index(fx.d, k, j, i) == FaceIndex(m, fx.d, fx.inner)
      ensures QuietAt(m, fx.d, Fixed(m, fx, q), k, j, i)
    {
      if fx.d == 1 { SilentX1(m, fx, q, k, j, i); } else { SilentX2(m, fx, q, k, j, i); }
    }
  }

  lemma SilentX1(m: Mesh, fx: Fix, q: Fluxes, k: int, j: int, i: int)
    requires m.Ok() && fx.d == 1 && EdgeBox(m).Has(k, j, i) && i == FaceIndex(m, 1, fx.inner)
    ensures QuietAt(m, 1, Fixed(m, fx, q), k, j, i)
  {
  }

  lemma SilentX2(m: Mesh, fx: Fix, q: Fluxes, k: int, j: int, i: int)
    requires m.Ok() && fx.d == 2 && EdgeBox(m).Has(k, j, i) && j == FaceIndex(m, 2, fx.inner)
    ensures QuietAt(m, 2, Fixed(m, fx, q), k, j, i)
  {
  }

  /** A fix does not touch the EMFs on another face, but for the shared edges it silences. */
  lemma FixKeepsOthers(m: Mesh, fx: Fix, q: Fluxes, d: int, inner: bool, k: int, j: int, i: int)
    requires m.Ok() && FixOk(fx) && 1 <= d <= 2 && EdgeBox(m).Has(k, j, i)
             && Index(d, k, j, i) == FaceIndex(m, d, inner)
    requires Index(fx.d, k, j, i) != FaceIndex(m, fx.d, fx.inner) && QuietAt(m, d, q, k, j, i)
    ensures QuietAt(m, d, Fixed(m, fx, q), k, j, i)
  {
    if fx.d == 1 { FixX1KeepsOthers(m, fx, q, d, k, j, i); } else { FixX2KeepsOthers(m, fx, q, d, k, j, i); }
  }

  lemma FixX1KeepsOthers(m: Mesh, fx: Fix, q: Fluxes, d: int, k: int, j: int, i: int)
    requires m.Ok() && fx.d == 1 && EdgeBox(m).Has(k, j, i) && 1 <= d <= 2
    requires i != FaceIndex(m, 1, fx.inner) && QuietAt(m, d, q, k, j, i)
    ensures QuietAt(m, d, Fixed(m, fx, q), k, j, i)
  {
  }

  lemma FixX2KeepsOthers(m: Mesh, fx: Fix, q: Fluxes, d: int, k: int, j: int, i: int)
    requires m.Ok() && fx.d == 2 && EdgeBox(m).Has(k, j, i) && 1 <= d <= 2
    requires j != FaceIndex(m, 2, fx.inner) && QuietAt(m, d, q, k, j, i)
    ensures QuietAt(m, d, Fixed(m, fx, q), k, j, i)
  {
  }

  lemma FixKeepsQuiet(m: Mesh, fx: Fix, q: Fluxes, d: int, inner: bool)
    requires m.Ok() && FixOk(fx) && 1 <= d <= 2 && Quiet(m, d, inner, q)
    ensures Quiet(m, d, inner, Fixed(m, fx, q))
  {
    hide Quiet, QuietAt, Fixed;
    QuietFrom(m, fx, q, d, inner);
  }

  lemma QuietFrom(m: Mesh, fx: Fix, q: Fluxes, d: int, inner: bool)
    requires m.Ok() && FixOk(fx) && 1 <= d <= 2 && Quiet(m, d, inner, q)
    ensures Quiet(m, d, inner, Fixed(m, fx, q))
  {
    hide QuietAt, Fixed;
    forall k, j, i | EdgeBox(m).Has(k, j, i) && Index(d, k, j, i) == FaceIndex(m, d, inner)
      ensures QuietAt(m, d, Fixed(m, fx, q), k, j, i)
    {
      if Index(fx.d, k, j, i) == FaceIndex(m, fx.d, fx.inner) {
        SharedEdge(m, fx, q, d, inner, k, j, i);
      } else {
        FixKeepsOthers(m, fx, q, d, inner, k, j, i);
      }
    }
  }

  /** An edge of both faces, at a corner of the domain. */
  lemma SharedEdge(m: Mesh, fx: Fix, q: Fluxes, d: int, inner: bool, k: int, j: int, i: int)
    requires m.Ok() && FixOk(fx) && 1 <= d <= 2 && EdgeBox(m).Has(k, j, i)
    requires Index(d, k, j, i) == FaceIndex(m, d, inner) && Index(fx.d, k, j, i) == FaceIndex(m, fx.d, fx.inner)
    requires QuietAt(m, d, q, k, j, i)
    ensures QuietAt(m, d, Fixed(m, fx, q), k, j, i)
  {
    if fx.d == 1 { SilentX1(m, fx, q, k, j, i); } else { SilentX2(m, fx, q, k, j, i); }
  }

  /** Whatever the sequence of fixes, every face that got one is silent at the end, corners and all. */
  lemma {:induction false} EveryFixedFaceIsQuiet(m: Mesh, fixes: seq<Fix>, q: Fluxes, d: int, inner: bool)
    requires m.Ok() && (forall fx | fx in fixes :: FixOk(fx))
    requires exists fx :: fx in fixes && fx.d == d && fx.inner == inner
    ensures Quiet(m, d, inner, AllFixed(m, fixes, q))
  {
    hide Quiet, Fixed;
    var n := |fixes| - 1;
    assert forall fx | fx in fixes[..n] :: fx in fixes;
    if fixes[n].d == d && fixes[n].inner == inner {
      FixSilences(m, fixes[n], AllFixed(m, fixes[..n], q));
    } else {
      var fx :| fx in fixes && fx.d == d && fx.inner == inner;
      assert fixes == fixes[..n] + [fixes[n]];
      assert fx in fixes[..n];
      EveryFixedFaceIsQuiet(m, fixes[..n], q, d, inner);
      FixKeepsQuiet(m, fixes[n], AllFixed(m, fixes[..n], q), d, inner);
    }
  }

  /** A silent face passes no magnetic flux: all rewritten fluxes through it are zero. */
  lemma QuietFacePassesNothing(m: Mesh, q: Fluxes, stale: Field, d: int, inner: bool, k: int, j: int, i: int)
    requires m.Ok() && 1 <= d <= 2 && Quiet(m, d, inner, q)
    requires m.FaceRange(d).Has(k, j, i) && Index(d, k, j, i) == FaceIndex(m, d, inner)
    ensures var w := Rewritten(m, q, EmfOf(m, q, stale));
            var f := if d == 1 then w.f1 else w.f2;
            f.x1(k, j, i) == 0.0 && f.x2(k, j, i) == 0.0 && (m.ndim > 2 ==> f.x3(k, j, i) == 0.0)
  {
  }

  // -- FixFlux

  /** Which boundaries are physical, and what the package is told to do about them. */
  datatype Plan = Plan(physical: Four, polar: bool, oldFix: bool, fix: Four)

  datatype Four = Four(inner1: bool, outer1: bool, inner2: bool, outer2: bool)

  function When(c: bool, fx: Fix): seq<Fix> { if c then [fx] else [] }

  /** The fixes FixFlux makes, in its order: poles first, then X1, then X2. */
  function FixesOf(p: Plan): seq<Fix> {
    [] + When(p.polar && p.physical.inner2, Fix(2, true, true))
    + When(p.polar && p.physical.outer2, Fix(2, false, true))
    + When(p.fix.inner1 && p.physical.inner1, Fix(1, true, p.oldFix))
    + When(p.fix.outer1 && p.physical.outer1, Fix(1, false, p.oldFix))
    + When(p.fix.inner2 && p.physical.inner2, Fix(2, true, p.oldFix))
    + When(p.fix.outer2 && p.physical.outer2, Fix(2, false, p.oldFix))
  }

  /** Faces the plan fixes. */
  predicate Fixes(p: Plan, d: int, inner: bool) {
    if d == 1 then if inner then p.fix.inner1 && p.physical.inner1 else p.fix.outer1 && p.physical.outer1
    else if inner then (p.polar || p.fix.inner2) && p.physical.inner2
         else (p.polar || p.fix.outer2) && p.physical.outer2
  }

  /** After FixFlux no magnetic flux crosses any face the plan fixes, from arbitrary fluxes. */
  lemma FixedFacesPassNothing(m: Mesh, p: Plan, q: Fluxes, stale: Field, d: int, inner: bool, k: int, j: int, i: int)
    requires m.Ok() && 1 <= d <= 2 && Fixes(p, d, inner)
    requires m.FaceRange(d).Has(k, j, i) && Index(d, k, j, i) == FaceIndex(m, d, inner)
    ensures var q' := AllFixed(m, FixesOf(p), q);
            var w := Rewritten(m, q', EmfOf(m, q', stale));
            var f := if d == 1 then w.f1 else w.f2;
            f.x1(k, j, i) == 0.0 && f.x2(k, j, i) == 0.0 && (m.ndim > 2 ==> f.x3(k, j, i) == 0.0)
  {
    hide Quiet, AllFixed;
    PlanFixes(p, d, inner);
    EveryFixedFaceIsQuiet(m, FixesOf(p), q, d, inner);
    QuietFacePassesNothing(m, AllFixed(m, FixesOf(p), q), stale, d, inner, k, j, i);
  }

  lemma InPlan(p: Plan, fx: Fix)
    ensures fx in FixesOf(p)
       <==> || (p.polar && p.physical.inner2 && fx == Fix(2, true, true))
            || (p.polar && p.physical.outer2 && fx == Fix(2, false, true))
            || (p.fix.inner1 && p.physical.inner1 && fx == Fix(1, true, p.oldFix))
            || (p.fix.outer1 && p.physical.outer1 && fx == Fix(1, false, p.oldFix))
            || (p.fix.inner2 && p.physical.inner2 && fx == Fix(2, true, p.oldFix))
            || (p.fix.outer2 && p.physical.outer2 && fx == Fix(2, false, p.oldFix))
  {
  }

  lemma PlanFixes(p: Plan, d: int, inner: bool)
    requires 1 <= d <= 2
    ensures forall fx | fx in FixesOf(p) :: FixOk(fx)
    ensures Fixes(p, d, inner) <==> exists fx :: fx in FixesOf(p) && fx.d == d && fx.inner == inner
  {
    hide FixesOf;
    forall fx | fx in FixesOf(p) ensures FixOk(fx) && Fixes(p, fx.d, fx.inner) { InPlan(p, fx); }
    InPlan(p, Fix(d, inner, true));
    InPlan(p, Fix(d, inner, false));
  }
}
