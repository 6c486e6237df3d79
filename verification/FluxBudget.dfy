/** What a flux-transport stage with boundary fixes does to each zone and to the block as a whole: what the fixes
    write, what passes a zone's faces, and the budget of the block. */
module FluxBudget {
  import opened Grid
  import opened FaceCT
  import opened BoundaryEMF
  import opened BoundaryClean
  import opened FluxCT
  import opened FluxFix
  import opened GridSums

  /** Flux of component `c` in direction `d`. */
  function FluxOf(w: Fluxes, d: int, c: int): Scalar {
    Component(if d == 1 then w.f1 else if d == 2 then w.f2 else w.f3, c)
  }

  /** The fluxes the divergence is taken of: the given ones with the plan's fixes made, then rewritten. */
  function Passed(m: Mesh, p: Plan, q: Fluxes, e: Field): Fluxes {
    var q' := AllFixed(m, FixesOf(p), q);
    Rewritten(m, q', EmfOf(m, q', e))
  }

  // -- What a fix writes

  /** A fix of an X1 face.  Zeroing clears the fluxes of B2 and B3 through the face and gives the ghost zones beside
      it minus the X2 and X3 fluxes of B1 of the zones within; matching leaves the face and adds to those the two
      fluxes through the face that share an edge.  One zone beyond the interior is reached across, and nothing else
      is written. */
  lemma FixOnX1(m: Mesh, inner: bool, zero: bool, q: Fluxes, k: int, j: int, i: int)
    requires m.Ok()
    ensures var r := Fixed(m, Fix(1, inner, zero), q);
            var f, ghosts, own :=
            if inner then m.Is() else m.Ie() + 1, if inner then m.Is() - 1 else m.Ie() + 1,
                if inner then m.Is() else m.Ie();
            var near := && m.Js() - 1 <= j <= m.Je() + 1
                        && (if m.ndim > 2 then m.Ks() - 1 <= k <= m.Ke() + 1 else m.Ks() <= k <= m.Ke());
            && r.f1.x1 == q.f1.x1 && r.f2.x2 == q.f2.x2 && r.f2.x3 == q.f2.x3 && r.f3.x2 == q.f3.x2
            && r.f3.x3 == q.f3.x3
            && r.f1.x2(k, j, i) == (if zero && near && i == f then 0.0 else q.f1.x2(k, j, i))
            && r.f1.x3(k, j, i) == (if zero && near && i == f then 0.0 else q.f1.x3(k, j, i))
            && r.f2.x1(k, j, i) == (if near && i == ghosts
                                    then -q.f2.x1(k, j, own)
                                        + (if zero then 0.0 else q.f1.x2(k, j, f) + q.f1.x2(k, j - 1, f))
                                    else q.f2.x1(k, j, i))
            && r.f3.x1(k, j, i) == (if m.ndim > 2 && near && i == ghosts
                                    then -q.f3.x1(k, j, own)
                                        + (if zero then 0.0 else q.f1.x3(k, j, f) + q.f1.x3(k - 1, j, f))
                                    else q.f3.x1(k, j, i))
  {
    hide ZeroAt, MirrorAt, MatchAt;
    assert Fixed(m, Fix(1, inner, zero), q).f1.x2(k, j, i)
        == if zero then ZeroAt(m, 1, inner, q.f1.x2, k, j, i) else q.f1.x2(k, j, i);
    assert Fixed(m, Fix(1, inner, zero), q).f1.x3(k, j, i)
        == if zero then ZeroAt(m, 1, inner, q.f1.x3, k, j, i) else q.f1.x3(k, j, i);
    assert Fixed(m, Fix(1, inner, zero), q).f2.x1(k, j, i)
        == if zero then MirrorAt(m, 1, inner, q.f2.x1, k, j, i) else MatchAt(m, 1, inner, 2, q.f2.x1, q.f1.x2, k, j, i);
    if m.ndim > 2 {
      assert Fixed(m, Fix(1, inner, zero), q).f3.x1(k, j, i)
          == if zero then MirrorAt(m, 1, inner, q.f3.x1, k, j, i)
             else MatchAt(m, 1, inner, 3, q.f3.x1, q.f1.x3, k, j, i);
    }
    hide Fixed;
    SideWrites(m, 1, inner, 2, q.f1.x2, q.f2.x1, k, j, i);
    SideWrites(m, 1, inner, 3, q.f1.x3, q.f3.x1, k, j, i);
  }

  lemma SideWrites(m: Mesh, d: int, inner: bool, t: int, c: Scalar, s: Scalar, k: int, j: int, i: int)
    requires m.Ok() && 1 <= d <= 2 && 1 <= t <= 3 && t != d
    ensures var f, g, o :=
            if d == 1 then if inner then m.Is() else m.Ie() + 1 else if inner then m.Js() else m.Je() + 1,
                if d == 1 then if inner then m.Is() - 1 else m.Ie() + 1 else if inner then m.Js() - 1 else m.Je() + 1,
                if d == 1 then if inner then m.Is() else m.Ie() else if inner then m.Js() else m.Je();
            var x, y := if d == 1 then i else j, if d == 1 then j else i;
            var near := && (if d == 1 then m.Js() - 1 <= y <= m.Je() + 1 else m.Is() - 1 <= y <= m.Ie() + 1)
                        && (if m.ndim > 2 then m.Ks() - 1 <= k <= m.Ke() + 1 else m.Ks() <= k <= m.Ke());
            var own := if d == 1 then s(k, j, o) else s(k, o, i);
            var face := if d == 1 then c(k, j, f) else c(k, f, i);
            var back := if d == 1 then c(if t == 3 then k - 1 else k, if t == 2 then j - 1 else j, f)
                else c(if t == 3 then k - 1 else k, f, if t == 1 then i - 1 else i);
            && ZeroAt(m, d, inner, c, k, j, i) == (if near && x == f then 0.0 else c(k, j, i))
            && MirrorAt(m, d, inner, s, k, j, i) == (if near && x == g then -own else s(k, j, i))
            && MatchAt(m, d, inner, t, s, c, k, j, i) == (if near && x == g then -own + face + back else s(k, j, i))
  {
  }

  /** The same on an X2 face. */
  lemma FixOnX2(m: Mesh, inner: bool, zero: bool, q: Fluxes, k: int, j: int, i: int)
    requires m.Ok()
    ensures var r := Fixed(m, Fix(2, inner, zero), q);
            var f, ghosts, own :=
            if inner then m.Js() else m.Je() + 1, if inner then m.Js() - 1 else m.Je() + 1,
                if inner then m.Js() else m.Je();
            var near := && m.Is() - 1 <= i <= m.Ie() + 1
                        && (if m.ndim > 2 then m.Ks() - 1 <= k <= m.Ke() + 1 else m.Ks() <= k <= m.Ke());
            && r.f1.x1 == q.f1.x1 && r.f1.x3 == q.f1.x3 && r.f2.x2 == q.f2.x2 && r.f3.x1 == q.f3.x1
            && r.f3.x3 == q.f3.x3
            && r.f2.x1(k, j, i) == (if zero && near && j == f then 0.0 else q.f2.x1(k, j, i))
            && r.f2.x3(k, j, i) == (if zero && near && j == f then 0.0 else q.f2.x3(k, j, i))
            && r.f1.x2(k, j, i) == (if near && j == ghosts
                                    then -q.f1.x2(k, own, i)
                                        + (if zero then 0.0 else q.f2.x1(k, f, i) + q.f2.x1(k, f, i - 1))
                                    else q.f1.x2(k, j, i))
            && r.f3.x2(k, j, i) == (if m.ndim > 2 && near && j == ghosts
                                    then -q.f3.x2(k, own, i)
                                        + (if zero then 0.0 else q.f2.x3(k, f, i) + q.f2.x3(k - 1, f, i))
                                    else q.f3.x2(k, j, i))
  {
    hide ZeroAt, MirrorAt, MatchAt;
    assert Fixed(m, Fix(2, inner, zero), q).f2.x1(k, j, i)
        == if zero then ZeroAt(m, 2, inner, q.f2.x1, k, j, i) else q.f2.x1(k, j, i);
    assert Fixed(m, Fix(2, inner, zero), q).f2.x3(k, j, i)
        == if zero then ZeroAt(m, 2, inner, q.f2.x3, k, j, i) else q.f2.x3(k, j, i);
    assert Fixed(m, Fix(2, inner, zero), q).f1.x2(k, j, i)
        == if zero then MirrorAt(m, 2, inner, q.f1.x2, k, j, i) else MatchAt(m, 2, inner, 1, q.f1.x2, q.f2.x1, k, j, i);
    if m.ndim > 2 {
      assert Fixed(m, Fix(2, inner, zero), q).f3.x2(k, j, i)
          == if zero then MirrorAt(m, 2, inner, q.f3.x2, k, j, i)
             else MatchAt(m, 2, inner, 3, q.f3.x2, q.f2.x3, k, j, i);
    }
    hide Fixed;
    SideWrites(m, 2, inner, 1, q.f2.x1, q.f1.x2, k, j, i);
    SideWrites(m, 2, inner, 3, q.f2.x3, q.f3.x2, k, j, i);
  }

  // -- What the passes leave alone

  /** Edges and zones outside the interior keep what was in the containers, as do E1 and E2 in 2D; zones that are
      not of the block keep theirs under seeding. */
  lemma KeptElsewhere(m: Mesh, q: Fluxes, e: Field, a: Field, k: int, j: int, i: int)
    requires m.Ok()
    ensures var edge := && m.Ks() <= k <= (if m.ndim > 2 then m.Ke() + 1 else m.Ke()) && m.Js() <= j <= m.Je() + 1
                        && m.Is() <= i <= m.Ie() + 1;
            var t := EmfOf(m, q, e);
            && (!edge || m.ndim == 2 ==> t.x1(k, j, i) == e.x1(k, j, i) && t.x2(k, j, i) == e.x2(k, j, i))
            && (!edge ==> t.x3(k, j, i) == e.x3(k, j, i))
    ensures var zone := m.Ks() <= k <= m.Ke() && m.Js() <= j <= m.Je() && m.Is() <= i <= m.Ie();
            var u := Diverged(m, q, e);
            !zone ==> u.x1(k, j, i) == e.x1(k, j, i) && u.x2(k, j, i) == e.x2(k, j, i) && u.x3(k, j, i) == e.x3(k, j, i)
    ensures var zone := && 0 <= k <= (if m.ndim > 2 then m.Ke() + m.ng else 0) && 0 <= j <= m.Je() + m.ng
                        && 0 <= i <= m.Ie() + m.ng;
            var b := Seeded(m, a, e);
            !zone ==> b.x1(k, j, i) == e.x1(k, j, i) && b.x2(k, j, i) == e.x2(k, j, i) && b.x3(k, j, i) == e.x3(k, j, i)
  {
    hide Emf1, Emf2, Emf3, DivAt, Seeded1, Seeded2, Seeded3;
    var edge, zone := EdgeBox(m).Has(k, j, i), m.AllZones().Has(k, j, i);
  }

  /** Fluxes through faces of no interior zone are not rewritten, nor in 2D those of B3 and those along X3. */
  lemma FluxesKept(m: Mesh, q: Fluxes, e: Field, c: int, k: int, j: int, i: int)
    requires m.Ok() && 1 <= c <= 3
    ensures var w := Rewritten(m, q, e);
            var in3, in2, in1 := m.Ks() <= k <= m.Ke(), m.Js() <= j <= m.Je(), m.Is() <= i <= m.Ie();
            && (!in3 || !in2 || i < m.Is() || i > m.Ie() + 1 || (m.ndim == 2 && c == 3)
                ==> FluxOf(w, 1, c)(k, j, i) == FluxOf(q, 1, c)(k, j, i))
            && (!in3 || !in1 || j < m.Js() || j > m.Je() + 1 || (m.ndim == 2 && c == 3)
                ==> FluxOf(w, 2, c)(k, j, i) == FluxOf(q, 2, c)(k, j, i))
            && (!in2 || !in1 || k < m.Ks() || k > m.Ke() + 1 || m.ndim == 2
                ==> FluxOf(w, 3, c)(k, j, i) == FluxOf(q, 3, c)(k, j, i))
  {
    hide New12, New13, New21, New23, New31, New32;
    var on1, on2, on3 := m.FaceRange(1).Has(k, j, i), m.FaceRange(2).Has(k, j, i), m.FaceRange(3).Has(k, j, i);
  }

  // -- Zone by zone

  /** The plan fixes the face in this direction and on this side; it never fixes an X3 face. */
  predicate Shut(p: Plan, d: int, inner: bool) { 1 <= d <= 2 && Fixes(p, d, inner) }

  /** What comes through the lower and the upper face of a zone in direction `d`: nothing where that face lies on
      the boundary and is fixed. */
  function In(m: Mesh, p: Plan, w: Fluxes, d: int, c: int, k: int, j: int, i: int): real {
    if Shut(p, d, true) && (if d == 1 then i == m.Is() else j == m.Js()) then 0.0 else FluxOf(w, d, c)(k, j, i)
  }

  function Out(m: Mesh, p: Plan, w: Fluxes, d: int, c: int, k: int, j: int, i: int): real {
    if Shut(p, d, false) && (if d == 1 then i == m.Ie() else j == m.Je()) then 0.0
    else FluxOf(w, d, c)(if d == 3 then k + 1 else k, if d == 2 then j + 1 else j, if d == 1 then i + 1 else i)
  }

  /** The source of every rewritten component in every interior zone is what passes its unfixed faces. */
  lemma ZoneBudget(m: Mesh, p: Plan, q: Fluxes, e: Field, stale: Field, c: int, k: int, j: int, i: int)
    requires m.Ok() && 1 <= c <= 3 && (m.ndim == 2 ==> c != 3) && m.Interior(k, j, i)
    ensures var w := Passed(m, p, q, e);
            Component(Diverged(m, w, stale), c)(k, j, i)
            == -((Out(m, p, w, 1, c, k, j, i) - In(m, p, w, 1, c, k, j, i)) / m.dx1
                 + (Out(m, p, w, 2, c, k, j, i) - In(m, p, w, 2, c, k, j, i)) / m.dx2
                 + (if m.ndim > 2 then (Out(m, p, w, 3, c, k, j, i) - In(m, p, w, 3, c, k, j, i)) / m.dx3 else 0.0))
  {
    hide Diverged, Rewritten, AllFixed, FixesOf, EmfOf;
    var w := Passed(m, p, q, e);
    m.FacesOfZone(k, j, i);
    DivergedAt(m, w, stale, k, j, i);
    NothingShut(m, p, q, e, 1, true, c, k, j, i);
    NothingShut(m, p, q, e, 2, true, c, k, j, i);
    NothingShut(m, p, q, e, 1, false, c, k, j, i + 1);
    NothingShut(m, p, q, e, 2, false, c, k, j + 1, i);
    hide Passed;
  }

  lemma NothingShut(m: Mesh, p: Plan, q: Fluxes, e: Field, d: int, inner: bool, c: int, k: int, j: int, i: int)
    requires m.Ok() && 1 <= d <= 2 && 1 <= c <= 3 && (m.ndim == 2 ==> c != 3) && m.FaceRange(d).Has(k, j, i)
    ensures Shut(p, d, inner) && (if d == 1 then i == (if inner then m.Is() else m.Ie() + 1)
                                  else j == (if inner then m.Js() else m.Je() + 1))
            ==> FluxOf(Passed(m, p, q, e), d, c)(k, j, i) == 0.0
  {
    hide Rewritten, AllFixed, FixesOf, EmfOf;
    if Shut(p, d, inner) && Index(d, k, j, i) == FaceIndex(m, d, inner) {
      FixedFacesPassNothing(m, p, q, e, d, inner, k, j, i);
    }
  }

  // -- The block

  /** Sum over the interior faces of direction `d` at index `f`. */
  function SideSum(m: Mesh, s: Scalar, d: int, f: int): real
    requires m.Ok()
  {
    if d == 1 then BlockSum(s, m.Ks(), m.n3, m.Js(), m.n2, f, 1)
    else if d == 2 then BlockSum(s, m.Ks(), m.n3, f, 1, m.Is(), m.n1)
    else BlockSum(s, f, 1, m.Js(), m.n2, m.Is(), m.n1)
  }

  lemma {:induction false} PlanesDiffer(f: Scalar, g: Scalar, k: int, j0: int, n: nat, i0: int, ni: nat)
    requires forall j, i {:trigger f(k, j, i)} | j0 <= j < j0 + n && i0 <= i < i0 + ni ::
             f(k, j, i) == g(k, j, i + 1) - g(k, j, i)
    ensures PlaneSum(f, k, j0, n, i0, ni) == PlaneSum(g, k, j0, n, i0 + ni, 1) - PlaneSum(g, k, j0, n, i0, 1)
  {
    if n > 0 {
      PlanesDiffer(f, g, k, j0, n - 1, i0, ni);
      RowTelescopes(g, f, k, j0 + n - 1, i0, ni);
      OneColumn(g, k, j0 + n - 1, i0);
      OneColumn(g, k, j0 + n - 1, i0 + ni);
    }
  }

  lemma OneColumn(g: Scalar, k: int, j: int, i: int)
    ensures RowSum(g, k, j, i, 1) == g(k, j, i)
  {
  }

  lemma OneRow(g: Scalar, k: int, j: int, i0: int, ni: nat)
    ensures PlaneSum(g, k, j, 1, i0, ni) == RowSum(g, k, j, i0, ni)
  {
  }

  lemma OnePlane(g: Scalar, k: int, j0: int, nj: nat, i0: int, ni: nat)
    ensures BlockSum(g, k, 1, j0, nj, i0, ni) == PlaneSum(g, k, j0, nj, i0, ni)
  {
  }

  lemma {:induction false} BlocksDiffer1(f: Scalar, g: Scalar, k0: int, n: nat, j0: int, nj: nat, i0: int, ni: nat)
    requires forall k, j, i {:trigger f(k, j, i)} | k0 <= k < k0 + n && j0 <= j < j0 + nj && i0 <= i < i0 + ni ::
               f(k, j, i) == g(k, j, i + 1) - g(k, j, i)
    ensures BlockSum(f, k0, n, j0, nj, i0, ni)
            == BlockSum(g, k0, n, j0, nj, i0 + ni, 1) - BlockSum(g, k0, n, j0, nj, i0, 1)
  {
    if n > 0 {
      BlocksDiffer1(f, g, k0, n - 1, j0, nj, i0, ni);
      PlanesDiffer(f, g, k0 + n - 1, j0, nj, i0, ni);
    }
  }

  lemma {:induction false} BlocksDiffer2(f: Scalar, g: Scalar, k0: int, n: nat, j0: int, nj: nat, i0: int, ni: nat)
    requires forall k, j, i {:trigger f(k, j, i)} | k0 <= k < k0 + n && j0 <= j < j0 + nj && i0 <= i < i0 + ni ::
               f(k, j, i) == g(k, j + 1, i) - g(k, j, i)
    ensures BlockSum(f, k0, n, j0, nj, i0, ni)
            == BlockSum(g, k0, n, j0 + nj, 1, i0, ni) - BlockSum(g, k0, n, j0, 1, i0, ni)
  {
    if n > 0 {
      BlocksDiffer2(f, g, k0, n - 1, j0, nj, i0, ni);
      PlaneTelescopes(g, f, k0 + n - 1, j0, nj, i0, ni);
      OneRow(g, k0 + n - 1, j0, i0, ni);
      OneRow(g, k0 + n - 1, j0 + nj, i0, ni);
    }
  }

  /** The total of a difference is what is left at the two ends. */
  lemma TotalIsEnds(m: Mesh, f: Scalar, g: Scalar, d: int)
    requires m.Ok() && 1 <= d <= 3 && Differences(m, f, g, d)
    ensures Total(m, f)
            == SideSum(m, g, d, if d == 1 then m.Ie() + 1 else if d == 2 then m.Je() + 1 else m.Ke() + 1)
               - SideSum(m, g, d, if d == 1 then m.Is() else if d == 2 then m.Js() else m.Ks())
  {
    if d == 1 {
      BlocksDiffer1(f, g, m.Ks(), m.n3, m.Js(), m.n2, m.Is(), m.n1);
    } else if d == 2 {
      BlocksDiffer2(f, g, m.Ks(), m.n3, m.Js(), m.n2, m.Is(), m.n1);
    } else {
      BlockTelescopes(g, f, m.Ks(), m.n3, m.Js(), m.n2, m.Is(), m.n1);
      OnePlane(g, m.Ks(), m.Js(), m.n2, m.Is(), m.n1);
      OnePlane(g, m.Ks() + m.n3, m.Js(), m.n2, m.Is(), m.n1);
    }
  }

  lemma {:induction false} ZeroBlock(f: Scalar, k0: int, n: nat, j0: int, nj: nat, i0: int, ni: nat)
    requires forall k, j, i {:trigger f(k, j, i)} | k0 <= k < k0 + n && j0 <= j < j0 + nj && i0 <= i < i0 + ni ::
               f(k, j, i) == 0.0
    ensures BlockSum(f, k0, n, j0, nj, i0, ni) == 0.0
  {
    BlockCombines(f, f, f, 0.0, 0.0, k0, n, j0, nj, i0, ni);
  }

  /** Nothing passes a fixed side of the block. */
  lemma ShutSide(m: Mesh, p: Plan, q: Fluxes, e: Field, d: int, inner: bool, c: int)
    requires m.Ok() && 1 <= d <= 2 && 1 <= c <= 3 && (m.ndim == 2 ==> c != 3) && Shut(p, d, inner)
    ensures SideSum(m, FluxOf(Passed(m, p, q, e), d, c), d,
                    if d == 1 then if inner then m.Is() else m.Ie() + 1 else if inner then m.Js() else m.Je() + 1)
            == 0.0
  {
    hide Passed, Shut;
    var g := FluxOf(Passed(m, p, q, e), d, c);
    forall k, j, i | m.FaceRange(d).Has(k, j, i) { NothingShut(m, p, q, e, d, inner, c, k, j, i); }
    if d == 1 {
      ZeroBlock(g, m.Ks(), m.n3, m.Js(), m.n2, if inner then m.Is() else m.Ie() + 1, 1);
    } else {
      ZeroBlock(g, m.Ks(), m.n3, if inner then m.Js() else m.Je() + 1, 1, m.Is(), m.n1);
    }
  }

  /** What leaves the block less what enters it in direction `d`, per face area; fixed sides left out. */
  function Through(m: Mesh, p: Plan, w: Fluxes, d: int, c: int): real
    requires m.Ok()
  {
    var s := FluxOf(w, d, c);
    (if Shut(p, d, false) then 0.0
     else SideSum(m, s, d, if d == 1 then m.Ie() + 1 else if d == 2 then m.Je() + 1 else m.Ke() + 1))
    - (if Shut(p, d, true) then 0.0
       else SideSum(m, s, d, if d == 1 then m.Is() else if d == 2 then m.Js() else m.Ks()))
  }

  /** The total of every rewritten component over the block changes only through sides that are not fixed. */
  lemma BlockBudget(m: Mesh, p: Plan, q: Fluxes, e: Field, stale: Field, c: int)
    requires m.Ok() && 1 <= c <= 3 && (m.ndim == 2 ==> c != 3)
    ensures var w := Passed(m, p, q, e);
            Total(m, Component(Diverged(m, w, stale), c))
            == -(Through(m, p, w, 1, c) / m.dx1 + Through(m, p, w, 2, c) / m.dx2
                 + (if m.ndim > 2 then Through(m, p, w, 3, c) / m.dx3 else 0.0))
  {
    var w := Passed(m, p, q, e);
    TotalOfDiverged(m, w, stale, c);
    EndsLessShut(m, p, q, e, 1, c);
    EndsLessShut(m, p, q, e, 2, c);
    hide Passed, Through, Diverged, Total;
    NoFixAlong3(m, p, w, c);
  }

  /** What is left at the ends in direction `d`. */
  function Ends(m: Mesh, s: Scalar, d: int): real
    requires m.Ok()
  {
    SideSum(m, s, d, if d == 1 then m.Ie() + 1 else if d == 2 then m.Je() + 1 else m.Ke() + 1)
    - SideSum(m, s, d, if d == 1 then m.Is() else if d == 2 then m.Js() else m.Ks())
  }

  lemma EndsLessShut(m: Mesh, p: Plan, q: Fluxes, e: Field, d: int, c: int)
    requires m.Ok() && 1 <= d <= 2 && 1 <= c <= 3 && (m.ndim == 2 ==> c != 3)
    ensures var w := Passed(m, p, q, e); Ends(m, FluxOf(w, d, c), d) == Through(m, p, w, d, c)
  {
    hide Passed, Shut, SideSum, FluxOf;
    if Shut(p, d, true) { ShutSide(m, p, q, e, d, true, c); }
    if Shut(p, d, false) { ShutSide(m, p, q, e, d, false, c); }
  }

  lemma NoFixAlong3(m: Mesh, p: Plan, w: Fluxes, c: int)
    requires m.Ok()
    ensures Ends(m, FluxOf(w, 3, c), 3) == Through(m, p, w, 3, c)
  {
    hide SideSum, FluxOf;
  }

  function Step(s: Scalar, d: int, k: int, j: int, i: int): real {
    s(if d == 3 then k + 1 else k, if d == 2 then j + 1 else j, if d == 1 then i + 1 else i) - s(k, j, i)
  }

  function Difference(s: Scalar, d: int): Scalar { (k, j, i) => Step(s, d, k, j, i) }

  lemma TotalOfDiverged(m: Mesh, w: Fluxes, stale: Field, c: int)
    requires m.Ok() && 1 <= c <= 3
    ensures Total(m, Component(Diverged(m, w, stale), c))
            == -(Ends(m, FluxOf(w, 1, c), 1) / m.dx1 + Ends(m, FluxOf(w, 2, c), 2) / m.dx2
                 + (if m.ndim > 2 then Ends(m, FluxOf(w, 3, c), 3) / m.dx3 else 0.0))
  {
    hide Total, SideSum, Diverged, GridSums.Mix, Ends;
    var u, f1, f2, f3 := Component(Diverged(m, w, stale), c), Difference(FluxOf(w, 1, c), 1),
                         Difference(FluxOf(w, 2, c), 2), Difference(FluxOf(w, 3, c), 3);
    var r1, r2, r3 := -1.0 / m.dx1, -1.0 / m.dx2, if m.ndim > 2 then -1.0 / m.dx3 else 0.0;
    forall k, j, i | m.Interior(k, j, i)
      ensures u(k, j, i) == GridSums.Mix(1.0, GridSums.Mix(r1, f1(k, j, i), r2, f2(k, j, i)), r3, f3(k, j, i))
    {
      ZoneByReciprocals(m, w, stale, c, k, j, i);
    }
    TotalOfMix(m, u, f1, f2, f3, r1, r2, r3);
    EndsOf(m, FluxOf(w, 1, c), 1);
    EndsOf(m, FluxOf(w, 2, c), 2);
    EndsOf(m, FluxOf(w, 3, c), 3);
    Regroup(m, Total(m, f1), Total(m, f2), Total(m, f3), r1, r2, r3);
  }

  lemma DifferenceIs(m: Mesh, g: Scalar, d: int)
    ensures Differences(m, Difference(g, d), g, d)
  {
    var f := Difference(g, d);
    forall k, j, i ensures f(k, j, i) == Step(g, d, k, j, i) {
    }
    hide Difference;
  }

  lemma DifferenceAt(g: Scalar, d: int, k: int, j: int, i: int)
    ensures Difference(g, d)(k, j, i)
            == g(if d == 3 then k + 1 else k, if d == 2 then j + 1 else j, if d == 1 then i + 1 else i) - g(k, j, i)
  {
    assert Difference(g, d)(k, j, i) == Step(g, d, k, j, i);
  }

  lemma EndsOf(m: Mesh, g: Scalar, d: int)
    requires m.Ok() && 1 <= d <= 3
    ensures Total(m, Difference(g, d)) == Ends(m, g, d)
  {
    DifferenceIs(m, g, d);
    hide Total, SideSum, Differences, Difference;
    TotalIsEnds(m, Difference(g, d), g, d);
  }

  lemma TotalOfMix(m: Mesh, u: Scalar, f1: Scalar, f2: Scalar, f3: Scalar, r1: real, r2: real, r3: real)
    requires m.Ok() && forall k, j, i {:trigger u(k, j, i)} | m.Interior(k, j, i) ::
               u(k, j, i) == GridSums.Mix(1.0, GridSums.Mix(r1, f1(k, j, i), r2, f2(k, j, i)), r3, f3(k, j, i))
    ensures Total(m, u) == GridSums.Mix(1.0, GridSums.Mix(r1, Total(m, f1), r2, Total(m, f2)), r3, Total(m, f3))
  {
    hide Total, GridSums.Mix;
    var h: Scalar := (k, j, i) => GridSums.Mix(r1, f1(k, j, i), r2, f2(k, j, i));
    TotalCombines(m, f1, f2, h, r1, r2);
    TotalCombines(m, h, f3, u, 1.0, r3);
  }

  lemma ZoneByReciprocals(m: Mesh, w: Fluxes, stale: Field, c: int, k: int, j: int, i: int)
    requires m.Ok() && 1 <= c <= 3 && m.Interior(k, j, i)
    ensures var r1, r2, r3 := -1.0 / m.dx1, -1.0 / m.dx2, if m.ndim > 2 then -1.0 / m.dx3 else 0.0;
            Component(Diverged(m, w, stale), c)(k, j, i)
            == GridSums.Mix(1.0, GridSums.Mix(r1, Difference(FluxOf(w, 1, c), 1)(k, j, i),
                                              r2, Difference(FluxOf(w, 2, c), 2)(k, j, i)),
                            r3, Difference(FluxOf(w, 3, c), 3)(k, j, i))
  {
    hide Diverged, FluxOf, Difference, Component, FluxDiv, GridSums.Mix;
    var f1, f2, f3 := FluxOf(w, 1, c), FluxOf(w, 2, c), FluxOf(w, 3, c);
    SourceIs(m, w, stale, c, k, j, i);
    DifferenceAt(f1, 1, k, j, i);
    DifferenceAt(f2, 2, k, j, i);
    DifferenceAt(f3, 3, k, j, i);
    DivByReciprocals(m, f1(k, j, i + 1), f1(k, j, i), f2(k, j + 1, i), f2(k, j, i), Above(m, f3, k, j, i), f3(k, j, i),
                     Difference(f3, 3)(k, j, i));
  }

  lemma SourceIs(m: Mesh, w: Fluxes, stale: Field, c: int, k: int, j: int, i: int)
    requires m.Ok() && 1 <= c <= 3 && m.Interior(k, j, i)
    ensures Component(Diverged(m, w, stale), c)(k, j, i)
            == DivAt(m, FluxOf(w, 1, c), FluxOf(w, 2, c), FluxOf(w, 3, c), k, j, i)
  {
    hide DivAt;
    DivergedAt(m, w, stale, k, j, i);
  }

  lemma DivByReciprocals(m: Mesh, p': real, p: real, q': real, q: real, r': real, r: real, c: real)
    requires m.Ok() && (m.ndim > 2 ==> c == r' - r)
    ensures FluxDiv(m, p', p, q', q, r', r)
            == GridSums.Mix(1.0, GridSums.Mix(-1.0 / m.dx1, p' - p, -1.0 / m.dx2, q' - q),
                            if m.ndim > 2 then -1.0 / m.dx3 else 0.0, c)
  {
    hide GridSums.Mix;
    Regroup(m, p' - p, q' - q, c, -1.0 / m.dx1, -1.0 / m.dx2, if m.ndim > 2 then -1.0 / m.dx3 else 0.0);
  }

  lemma Regroup(m: Mesh, a: real, b: real, c: real, r1: real, r2: real, r3: real)
    requires m.Ok() && r1 == -1.0 / m.dx1 && r2 == -1.0 / m.dx2 && r3 == (if m.ndim > 2 then -1.0 / m.dx3 else 0.0)
    ensures GridSums.Mix(1.0, GridSums.Mix(r1, a, r2, b), r3, c)
            == -(a / m.dx1 + b / m.dx2 + (if m.ndim > 2 then c / m.dx3 else 0.0))
  {
  }

  /** Both budgets of one component: of each interior zone, and of the block. */
  ghost predicate ComponentBudget(m: Mesh, p: Plan, w: Fluxes, u: Field, c: int)
    requires m.Ok()
  {
    && Total(m, Component(u, c))
       == -(Through(m, p, w, 1, c) / m.dx1 + Through(m, p, w, 2, c) / m.dx2
            + (if m.ndim > 2 then Through(m, p, w, 3, c) / m.dx3 else 0.0))
    && forall k, j, i | m.Interior(k, j, i) ::
         Component(u, c)(k, j, i)
         == -((Out(m, p, w, 1, c, k, j, i) - In(m, p, w, 1, c, k, j, i)) / m.dx1
              + (Out(m, p, w, 2, c, k, j, i) - In(m, p, w, 2, c, k, j, i)) / m.dx2
              + (if m.ndim > 2 then (Out(m, p, w, 3, c, k, j, i) - In(m, p, w, 3, c, k, j, i)) / m.dx3 else 0.0))
  }

  /** And of every component whose fluxes are rewritten. */
  ghost predicate Budgeted(m: Mesh, p: Plan, w: Fluxes, u: Field)
    requires m.Ok()
  {
    ComponentBudget(m, p, w, u, 1) && ComponentBudget(m, p, w, u, 2) && (m.ndim > 2 ==> ComponentBudget(m, p, w, u, 3))
  }

  lemma OneBalance(m: Mesh, p: Plan, q: Fluxes, e: Field, stale: Field, c: int)
    requires m.Ok() && 1 <= c <= 3 && (m.ndim == 2 ==> c != 3)
    ensures ComponentBudget(m, p, Passed(m, p, q, e), Diverged(m, Passed(m, p, q, e), stale), c)
  {
    hide Passed, Diverged, Total, Through, Out, In;
    BlockBudget(m, p, q, e, stale, c);
    var w, u := Passed(m, p, q, e), Diverged(m, Passed(m, p, q, e), stale);
    forall k, j, i | m.Interior(k, j, i)
      ensures Component(u, c)(k, j, i)
           == -((Out(m, p, w, 1, c, k, j, i) - In(m, p, w, 1, c, k, j, i)) / m.dx1
                + (Out(m, p, w, 2, c, k, j, i) - In(m, p, w, 2, c, k, j, i)) / m.dx2
                + (if m.ndim > 2 then (Out(m, p, w, 3, c, k, j, i) - In(m, p, w, 3, c, k, j, i)) / m.dx3 else 0.0))
    {
      ZoneBudget(m, p, q, e, stale, c, k, j, i);
    }
  }

  lemma Balance(m: Mesh, p: Plan, q: Fluxes, e: Field, stale: Field)
    requires m.Ok()
    ensures Budgeted(m, p, Passed(m, p, q, e), Diverged(m, Passed(m, p, q, e), stale))
  {
    hide Passed, Diverged, ComponentBudget;
    OneBalance(m, p, q, e, stale, 1);
    OneBalance(m, p, q, e, stale, 2);
    if m.ndim > 2 { OneBalance(m, p, q, e, stale, 3); }
  }

  lemma PassedIsCornerFree(m: Mesh, p: Plan, q: Fluxes, e: Field, stale: Field)
    requires m.Ok()
    ensures CornerFree(m, Diverged(m, Passed(m, p, q, e), stale))
  {
    hide CornerFree, Diverged, Rewritten, EmfOf;
    var q' := AllFixed(m, FixesOf(p), q);
    RewrittenIsCornerFree(m, q', EmfOf(m, q', e), stale);
  }

  // -- A stage of a run

  function Combined(u: real, p: real, v: real, q: real, w: real, r: real): real { u * p + v * q + w * r }

  function CurlOf(m: Mesh, e: Field, c: int, k: int, j: int, i: int): real
    requires m.Ok()
  {
    if c == 1 then CellCurl1(m, e, k, j, i) else if c == 2 then CellCurl2(m, e, k, j, i) else CellCurl3(m, e, k, j, i)
  }

  lemma UpdateIs(full: Field, sub: Field, src: Field, gam0: real, gam1: real, bdt: real, c: int, k: int, j: int, i: int)
    requires 1 <= c <= 3
    ensures Component(StageUpdate(full, sub, src, gam0, gam1, bdt), c)(k, j, i)
            == Combined(gam0, Component(sub, c)(k, j, i), gam1, Component(full, c)(k, j, i), bdt,
                        Component(src, c)(k, j, i))
  {
    var x, y, z := Component(sub, c), Component(full, c), Component(src, c);
    assert Component(StageUpdate(full, sub, src, gam0, gam1, bdt), c)
        == WeightedSum(WeightedSum(x, y, gam0, gam1), z, 1.0, bdt);
    hide StageUpdate;
    TwoSums(x, y, z, gam0, gam1, bdt, k, j, i);
  }

  lemma TwoSums(x: Scalar, y: Scalar, z: Scalar, gam0: real, gam1: real, bdt: real, k: int, j: int, i: int)
    ensures WeightedSum(WeightedSum(x, y, gam0, gam1), z, 1.0, bdt)(k, j, i)
            == Combined(gam0, x(k, j, i), gam1, y(k, j, i), bdt, z(k, j, i))
  {
    var s := WeightedSum(x, y, gam0, gam1);
    assert s(k, j, i) == gam0 * x(k, j, i) + gam1 * y(k, j, i);
    assert WeightedSum(s, z, 1.0, bdt)(k, j, i) == 1.0 * s(k, j, i) + bdt * z(k, j, i);
    hide WeightedSum;
  }

  /** A stage of a run advances every interior zone by the integrator's combination of the old fields and the step
      times the averaged curl of the edge EMFs its fluxes give, and leaves the other containers alone. */
  lemma StageAdvances(m: Mesh, pool: seq<Field>, st: Stage, c: int, k: int, j: int, i: int)
    requires m.Ok() && st.full < |pool| && st.sub < |pool| && st.out < |pool| && m.Interior(k, j, i)
    requires 1 <= c <= 3 && (m.ndim == 2 ==> c != 3)
    ensures var after := AfterStage(m, pool, st);
            && (forall n | 0 <= n < |pool| && n != st.out :: after[n] == pool[n])
            && Component(after[st.out], c)(k, j, i)
               == st.gam0 * Component(pool[st.sub], c)(k, j, i) + st.gam1 * Component(pool[st.full], c)(k, j, i)
                  + st.bdt * CurlOf(m, EmfOf(m, st.q, st.emf), c, k, j, i)
  {
    hide Diverged, Rewritten, EmfOf, StageUpdate, DivAt, CellCurl1, CellCurl2, CellCurl3, Combined;
    var e := EmfOf(m, st.q, st.emf);
    var src := Diverged(m, Rewritten(m, st.q, e), st.src);
    DivergedAt(m, Rewritten(m, st.q, e), st.src, k, j, i);
    DivergedIsCurl(m, st.q, e, k, j, i);
    UpdateIs(pool[st.full], pool[st.sub], src, st.gam0, st.gam1, st.bdt, c, k, j, i);
    assert Component(src, c)(k, j, i) == CurlOf(m, e, c, k, j, i);
    hide CurlOf;
    CombinedIs(st.gam0, Component(pool[st.sub], c)(k, j, i), st.gam1, Component(pool[st.full], c)(k, j, i), st.bdt,
               CurlOf(m, e, c, k, j, i));
  }

  lemma CombinedIs(u: real, p: real, v: real, q: real, w: real, r: real)
    ensures Combined(u, p, v, q, w, r) == u * p + v * q + w * r
  {
  }
}
