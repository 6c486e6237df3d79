/** The outflow clean-up (b_ct, DestructiveBoundaryClean): rank by rank outwards from the last
    interior zone, the normal face of each zone is reset so that no net flux leaves the zone. */
module BoundaryClean {
  import opened Grid
  import opened FaceCT
  import opened BoundaryEMF

  function Area(m: Mesh, d: int): real { if d == 1 then m.A1() else if d == 2 then m.A2() else m.A3() }

  function With(b: Field, d: int, s: Scalar): Field {
    if d == 1 then b.(x1 := s) else if d == 2 then b.(x2 := s) else b.(x3 := s)
  }

  /** `s` at (k, j, i) with the coordinate along `d` replaced by `f`. */
  function At(s: Scalar, d: int, f: int, k: int, j: int, i: int): real {
    s(if d == 3 then f else k, if d == 2 then f else j, if d == 1 then f else i)
  }

  /** Net flux out of a zone through the faces not normal to `d`. */
  function Sideways(m: Mesh, b: Field, d: int, k: int, j: int, i: int): real {
    (if d != 1 then b.x1(k, j, i + 1) * m.A1() - b.x1(k, j, i) * m.A1() else 0.0)
    + (if d != 2 then b.x2(k, j + 1, i) * m.A2() - b.x2(k, j, i) * m.A2() else 0.0)
    + (if d != 3 && m.ndim > 2 then b.x3(k + 1, j, i) * m.A3() - b.x3(k, j, i) * m.A3() else 0.0)
  }

  /** The new field on a face, from its partner face and the two pairs of sideways faces (fields
      `u`, `v` on areas `ua`, `va`) of the zone between. */
  function NewFace(inner: bool, area: real, partner: real, u': real, u: real, ua: real, v': real, v: real,
                   va: real): real
    requires area != 0.0
  {
    var outward := if inner then -1.0 else 1.0;
    outward * (-(-outward) * partner * area - (u' * ua - u * ua) - (v' * va - v * va)) / area
  }

  /** The X3 faces of a zone, which have no flux in 2D. */
  function High3(m: Mesh, b: Field, k: int, j: int, i: int): real { if m.ndim > 2 then b.x3(k + 1, j, i) else 0.0 }
  function Low3(m: Mesh, b: Field, k: int, j: int, i: int): real { if m.ndim > 2 then b.x3(k, j, i) else 0.0 }

  /** Zones of rank `p`, counted outwards from the last interior one; the face each of them gets
      reset and the partner it is computed from; and the number of ranks. */
  function RankZone(m: Mesh, d: int, inner: bool, p: int): int {
    if inner then Start(m, d) - p else Start(m, d) + Count(m, d) - 1 + p
  }
  function OuterFace(inner: bool, c: int): int { if inner then c else c + 1 }
  function PartnerFace(inner: bool, c: int): int { if inner then c + 1 else c }
  function Ranks(m: Mesh, d: int, inner: bool): int {
    if inner then Start(m, d) + 1 else Nodes(m, d) - (Start(m, d) + Count(m, d))
  }

  /** Zones, ghosts included, in the directions across `d`. */
  predicate Across(m: Mesh, d: int, k: int, j: int, i: int) {
    && (d == 1 || 0 <= i <= LastZone(m, 1))
    && (d == 2 || 0 <= j <= LastZone(m, 2))
    && (d == 3 || 0 <= k <= LastZone(m, 3))
  }

  function ResetValue(m: Mesh, d: int, inner: bool, b: Field, c: int, k: int, j: int, i: int): real
    requires m.Ok()
  {
    var p := PartnerFace(inner, c);
    if d == 1 then
      NewFace(inner, m.A1(), b.x1(k, j, p), b.x2(k, j + 1, c), b.x2(k, j, c), m.A2(), High3(m, b, k, j, c),
              Low3(m, b, k, j, c), m.A3())
    else if d == 2 then
      NewFace(inner, m.A2(), b.x2(k, p, i), b.x1(k, c, i + 1), b.x1(k, c, i), m.A1(), High3(m, b, k, c, i),
              Low3(m, b, k, c, i), m.A3())
    else
      NewFace(inner, m.A3(), b.x3(p, j, i), b.x1(c, j, i + 1), b.x1(c, j, i), m.A1(), b.x2(c, j + 1, i), b.x2(c, j, i),
              m.A2())
  }

  /** One rank: the outer normal face of every zone with coordinate `c` along `d`. */
  function ResetFace(m: Mesh, d: int, inner: bool, b: Field, c: int, k: int, j: int, i: int): real
    requires m.Ok()
  {
    if Index(d, k, j, i) == OuterFace(inner, c) && Across(m, d, k, j, i)
    then ResetValue(m, d, inner, b, c, k, j, i) else Component(b, d)(k, j, i)
  }

  function CleanedRank(m: Mesh, d: int, inner: bool, b: Field, c: int): Field
    requires m.Ok()
  {
    With(b, d, (k, j, i) => ResetFace(m, d, inner, b, c, k, j, i))
  }

  /** The first `p` ranks. */
  function CleanedRanks(m: Mesh, d: int, inner: bool, b: Field, p: nat): Field
    requires m.Ok()
  {
    if p == 0 then b
    else CleanedRank(m, d, inner, CleanedRanks(m, d, inner, b, p - 1), RankZone(m, d, inner, p - 1))
  }

  /** The field after DestructiveBoundaryClean. */
  function Cleaned(m: Mesh, d: int, inner: bool, b: Field): Field
    requires m.Ok() && IsBoundary(m, d)
  {
    CleanedRanks(m, d, inner, b, Ranks(m, d, inner))
  }

  // -- What one rank does

  lemma NewFaceCloses(inner: bool, area: real, partner: real, u': real, u: real, ua: real, v': real, v: real, va: real)
    requires area != 0.0
    ensures var f := NewFace(inner, area, partner, u', u, ua, v', v, va);
            area * ((if inner then partner else f) - (if inner then f else partner)) + (u' * ua - u * ua)
                + (v' * va - v * va) == 0.0
  {
  }

  lemma ResetValueCloses(m: Mesh, d: int, inner: bool, b: Field, k: int, j: int, i: int)
    requires m.Ok() && IsBoundary(m, d)
    ensures var c := Index(d, k, j, i);
            var f, p := ResetValue(m, d, inner, b, c, k, j, i), At(Component(b, d), d, PartnerFace(inner, c), k, j, i);
            Area(m, d) * ((if inner then p else f) - (if inner then f else p)) + Sideways(m, b, d, k, j, i) == 0.0
  {
    hide NewFace;
    var p := PartnerFace(inner, Index(d, k, j, i));
    if d == 1 {
      NewFaceCloses(inner, m.A1(), b.x1(k, j, p), b.x2(k, j + 1, i), b.x2(k, j, i), m.A2(), High3(m, b, k, j, i),
                    Low3(m, b, k, j, i), m.A3());
    } else if d == 2 {
      NewFaceCloses(inner, m.A2(), b.x2(k, p, i), b.x1(k, j, i + 1), b.x1(k, j, i), m.A1(), High3(m, b, k, j, i),
                    Low3(m, b, k, j, i), m.A3());
    } else {
      NewFaceCloses(inner, m.A3(), b.x3(p, j, i), b.x1(k, j, i + 1), b.x1(k, j, i), m.A1(), b.x2(k, j + 1, i),
                    b.x2(k, j, i), m.A2());
    }
  }

  lemma NetIsSidewaysPlus(m: Mesh, b: Field, d: int, k: int, j: int, i: int)
    requires m.Ok() && IsBoundary(m, d)
    ensures Net(m, b, k, j, i)
         == Area(m, d) * (At(Component(b, d), d, Index(d, k, j, i) + 1, k, j, i) - Component(b, d)(k, j, i))
            + Sideways(m, b, d, k, j, i)
  {
  }

  lemma RankCloses(m: Mesh, d: int, inner: bool, b: Field, k: int, j: int, i: int)
    requires m.Ok() && IsBoundary(m, d) && Across(m, d, k, j, i)
    ensures Net(m, CleanedRank(m, d, inner, b, Index(d, k, j, i)), k, j, i) == 0.0
  {
    hide ResetValue, Net, Sideways;
    var c := Index(d, k, j, i);
    var g := CleanedRank(m, d, inner, b, c);
    NetIsSidewaysPlus(m, g, d, k, j, i);
    ResetValueCloses(m, d, inner, b, k, j, i);
    RankFaces(m, d, inner, b, k, j, i);
  }

  lemma RankFaces(m: Mesh, d: int, inner: bool, b: Field, k: int, j: int, i: int)
    requires m.Ok() && IsBoundary(m, d) && Across(m, d, k, j, i)
    ensures var c := Index(d, k, j, i); var g := CleanedRank(m, d, inner, b, c);
            && Sideways(m, g, d, k, j, i) == Sideways(m, b, d, k, j, i)
            && At(Component(g, d), d, PartnerFace(inner, c), k, j, i)
            == At(Component(b, d), d, PartnerFace(inner, c), k, j, i)
            && At(Component(g, d), d, OuterFace(inner, c), k, j, i) == ResetValue(m, d, inner, b, c, k, j, i)
  {
    hide NewFace;
    SidewaysIgnores(m, b, CleanedRank(m, d, inner, b, Index(d, k, j, i)), d, k, j, i);
    hide Sideways;
  }

  /** What flows out sideways does not depend on the normal component. */
  lemma SidewaysIgnores(m: Mesh, b: Field, g: Field, d: int, k: int, j: int, i: int)
    requires m.Ok() && (d != 1 ==> g.x1 == b.x1) && (d != 2 ==> g.x2 == b.x2) && (d != 3 ==> g.x3 == b.x3)
    ensures Sideways(m, g, d, k, j, i) == Sideways(m, b, d, k, j, i)
  {
  }

  // -- All ranks

  /** Faces outside the ranks done, and the other two components, are never touched. */
  lemma {:induction false} RanksKeepTheRest(m: Mesh, d: int, inner: bool, b: Field, p: nat, k: int, j: int, i: int)
    requires m.Ok() && IsBoundary(m, d)
    ensures var g := CleanedRanks(m, d, inner, b, p);
            && (d != 1 ==> g.x1 == b.x1) && (d != 2 ==> g.x2 == b.x2) && (d != 3 ==> g.x3 == b.x3)
            && ((!Across(m, d, k, j, i)
                 || (if inner then Index(d, k, j, i) > Start(m, d) || Index(d, k, j, i) <= Start(m, d) - p
                     else
                       Index(d, k, j, i) < Start(m, d) + Count(m, d)
                       || Index(d, k, j, i) >= Start(m, d) + Count(m, d) + p))
                ==> Component(g, d)(k, j, i) == Component(b, d)(k, j, i))
  {
    if p > 0 {
      RanksKeepTheRest(m, d, inner, b, p - 1, k, j, i);
      var f := CleanedRanks(m, d, inner, b, p - 1);
      var c := RankZone(m, d, inner, p - 1);
      assert Component(CleanedRank(m, d, inner, f, c), d)(k, j, i) == ResetFace(m, d, inner, f, c, k, j, i);
    }
  }

  /** Once its rank is done a zone has no net flux, whatever the field was. */
  lemma {:induction false} RanksClose(m: Mesh, d: int, inner: bool, b: Field, p: nat, q: nat, k: int, j: int, i: int)
    requires m.Ok() && IsBoundary(m, d) && Across(m, d, k, j, i) && q < p
             && Index(d, k, j, i) == RankZone(m, d, inner, q)
    ensures Net(m, CleanedRanks(m, d, inner, b, p), k, j, i) == 0.0
  {
    var f := CleanedRanks(m, d, inner, b, p - 1);
    if q == p - 1 {
      RankCloses(m, d, inner, f, k, j, i);
    } else {
      RanksClose(m, d, inner, b, p - 1, q, k, j, i);
      LaterRankKeepsNet(m, d, inner, f, RankZone(m, d, inner, p - 1), k, j, i);
    }
  }

  /** A rank further out leaves the net flux of a zone alone. */
  lemma LaterRankKeepsNet(m: Mesh, d: int, inner: bool, b: Field, c: int, k: int, j: int, i: int)
    requires m.Ok() && IsBoundary(m, d)
    requires if inner then c < Index(d, k, j, i) else Index(d, k, j, i) < c
    ensures Net(m, CleanedRank(m, d, inner, b, c), k, j, i) == Net(m, b, k, j, i)
  {
  }

  /** Zones that end up with no net flux: the last interior rank and every ghost rank outside it. */
  predicate CleanedZone(m: Mesh, d: int, inner: bool, k: int, j: int, i: int) {
    && Across(m, d, k, j, i)
    && (if inner then 0 <= Index(d, k, j, i) <= Start(m, d)
        else Start(m, d) + Count(m, d) - 1 <= Index(d, k, j, i) <= LastZone(m, d))
  }

  /** Faces the routine may change. */
  predicate CleanedFace(m: Mesh, d: int, inner: bool, k: int, j: int, i: int) {
    && Across(m, d, k, j, i)
    && (if inner then 0 <= Index(d, k, j, i) <= Start(m, d)
        else Start(m, d) + Count(m, d) <= Index(d, k, j, i) < Nodes(m, d))
  }

  /** The clean-up leaves no divergence in the last interior zones and every ghost zone outwards. */
  lemma CleanLeavesNoDiv(m: Mesh, d: int, inner: bool, b: Field, k: int, j: int, i: int)
    requires m.Ok() && IsBoundary(m, d) && CleanedZone(m, d, inner, k, j, i)
    ensures FaceDiv(m, Cleaned(m, d, inner, b), k, j, i) == 0.0
  {
    var q := if inner then Start(m, d) - Index(d, k, j, i) else Index(d, k, j, i) - (Start(m, d) + Count(m, d) - 1);
    RanksClose(m, d, inner, b, Ranks(m, d, inner), q, k, j, i);
    NetIsDiv(m, Cleaned(m, d, inner, b), k, j, i);
  }

  /** It changes nothing but the normal faces from the domain face outwards. */
  lemma CleanChangesOnlyItsFaces(m: Mesh, d: int, inner: bool, b: Field, k: int, j: int, i: int)
    requires m.Ok() && IsBoundary(m, d) && m.InBounds(k, j, i)
    ensures var g := Cleaned(m, d, inner, b);
            && (d != 1 ==> g.x1 == b.x1) && (d != 2 ==> g.x2 == b.x2) && (d != 3 ==> g.x3 == b.x3)
            && (!CleanedFace(m, d, inner, k, j, i) ==> Component(g, d)(k, j, i) == Component(b, d)(k, j, i))
  {
    RanksKeepTheRest(m, d, inner, b, Ranks(m, d, inner), k, j, i);
  }

  /** `g` extends the field `b` past the domain face: it has the same other faces. */
  ghost predicate Extends(m: Mesh, d: int, inner: bool, b: Field, g: Field) {
    forall k, j, i | m.InBounds(k, j, i) ::
      && (d != 1 ==> g.x1(k, j, i) == b.x1(k, j, i))
      && (d != 2 ==> g.x2(k, j, i) == b.x2(k, j, i))
      && (d != 3 ==> g.x3(k, j, i) == b.x3(k, j, i))
      && (!CleanedFace(m, d, inner, k, j, i) ==> Component(g, d)(k, j, i) == Component(b, d)(k, j, i))
  }

  /** No other extension of the normal faces is divergence-free in those zones. */
  lemma CleanIsTheOnlyExtension(m: Mesh, d: int, inner: bool, b: Field, g: Field, k: int, j: int, i: int)
    requires m.Ok() && IsBoundary(m, d) && Extends(m, d, inner, b, g)
    requires forall k, j, i | CleanedZone(m, d, inner, k, j, i) :: FaceDiv(m, g, k, j, i) == 0.0
    requires CleanedFace(m, d, inner, k, j, i)
    ensures Component(g, d)(k, j, i) == Component(Cleaned(m, d, inner, b), d)(k, j, i)
    decreases if inner then Start(m, d) - Index(d, k, j, i) else Index(d, k, j, i)
  {
    hide FaceDiv, Net, Cleaned, NetOf;
    var f := Index(d, k, j, i);
    var c := if inner then f else f - 1;
    var p := PartnerFace(inner, c);
    var k', j', i' := if d == 3 then p else k, if d == 2 then p else j, if d == 1 then p else i;
    assert m.InBounds(k', j', i') && Index(d, k', j', i') == p;
    if CleanedFace(m, d, inner, k', j', i') {
      CleanIsTheOnlyExtension(m, d, inner, b, g, k', j', i');
    } else {
      CleanChangesOnlyItsFaces(m, d, inner, b, k', j', i');
    }
    var kc, jc, ic := if d == 3 then c else k, if d == 2 then c else j, if d == 1 then c else i;
    assert CleanedZone(m, d, inner, kc, jc, ic);
    SameClosedZone(m, d, inner, b, g, kc, jc, ic);
  }

  lemma SameClosedZone(m: Mesh, d: int, inner: bool, b: Field, g: Field, k: int, j: int, i: int)
    requires m.Ok() && IsBoundary(m, d) && Extends(m, d, inner, b, g) && CleanedZone(m, d, inner, k, j, i)
    requires FaceDiv(m, g, k, j, i) == 0.0
    requires var c, h := Index(d, k, j, i), Cleaned(m, d, inner, b);
             At(Component(g, d), d, PartnerFace(inner, c), k, j, i)
                 == At(Component(h, d), d, PartnerFace(inner, c), k, j, i)
    ensures var c, h := Index(d, k, j, i), Cleaned(m, d, inner, b);
            At(Component(g, d), d, OuterFace(inner, c), k, j, i) == At(Component(h, d), d, OuterFace(inner, c), k, j, i)
  {
    hide FaceDiv, Net, Cleaned, NetOf, Sideways;
    var c, h := Index(d, k, j, i), Cleaned(m, d, inner, b);
    NetIsDiv(m, g, k, j, i);
    NetIsDiv(m, h, k, j, i);
    CleanLeavesNoDiv(m, d, inner, b, k, j, i);
    NetIsSidewaysPlus(m, g, d, k, j, i);
    NetIsSidewaysPlus(m, h, d, k, j, i);
    SameSideways(m, d, inner, b, g, k, j, i);
    SameDifference(Area(m, d), At(Component(g, d), d, c + 1, k, j, i), Component(g, d)(k, j, i),
                   At(Component(h, d), d, c + 1, k, j, i), Component(h, d)(k, j, i));
  }

  lemma SameDifference(a: real, p: real, q: real, r: real, s: real)
    requires a > 0.0 && a * (p - q) == a * (r - s)
    ensures p - q == r - s
  {
  }

  lemma SameSideways(m: Mesh, d: int, inner: bool, b: Field, g: Field, k: int, j: int, i: int)
    requires m.Ok() && IsBoundary(m, d) && Extends(m, d, inner, b, g) && CleanedZone(m, d, inner, k, j, i)
    ensures Sideways(m, g, d, k, j, i) == Sideways(m, Cleaned(m, d, inner, b), d, k, j, i)
  {
    hide Cleaned, CleanedFace, Sideways;
    var h := Cleaned(m, d, inner, b);
    CleanChangesOnlyItsFaces(m, d, inner, b, k, j, i);
    assert m.InBounds(k, j, i);
    if d != 1 {
      assert m.InBounds(k, j, i + 1);
      assert g.x1(k, j, i) == h.x1(k, j, i) && g.x1(k, j, i + 1) == h.x1(k, j, i + 1);
    }
    if d != 2 {
      assert m.InBounds(k, j + 1, i);
      assert g.x2(k, j, i) == h.x2(k, j, i) && g.x2(k, j + 1, i) == h.x2(k, j + 1, i);
    }
    if d != 3 && m.ndim > 2 {
      assert m.InBounds(k + 1, j, i);
      assert g.x3(k, j, i) == h.x3(k, j, i) && g.x3(k + 1, j, i) == h.x3(k + 1, j, i);
    }
    SidewaysOfSame(m, g, h, d, k, j, i);
  }

  lemma SidewaysOfSame(m: Mesh, g: Field, h: Field, d: int, k: int, j: int, i: int)
    requires d != 1 ==> g.x1(k, j, i) == h.x1(k, j, i) && g.x1(k, j, i + 1) == h.x1(k, j, i + 1)
    requires d != 2 ==> g.x2(k, j, i) == h.x2(k, j, i) && g.x2(k, j + 1, i) == h.x2(k, j + 1, i)
    requires d != 3 && m.ndim > 2 ==> g.x3(k, j, i) == h.x3(k, j, i) && g.x3(k + 1, j, i) == h.x3(k + 1, j, i)
    ensures Sideways(m, g, d, k, j, i) == Sideways(m, h, d, k, j, i)
  {
  }

  // -- The interior

  lemma CleanKeepsDivFree(m: Mesh, d: int, inner: bool, b: Field)
    requires m.Ok() && IsBoundary(m, d) && DivFree(m, b)
    ensures DivFree(m, Cleaned(m, d, inner, b))
  {
    hide Cleaned, FaceDiv;
    forall k, j, i | m.Interior(k, j, i) ensures FaceDiv(m, Cleaned(m, d, inner, b), k, j, i) == 0.0 {
      if CleanedZone(m, d, inner, k, j, i) {
        CleanLeavesNoDiv(m, d, inner, b, k, j, i);
      } else {
        assert FaceDiv(m, b, k, j, i) == 0.0;
        InnerZoneUntouched(m, d, inner, b, k, j, i);
      }
    }
  }

  lemma InnerZoneUntouched(m: Mesh, d: int, inner: bool, b: Field, k: int, j: int, i: int)
    requires m.Ok() && IsBoundary(m, d) && m.Interior(k, j, i) && !CleanedZone(m, d, inner, k, j, i)
    ensures FaceDiv(m, Cleaned(m, d, inner, b), k, j, i) == FaceDiv(m, b, k, j, i)
  {
    hide Cleaned, DivOf;
    m.FacesOfZone(k, j, i);
    CleanChangesOnlyItsFaces(m, d, inner, b, k, j, i);
    CleanChangesOnlyItsFaces(m, d, inner, b, k, j, i + 1);
    CleanChangesOnlyItsFaces(m, d, inner, b, k, j + 1, i);
    if m.ndim > 2 { CleanChangesOnlyItsFaces(m, d, inner, b, k + 1, j, i); }
  }

  /** A divergence-free field keeps its normal flux through the interior part of the domain face. */
  lemma CleanKeepsDomainFace(m: Mesh, d: int, inner: bool, b: Field, k: int, j: int, i: int)
    requires m.Ok() && IsBoundary(m, d) && DivFree(m, b)
    requires m.FaceRange(d).Has(k, j, i) && Index(d, k, j, i) == FaceIndex(m, d, inner)
    ensures Component(Cleaned(m, d, inner, b), d)(k, j, i) == Component(b, d)(k, j, i)
  {
    hide Cleaned, FaceDiv;
    var c := if inner then Index(d, k, j, i) else Index(d, k, j, i) - 1;
    var kc, jc, ic := if d == 3 then c else k, if d == 2 then c else j, if d == 1 then c else i;
    assert m.Interior(kc, jc, ic) && CleanedZone(m, d, inner, kc, jc, ic);
    assert FaceDiv(m, b, kc, jc, ic) == 0.0;
    assert Extends(m, d, inner, b, b);
    var p := PartnerFace(inner, c);
    var kp, jp, ip := if d == 3 then p else k, if d == 2 then p else j, if d == 1 then p else i;
    CleanChangesOnlyItsFaces(m, d, inner, b, kp, jp, ip);
    SameClosedZone(m, d, inner, b, b, kc, jc, ic);
  }

  // -- The kernels

  method CleanRank1(m: Mesh, inner: bool, c: int, x1: array3<real>, x2: array3<real>, x3: array3<real>, ghost b: Field)
    requires m.Ok() && x1 != x2 && x1 != x3 && 0 <= c <= LastZone(m, 1)
    requires Stores(m, x1, b.x1) && Stores(m, x2, b.x2) && Stores(m, x3, b.x3)
    modifies x1
    ensures Stores(m, x1, CleanedRank(m, 1, inner, b, c).x1)
  {
    hide NewFace;
    var f, p := OuterFace(inner, c), PartnerFace(inner, c);
    var r := Box(0, LastZone(m, 3), 0, LastZone(m, 2), f, f);
    forall k, j, i {:trigger CleanedRank(m, 1, inner, b, c).x1(k, j, i)}
      ensures m.InBounds(k, j, i) ==>
                CleanedRank(m, 1, inner, b, c).x1(k, j, i)
                == if r.Has(k, j, i) then ResetValue(m, 1, inner, b, c, k, j, i) else b.x1(k, j, i)
    {
      assert CleanedRank(m, 1, inner, b, c).x1(k, j, i) == ResetFace(m, 1, inner, b, c, k, j, i);
    }
    ParFor(m, r, x1,
           (k, j, i) requires r.Has(k, j, i) reads x1, x2, x3 =>
             NewFace(inner, m.A1(), x1[k, j, p], x2[k, j + 1, c], x2[k, j, c], m.A2(),
                     if m.ndim > 2 then x3[k + 1, j, c] else 0.0, if m.ndim > 2 then x3[k, j, c] else 0.0, m.A3()),
           b.x1, CleanedRank(m, 1, inner, b, c).x1);
  }

  method CleanRank2(m: Mesh, inner: bool, c: int, x1: array3<real>, x2: array3<real>, x3: array3<real>, ghost b: Field)
    requires m.Ok() && x2 != x1 && x2 != x3 && 0 <= c <= LastZone(m, 2)
    requires Stores(m, x1, b.x1) && Stores(m, x2, b.x2) && Stores(m, x3, b.x3)
    modifies x2
    ensures Stores(m, x2, CleanedRank(m, 2, inner, b, c).x2)
  {
    hide NewFace;
    var f, p := OuterFace(inner, c), PartnerFace(inner, c);
    var r := Box(0, LastZone(m, 3), f, f, 0, LastZone(m, 1));
    forall k, j, i {:trigger CleanedRank(m, 2, inner, b, c).x2(k, j, i)}
      ensures m.InBounds(k, j, i) ==>
                CleanedRank(m, 2, inner, b, c).x2(k, j, i)
                == if r.Has(k, j, i) then ResetValue(m, 2, inner, b, c, k, j, i) else b.x2(k, j, i)
    {
      assert CleanedRank(m, 2, inner, b, c).x2(k, j, i) == ResetFace(m, 2, inner, b, c, k, j, i);
    }
    ParFor(m, r, x2,
           (k, j, i) requires r.Has(k, j, i) reads x1, x2, x3 =>
             NewFace(inner, m.A2(), x2[k, p, i], x1[k, c, i + 1], x1[k, c, i], m.A1(),
                     if m.ndim > 2 then x3[k + 1, c, i] else 0.0, if m.ndim > 2 then x3[k, c, i] else 0.0, m.A3()),
           b.x2, CleanedRank(m, 2, inner, b, c).x2);
  }

  method CleanRank3(m: Mesh, inner: bool, c: int, x1: array3<real>, x2: array3<real>, x3: array3<real>, ghost b: Field)
    requires m.Ok() && m.ndim == 3 && x3 != x1 && x3 != x2 && 0 <= c <= LastZone(m, 3)
    requires Stores(m, x1, b.x1) && Stores(m, x2, b.x2) && Stores(m, x3, b.x3)
    modifies x3
    ensures Stores(m, x3, CleanedRank(m, 3, inner, b, c).x3)
  {
    hide NewFace;
    var f, p := OuterFace(inner, c), PartnerFace(inner, c);
    var r := Box(f, f, 0, LastZone(m, 2), 0, LastZone(m, 1));
    forall k, j, i {:trigger CleanedRank(m, 3, inner, b, c).x3(k, j, i)}
      ensures m.InBounds(k, j, i) ==>
                CleanedRank(m, 3, inner, b, c).x3(k, j, i)
                == if r.Has(k, j, i) then ResetValue(m, 3, inner, b, c, k, j, i) else b.x3(k, j, i)
    {
      assert CleanedRank(m, 3, inner, b, c).x3(k, j, i) == ResetFace(m, 3, inner, b, c, k, j, i);
    }
    ParFor(m, r, x3,
           (k, j, i) requires r.Has(k, j, i) reads x1, x2, x3 =>
             NewFace(inner, m.A3(), x3[p, j, i], x1[c, j, i + 1], x1[c, j, i], m.A1(),
                     x2[c, j + 1, i], x2[c, j, i], m.A2()),
           b.x3, CleanedRank(m, 3, inner, b, c).x3);
  }

  method DestructiveBoundaryClean(d: int, inner: bool, b: FieldData)
    requires b.Valid() && IsBoundary(b.m, d)
    modifies b.Repr()
    ensures b.Valid() && b.contents == Cleaned(b.m, d, inner, old(b.contents))
  {
    var m := b.m;
    ghost var s := b.contents;
    for p := 0 to Ranks(m, d, inner)
      invariant b.Valid() && b.contents == CleanedRanks(m, d, inner, s, p)
    {
      var c := RankZone(m, d, inner, p);
      if d == 1 {
        CleanRank1(m, inner, c, b.x1, b.x2, b.x3, b.contents);
      } else if d == 2 {
        CleanRank2(m, inner, c, b.x1, b.x2, b.x3, b.contents);
      } else {
        CleanRank3(m, inner, c, b.x1, b.x2, b.x3, b.contents);
      }
      b.contents := CleanedRank(m, d, inner, b.contents, c);
    }
  }
}
