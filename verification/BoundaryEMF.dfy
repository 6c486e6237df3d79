/** What the EMF boundary treatments do to the edges lying on a domain face, and why no magnetic
    flux can then pass through that face (b_ct boundaries). */
module BoundaryEMF {
  import opened Grid
  import opened Sums
  import opened FaceCT

  function Index(d: int, k: int, j: int, i: int): int {
    if d == 1 then i else if d == 2 then j else k
  }

  /** First interior zone, and number of interior zones, in direction `d`. */
  function Start(m: Mesh, d: int): int { if d == 1 then m.Is() else if d == 2 then m.Js() else m.Ks() }
  function Count(m: Mesh, d: int): int { if d == 1 then m.n1 else if d == 2 then m.n2 else m.n3 }

  /** Allocated nodes in direction `d`. */
  function Nodes(m: Mesh, d: int): int { if d == 1 then m.M1() else if d == 2 then m.M2() else m.M3() }

  /** Last zone, ghosts included, in direction `d`. */
  function LastZone(m: Mesh, d: int): int { if d == 3 && m.ndim == 2 then 0 else Nodes(m, d) - 2 }

  /** Index of the domain face in direction `d`. */
  function FaceIndex(m: Mesh, d: int, inner: bool): int {
    if inner then Start(m, d) else Start(m, d) + Count(m, d)
  }

  /** The direction an edge `el` on a face `bdir` is averaged along. */
  function Along(bdir: int, el: int): int { 6 - bdir - el }

  predicate IsBoundary(m: Mesh, bdir: int) {
    1 <= bdir <= m.ndim
  }

  // -- Lines of values

  /** The values of `s` along direction `d` through (k, j, i). */
  function Line(s: Scalar, d: int, k: int, j: int, i: int): int -> real {
    var k', j', i' := if d == 3 then 0 else k, if d == 2 then 0 else j, if d == 1 then 0 else i;
    LineFrom(s, d, k', j', i')
  }

  function LineFrom(s: Scalar, d: int, k: int, j: int, i: int): int -> real {
    x => s(if d == 3 then x else k, if d == 2 then x else j, if d == 1 then x else i)
  }

  /** Mean over the interior part of that line. */
  function LineMean(m: Mesh, s: Scalar, d: int, k: int, j: int, i: int): real
    requires m.Ok()
  {
    Sum(Line(s, d, k, j, i), Start(m, d), Count(m, d)) / Count(m, d) as real
  }

  // -- The treatments

  /** Edge component `el` once every edge on the face holds the mean of its line. */
  function AveragedEdge(m: Mesh, bdir: int, inner: bool, el: int, s: Scalar): Scalar
    requires m.Ok()
  {
    AveragedUpTo(m, bdir, inner, el, s, LastZone(m, el) + 1)
  }

  /** The same with only the first `p` lines done. */
  function AveragedUpTo(m: Mesh, bdir: int, inner: bool, el: int, s: Scalar, p: int): Scalar
    requires m.Ok()
  {
    (k, j, i) =>
      if Index(bdir, k, j, i) == FaceIndex(m, bdir, inner) && 0 <= Index(el, k, j, i) < p
      then LineMean(m, s, Along(bdir, el), k, j, i) else s(k, j, i)
  }

  /** E3 on and beyond a polar face. */
  function PolarRange(m: Mesh, inner: bool): Box {
    Box(0, LastZone(m, 3), if inner then 0 else m.Je() + 1, if inner then m.Js() else m.M2() - 1, 0, m.M1() - 1)
  }

  function ZeroedPolar(m: Mesh, inner: bool, s: Scalar): Scalar {
    var r := PolarRange(m, inner);
    (k, j, i) => if r.Has(k, j, i) then 0.0 else s(k, j, i)
  }

  /** What AverageBoundaryEMF leaves in edge component `el`. */
  function AveragedComponent(m: Mesh, spherical: bool, bdir: int, inner: bool, el: int, s: Scalar): Scalar
    requires m.Ok()
  {
    if el == bdir then s
    else if bdir == 2 && el == 3 && spherical then ZeroedPolar(m, inner, s)
    else if m.ndim < 3 && ((bdir == 2 && el == 1) || (bdir == 1 && el == 2)) then s
    else AveragedEdge(m, bdir, inner, el, s)
  }

  function AveragedEMF(m: Mesh, spherical: bool, bdir: int, inner: bool, e: Field): Field
    requires m.Ok()
  {
    Field(AveragedComponent(m, spherical, bdir, inner, 1, e.x1),
          AveragedComponent(m, spherical, bdir, inner, 2, e.x2),
          AveragedComponent(m, spherical, bdir, inner, 3, e.x3))
  }

  /** The edges `el` lying on the face. */
  function OnFace(m: Mesh, bdir: int, inner: bool, el: int): Box {
    var f := FaceIndex(m, bdir, inner);
    Box(if bdir == 3 then f else 0, if bdir == 3 then f else if el == 3 then LastZone(m, 3) else m.M3() - 1,
        if bdir == 2 then f else 0, if bdir == 2 then f else if el == 2 then LastZone(m, 2) else m.M2() - 1,
        if bdir == 1 then f else 0, if bdir == 1 then f else if el == 1 then LastZone(m, 1) else m.M1() - 1)
  }

  function ZeroedComponent(m: Mesh, bdir: int, inner: bool, el: int, s: Scalar): Scalar {
    var r := OnFace(m, bdir, inner, el);
    (k, j, i) => if el != bdir && r.Has(k, j, i) then 0.0 else s(k, j, i)
  }

  /** What ZeroBoundaryEMF leaves. */
  function ZeroedEMF(m: Mesh, bdir: int, inner: bool, e: Field): Field {
    Field(ZeroedComponent(m, bdir, inner, 1, e.x1),
          ZeroedComponent(m, bdir, inner, 2, e.x2),
          ZeroedComponent(m, bdir, inner, 3, e.x3))
  }

  function Component(b: Field, d: int): Scalar { if d == 1 then b.x1 else if d == 2 then b.x2 else b.x3 }

  /** Along the averaging direction, edges on the face all carry the same EMF. */
  lemma AveragedIsUniform(m: Mesh, bdir: int, inner: bool, el: int, s: Scalar,
                          k: int, j: int, i: int, k': int, j': int, i': int)
    requires m.Ok() && 1 <= bdir <= 3 && 1 <= el <= 3 && el != bdir
    requires forall d | 1 <= d <= 3 && d != Along(bdir, el) :: Index(d, k, j, i) == Index(d, k', j', i')
    requires Index(bdir, k, j, i) == FaceIndex(m, bdir, inner) && 0 <= Index(el, k, j, i) <= LastZone(m, el)
    ensures AveragedEdge(m, bdir, inner, el, s)(k, j, i) == AveragedEdge(m, bdir, inner, el, s)(k', j', i')
  {
    var d := Along(bdir, el);
    assert Index(1, k, j, i) == i && Index(2, k, j, i) == j && Index(3, k, j, i) == k;
    assert LineMean(m, s, d, k, j, i) == LineMean(m, s, d, k', j', i');
  }

  /** Opposite edges of the face carry the same EMF. */
  ghost predicate Balanced(m: Mesh, a: Field, d: int, k: int, j: int, i: int) {
    if d == 1 then a.x3(k, j + 1, i) == a.x3(k, j, i) && (m.ndim > 2 ==> a.x2(k + 1, j, i) == a.x2(k, j, i))
    else if d == 2 then a.x3(k, j, i + 1) == a.x3(k, j, i) && (m.ndim > 2 ==> a.x1(k + 1, j, i) == a.x1(k, j, i))
    else a.x2(k, j, i + 1) == a.x2(k, j, i) && a.x1(k, j + 1, i) == a.x1(k, j, i)
  }

  lemma NoCirculation(m: Mesh, p: real, q: real)
    requires m.Ok()
    ensures CirculationF1(m, p, p, q, q) == 0.0 && CirculationF2(m, p, p, q, q) == 0.0
            && CirculationF3(m, p, p, q, q) == 0.0
    ensures m.ndim == 2 ==> CirculationF1(m, p, p, 0.0, q) == 0.0 && CirculationF2(m, p, p, 0.0, q) == 0.0
  {
  }

  lemma BalancedDrivesNothing(m: Mesh, a: Field, stale: Field, d: int, k: int, j: int, i: int)
    requires m.Ok() && IsBoundary(m, d) && m.FaceRange(d).Has(k, j, i) && Balanced(m, a, d, k, j, i)
    ensures Component(Sourced(m, a, stale), d)(k, j, i) == 0.0
  {
    var b := Sourced(m, a, stale);
    if d == 1 {
      assert b.x1(k, j, i)
             == CirculationF1(m, a.x3(k, j + 1, i), a.x3(k, j, i), Above(m, a.x2, k, j, i), a.x2(k, j, i));
    } else if d == 2 {
      assert b.x2(k, j, i)
             == CirculationF2(m, a.x3(k, j, i + 1), a.x3(k, j, i), Above(m, a.x1, k, j, i), a.x1(k, j, i));
    } else {
      assert b.x3(k, j, i) == CirculationF3(m, a.x2(k, j, i + 1), a.x2(k, j, i), a.x1(k, j + 1, i), a.x1(k, j, i));
    }
    hide Sourced, CirculationF1, CirculationF2, CirculationF3;
    NoCirculation(m, if d == 3 then a.x2(k, j, i) else a.x3(k, j, i), if d == 1 then a.x2(k, j, i) else a.x1(k, j, i));
  }

  lemma AveragingBalances(m: Mesh, spherical: bool, bdir: int, inner: bool, e: Field, k: int, j: int, i: int)
    requires m.Ok() && IsBoundary(m, bdir)
    requires m.FaceRange(bdir).Has(k, j, i) && Index(bdir, k, j, i) == FaceIndex(m, bdir, inner)
    ensures Balanced(m, AveragedEMF(m, spherical, bdir, inner, e), bdir, k, j, i)
  {
    hide AveragedEdge;
    if bdir == 1 {
      AveragedIsUniform(m, 1, inner, 3, e.x3, k, j, i, k, j + 1, i);
      if m.ndim > 2 { AveragedIsUniform(m, 1, inner, 2, e.x2, k, j, i, k + 1, j, i); }
    } else if bdir == 2 {
      if spherical {
        assert PolarRange(m, inner).Has(k, j, i) && PolarRange(m, inner).Has(k, j, i + 1);
      } else {
        AveragedIsUniform(m, 2, inner, 3, e.x3, k, j, i, k, j, i + 1);
      }
      if m.ndim > 2 { AveragedIsUniform(m, 2, inner, 1, e.x1, k, j, i, k + 1, j, i); }
    } else {
      AveragedIsUniform(m, 3, inner, 2, e.x2, k, j, i, k, j, i + 1);
      AveragedIsUniform(m, 3, inner, 1, e.x1, k, j, i, k, j + 1, i);
    }
  }

  /** After averaging, the EMF drives no change of the normal field on the face, whatever it was. */
  lemma AveragingFreezesFace(m: Mesh, spherical: bool, bdir: int, inner: bool, e: Field, stale: Field,
                             k: int, j: int, i: int)
    requires m.Ok() && IsBoundary(m, bdir)
    requires m.FaceRange(bdir).Has(k, j, i) && Index(bdir, k, j, i) == FaceIndex(m, bdir, inner)
    ensures Component(Sourced(m, AveragedEMF(m, spherical, bdir, inner, e), stale), bdir)(k, j, i) == 0.0
  {
    AveragingBalances(m, spherical, bdir, inner, e, k, j, i);
    BalancedDrivesNothing(m, AveragedEMF(m, spherical, bdir, inner, e), stale, bdir, k, j, i);
  }

  lemma ZeroingBalances(m: Mesh, bdir: int, inner: bool, e: Field, k: int, j: int, i: int)
    requires m.Ok() && IsBoundary(m, bdir)
    requires m.FaceRange(bdir).Has(k, j, i) && Index(bdir, k, j, i) == FaceIndex(m, bdir, inner)
    ensures Balanced(m, ZeroedEMF(m, bdir, inner, e), bdir, k, j, i)
  {
    if bdir == 1 {
      assert OnFace(m, 1, inner, 3).Has(k, j, i) && OnFace(m, 1, inner, 3).Has(k, j + 1, i);
      assert m.ndim > 2 ==> OnFace(m, 1, inner, 2).Has(k, j, i) && OnFace(m, 1, inner, 2).Has(k + 1, j, i);
    } else if bdir == 2 {
      assert OnFace(m, 2, inner, 3).Has(k, j, i) && OnFace(m, 2, inner, 3).Has(k, j, i + 1);
      assert m.ndim > 2 ==> OnFace(m, 2, inner, 1).Has(k, j, i) && OnFace(m, 2, inner, 1).Has(k + 1, j, i);
    } else {
      assert OnFace(m, 3, inner, 2).Has(k, j, i) && OnFace(m, 3, inner, 2).Has(k, j, i + 1);
      assert OnFace(m, 3, inner, 1).Has(k, j, i) && OnFace(m, 3, inner, 1).Has(k, j + 1, i);
    }
  }

  /** Zeroing does the same. */
  lemma ZeroingFreezesFace(m: Mesh, bdir: int, inner: bool, e: Field, stale: Field, k: int, j: int, i: int)
    requires m.Ok() && IsBoundary(m, bdir)
    requires m.FaceRange(bdir).Has(k, j, i) && Index(bdir, k, j, i) == FaceIndex(m, bdir, inner)
    ensures Component(Sourced(m, ZeroedEMF(m, bdir, inner, e), stale), bdir)(k, j, i) == 0.0
  {
    ZeroingBalances(m, bdir, inner, e, k, j, i);
    BalancedDrivesNothing(m, ZeroedEMF(m, bdir, inner, e), stale, bdir, k, j, i);
  }

  // -- What the treatments leave, edge by edge

  /** Zeroing touches the edges of the block that lie on the domain face and run along it, and no other. */
  lemma ZeroedEdges(m: Mesh, bdir: int, inner: bool, e: Field, k: int, j: int, i: int)
    requires m.Ok() && IsBoundary(m, bdir) && m.InBounds(k, j, i)
    ensures var z := ZeroedEMF(m, bdir, inner, e);
            var on := || (bdir == 1 && i == (if inner then m.Is() else m.Ie() + 1))
                      || (bdir == 2 && j == (if inner then m.Js() else m.Je() + 1))
                      || (bdir == 3 && k == (if inner then m.Ks() else m.Ke() + 1));
            && z.x1(k, j, i) == (if on && bdir != 1 && i <= m.Ie() + m.ng then 0.0 else e.x1(k, j, i))
            && z.x2(k, j, i) == (if on && bdir != 2 && j <= m.Je() + m.ng then 0.0 else e.x2(k, j, i))
            && z.x3(k, j, i) == (if on && bdir != 3 && (m.ndim > 2 ==> k <= m.Ke() + m.ng) then 0.0 else e.x3(k, j, i))
  {
    ghost var on1, on2, on3 :=
      OnFace(m, bdir, inner, 1).Has(k, j, i), OnFace(m, bdir, inner, 2).Has(k, j, i),
      OnFace(m, bdir, inner, 3).Has(k, j, i);
  }

  /** The value averaging puts on an edge, times the number of interior edges of its line, is their sum. */
  lemma MeanTimesCount(m: Mesh, s: Scalar, d: int, f: int -> real, k: int, j: int, i: int)
    requires m.Ok() && forall x :: f(x) == Line(s, d, k, j, i)(x)
    ensures LineMean(m, s, d, k, j, i) * Count(m, d) as real == Sum(f, Start(m, d), Count(m, d))
  {
    SumSame(f, Line(s, d, k, j, i), Start(m, d), Count(m, d));
    Requotient(Sum(f, Start(m, d), Count(m, d)), Count(m, d) as real);
  }

  lemma Requotient(x: real, n: real)
    requires n != 0.0
    ensures x / n * n == x
  {
  }

  lemma AveragedAt(m: Mesh, bdir: int, inner: bool, el: int, s: Scalar, k: int, j: int, i: int)
    requires m.Ok()
    ensures AveragedEdge(m, bdir, inner, el, s)(k, j, i)
            == if Index(bdir, k, j, i) == FaceIndex(m, bdir, inner) && 0 <= Index(el, k, j, i) <= LastZone(m, el)
               then LineMean(m, s, Along(bdir, el), k, j, i) else s(k, j, i)
  {
  }

  /** On an X1 face E3 is averaged along X2 and, in 3D, E2 along X3. */
  lemma AveragedOnX1(m: Mesh, spherical: bool, inner: bool, e: Field, k: int, j: int, i: int)
    requires m.Ok() && m.InBounds(k, j, i)
    ensures var a := AveragedEMF(m, spherical, 1, inner, e); var on := i == (if inner then m.Is() else m.Ie() + 1);
            && a.x1(k, j, i) == e.x1(k, j, i)
            && (if on && m.ndim > 2 && j <= m.Je() + m.ng
                then a.x2(k, j, i) * m.n3 as real == Sum((z: int) => e.x2(z, j, i), m.Ks(), m.n3)
                else a.x2(k, j, i) == e.x2(k, j, i))
            && (if on && (m.ndim > 2 ==> k <= m.Ke() + m.ng)
                then a.x3(k, j, i) * m.n2 as real == Sum((y: int) => e.x3(k, y, i), m.Js(), m.n2)
                else a.x3(k, j, i) == e.x3(k, j, i))
  {
    AveragedAt(m, 1, inner, 2, e.x2, k, j, i);
    AveragedAt(m, 1, inner, 3, e.x3, k, j, i);
    hide AveragedEdge, LineMean, Sum;
    MeanTimesCount(m, e.x2, 3, (z: int) => e.x2(z, j, i), k, j, i);
    MeanTimesCount(m, e.x3, 2, (y: int) => e.x3(k, y, i), k, j, i);
  }

  /** On an X2 face E1 is averaged along X3 in 3D, and E3 along X1 unless the face is a pole: there E3 is
      zero on the face and beyond it. */
  lemma AveragedOnX2(m: Mesh, spherical: bool, inner: bool, e: Field, k: int, j: int, i: int)
    requires m.Ok() && m.InBounds(k, j, i)
    ensures var a := AveragedEMF(m, spherical, 2, inner, e); var on := j == (if inner then m.Js() else m.Je() + 1);
            var block := m.ndim > 2 ==> k <= m.Ke() + m.ng;
            && a.x2(k, j, i) == e.x2(k, j, i)
            && (if on && m.ndim > 2 && i <= m.Ie() + m.ng
                then a.x1(k, j, i) * m.n3 as real == Sum((z: int) => e.x1(z, j, i), m.Ks(), m.n3)
                else a.x1(k, j, i) == e.x1(k, j, i))
            && (if spherical && block && (if inner then j <= m.Js() else j >= m.Je() + 1) then a.x3(k, j, i) == 0.0
                else if !spherical && block && on
                then a.x3(k, j, i) * m.n1 as real == Sum((x: int) => e.x3(k, j, x), m.Is(), m.n1)
                else a.x3(k, j, i) == e.x3(k, j, i))
  {
    AveragedAt(m, 2, inner, 1, e.x1, k, j, i);
    AveragedAt(m, 2, inner, 3, e.x3, k, j, i);
    ghost var polar := PolarRange(m, inner).Has(k, j, i);
    hide AveragedEdge, LineMean, Sum;
    MeanTimesCount(m, e.x1, 3, (z: int) => e.x1(z, j, i), k, j, i);
    MeanTimesCount(m, e.x3, 1, (x: int) => e.x3(k, j, x), k, j, i);
  }

  /** On an X3 face E1 is averaged along X2 and E2 along X1. */
  lemma AveragedOnX3(m: Mesh, spherical: bool, inner: bool, e: Field, k: int, j: int, i: int)
    requires m.Ok() && m.ndim == 3 && m.InBounds(k, j, i)
    ensures var a := AveragedEMF(m, spherical, 3, inner, e); var on := k == (if inner then m.Ks() else m.Ke() + 1);
            && (if on && i <= m.Ie() + m.ng
                then a.x1(k, j, i) * m.n2 as real == Sum((y: int) => e.x1(k, y, i), m.Js(), m.n2)
                else a.x1(k, j, i) == e.x1(k, j, i))
            && (if on && j <= m.Je() + m.ng
                then a.x2(k, j, i) * m.n1 as real == Sum((x: int) => e.x2(k, j, x), m.Is(), m.n1)
                else a.x2(k, j, i) == e.x2(k, j, i))
            && a.x3(k, j, i) == e.x3(k, j, i)
  {
    AveragedAt(m, 3, inner, 1, e.x1, k, j, i);
    AveragedAt(m, 3, inner, 2, e.x2, k, j, i);
    hide AveragedEdge, LineMean, Sum;
    MeanTimesCount(m, e.x1, 2, (y: int) => e.x1(k, y, i), k, j, i);
    MeanTimesCount(m, e.x2, 1, (x: int) => e.x2(k, j, x), k, j, i);
  }

  /** Averaging keeps the sum of the EMF over the interior edges of every line it averages. */
  lemma AveragingKeepsSum(m: Mesh, bdir: int, inner: bool, el: int, s: Scalar, k: int, j: int, i: int)
    requires m.Ok() && IsBoundary(m, bdir) && 1 <= el <= 3 && el != bdir
    requires Index(bdir, k, j, i) == FaceIndex(m, bdir, inner) && 0 <= Index(el, k, j, i) <= LastZone(m, el)
    ensures var d := Along(bdir, el);
            Sum(Line(AveragedEdge(m, bdir, inner, el, s), d, k, j, i), Start(m, d), Count(m, d))
            == Sum(Line(s, d, k, j, i), Start(m, d), Count(m, d))
  {
    hide AveragedEdge, LineMean, Sum;
    var d := Along(bdir, el);
    var mean, f := LineMean(m, s, d, k, j, i), Line(AveragedEdge(m, bdir, inner, el, s), d, k, j, i);
    forall x ensures f(x) == mean {
      OnAveragedLine(m, bdir, inner, el, s, k, j, i, x);
    }
    SumConst(f, mean, Start(m, d), Count(m, d));
    MeanTimesCount(m, s, d, Line(s, d, k, j, i), k, j, i);
  }

  lemma OnAveragedLine(m: Mesh, bdir: int, inner: bool, el: int, s: Scalar, k: int, j: int, i: int, x: int)
    requires m.Ok() && IsBoundary(m, bdir) && 1 <= el <= 3 && el != bdir
    requires Index(bdir, k, j, i) == FaceIndex(m, bdir, inner) && 0 <= Index(el, k, j, i) <= LastZone(m, el)
    ensures var d := Along(bdir, el);
            Line(AveragedEdge(m, bdir, inner, el, s), d, k, j, i)(x) == LineMean(m, s, d, k, j, i)
  {
    var d := Along(bdir, el);
    var k', j', i' := if d == 3 then x else k, if d == 2 then x else j, if d == 1 then x else i;
    AveragedAt(m, bdir, inner, el, s, k', j', i');
    assert LineMean(m, s, d, k', j', i') == LineMean(m, s, d, k, j, i);
    hide AveragedEdge, LineMean;
    assert Index(bdir, k', j', i') == Index(bdir, k, j, i) && Index(el, k', j', i') == Index(el, k, j, i);
  }

  // -- The kernels

  lemma MeanFromSum(m: Mesh, s: Scalar, d: int, k: int, j: int, i: int)
    requires m.Ok()
    ensures var sum, mean := Sum(Line(s, d, k, j, i), Start(m, d), Count(m, d)), LineMean(m, s, d, k, j, i);
            mean == sum / Count(m, d) as real && mean * Count(m, d) as real == sum
  {
    MeanTimesCount(m, s, d, Line(s, d, k, j, i), k, j, i);
  }

  /** The inner reduction: the interior mean along direction `d`. */
  method MeanOfLine(m: Mesh, a: array3<real>, d: int, k: int, j: int, i: int, ghost s: Scalar) returns (mean: real)
    requires m.Ok() && Stores(m, a, s) && 1 <= d <= 3
    requires (d == 3 || 0 <= k < m.M3()) && (d == 2 || 0 <= j < m.M2()) && (d == 1 || 0 <= i < m.M1())
    ensures mean == LineMean(m, s, d, k, j, i)
    ensures mean * Count(m, d) as real == Sum(Line(s, d, k, j, i), Start(m, d), Count(m, d))
  {
    hide LineMean;
    var sum := 0.0;
    var lo, len := Start(m, d), Count(m, d);
    for x := lo to lo + len
      invariant sum == Sum(Line(s, d, k, j, i), lo, x - lo)
    {
      var v := if d == 1 then a[k, j, x] else if d == 2 then a[k, x, i] else a[x, j, i];
      assert v == Line(s, d, k, j, i)(x);
      sum := sum + v;
    }
    mean := sum / len as real;
    MeanFromSum(m, s, d, k, j, i);
  }

  /** All nodes on the line along `d` through (k, j, i). */
  function LineBox(m: Mesh, d: int, k: int, j: int, i: int): Box {
    Box(if d == 3 then 0 else k, if d == 3 then m.M3() - 1 else k,
        if d == 2 then 0 else j, if d == 2 then m.M2() - 1 else j,
        if d == 1 then 0 else i, if d == 1 then m.M1() - 1 else i)
  }

  predicate IsLine(m: Mesh, bdir: int, inner: bool, el: int, o: int, kk: int, jj: int, ii: int) {
    var f := FaceIndex(m, bdir, inner);
    && m.Ok() && IsBoundary(m, bdir) && 1 <= el <= 3 && el != bdir && 0 <= o <= LastZone(m, el)
    && ii == (if el == 1 then o else f) && jj == (if el == 2 then o else f) && kk == (if el == 3 then o else f)
  }

  /** Line `o` still has its old values while only the lines before it are done. */
  lemma LineStillOld(m: Mesh, bdir: int, inner: bool, el: int, s: Scalar, o: int, kk: int, jj: int, ii: int)
    requires IsLine(m, bdir, inner, el, o, kk, jj, ii)
    ensures LineMean(m, AveragedUpTo(m, bdir, inner, el, s, o), Along(bdir, el), kk, jj, ii)
         == LineMean(m, s, Along(bdir, el), kk, jj, ii)
  {
    var d, p := Along(bdir, el), AveragedUpTo(m, bdir, inner, el, s, o);
    forall x ensures Line(p, d, kk, jj, ii)(x) == Line(s, d, kk, jj, ii)(x) {
      assert Index(el, if d == 3 then x else kk, if d == 2 then x else jj, if d == 1 then x else ii) == o;
    }
    SumSame(Line(p, d, kk, jj, ii), Line(s, d, kk, jj, ii), Start(m, d), Count(m, d));
  }

  /** Storing the mean along line `o` takes the first `o` lines done to the first `o + 1`. */
  lemma NextLine(m: Mesh, bdir: int, inner: bool, el: int, s: Scalar, o: int, kk: int, jj: int, ii: int,
                 k: int, j: int, i: int)
    requires IsLine(m, bdir, inner, el, o, kk, jj, ii)
    ensures var d, p, q :=
            Along(bdir, el), AveragedUpTo(m, bdir, inner, el, s, o), AveragedUpTo(m, bdir, inner, el, s, o + 1);
            if LineBox(m, d, kk, jj, ii).Has(k, j, i)
            then m.InBounds(k, j, i) && q(k, j, i) == LineMean(m, s, d, kk, jj, ii)
            else m.InBounds(k, j, i) ==> p(k, j, i) == q(k, j, i)
  {
    var d, f := Along(bdir, el), FaceIndex(m, bdir, inner);
    if LineBox(m, d, kk, jj, ii).Has(k, j, i) {
      assert LineMean(m, s, d, k, j, i) == LineMean(m, s, d, kk, jj, ii);
      assert Index(bdir, k, j, i) == f && Index(el, k, j, i) == o;
    } else {
      assert m.InBounds(k, j, i) ==> Index(bdir, k, j, i) != f || Index(el, k, j, i) != o;
    }
  }

  method AverageEdge(m: Mesh, bdir: int, inner: bool, el: int, a: array3<real>, ghost s: Scalar)
    requires m.Ok() && IsBoundary(m, bdir) && 1 <= el <= 3 && el != bdir && Stores(m, a, s)
    modifies a
    ensures Stores(m, a, AveragedEdge(m, bdir, inner, el, s))
  {
    var d, cface := Along(bdir, el), FaceIndex(m, bdir, inner);
    assert Stores(m, a, AveragedUpTo(m, bdir, inner, el, s, 0));
    for o := 0 to LastZone(m, el) + 1
      invariant Stores(m, a, AveragedUpTo(m, bdir, inner, el, s, o))
    {
      var ii, jj, kk := if el == 1 then o else cface, if el == 2 then o else cface, if el == 3 then o else cface;
      AverageOneLine(m, bdir, inner, el, o, kk, jj, ii, a, s);
    }
  }

  /** One team of the outer loop: the mean along the line, then every node of it set to the mean. */
  method AverageOneLine(m: Mesh, bdir: int, inner: bool, el: int, o: int, kk: int, jj: int, ii: int,
                        a: array3<real>, ghost s: Scalar)
    requires IsLine(m, bdir, inner, el, o, kk, jj, ii) && Stores(m, a, AveragedUpTo(m, bdir, inner, el, s, o))
    modifies a
    ensures Stores(m, a, AveragedUpTo(m, bdir, inner, el, s, o + 1))
  {
    hide AveragedUpTo, Stores, LineMean;
    var d := Along(bdir, el);
    LineStillOld(m, bdir, inner, el, s, o, kk, jj, ii);
    var mean := MeanOfLine(m, a, d, kk, jj, ii, AveragedUpTo(m, bdir, inner, el, s, o));
    forall k, j, i { NextLine(m, bdir, inner, el, s, o, kk, jj, ii, k, j, i); }
    ParFor(m, LineBox(m, d, kk, jj, ii), a, (k, j, i) => mean,
           AveragedUpTo(m, bdir, inner, el, s, o), AveragedUpTo(m, bdir, inner, el, s, o + 1));
  }

  method AverageComponent(m: Mesh, spherical: bool, bdir: int, inner: bool, el: int, a: array3<real>, ghost s: Scalar)
    requires m.Ok() && IsBoundary(m, bdir) && 1 <= el <= 3 && Stores(m, a, s)
    modifies a
    ensures Stores(m, a, AveragedComponent(m, spherical, bdir, inner, el, s))
  {
    if el == bdir { return; }
    if bdir == 2 && el == 3 && spherical {
      ParFor(m, PolarRange(m, inner), a, (k, j, i) => 0.0, s, ZeroedPolar(m, inner, s));
    } else if m.ndim < 3 && ((bdir == 2 && el == 1) || (bdir == 1 && el == 2)) {
      return;
    } else {
      AverageEdge(m, bdir, inner, el, a, s);
    }
  }

  method AverageBoundaryEMF(spherical: bool, bdir: int, inner: bool, emf: FieldData)
    requires emf.Valid() && IsBoundary(emf.m, bdir)
    modifies emf.Repr()
    ensures emf.Valid() && emf.contents == AveragedEMF(emf.m, spherical, bdir, inner, old(emf.contents))
  {
    AverageComponent(emf.m, spherical, bdir, inner, 1, emf.x1, emf.contents.x1);
    AverageComponent(emf.m, spherical, bdir, inner, 2, emf.x2, emf.contents.x2);
    AverageComponent(emf.m, spherical, bdir, inner, 3, emf.x3, emf.contents.x3);
    emf.contents := AveragedEMF(emf.m, spherical, bdir, inner, emf.contents);
  }

  method ZeroComponent(m: Mesh, bdir: int, inner: bool, el: int, a: array3<real>, ghost s: Scalar)
    requires m.Ok() && IsBoundary(m, bdir) && 1 <= el <= 3 && Stores(m, a, s)
    modifies a
    ensures Stores(m, a, ZeroedComponent(m, bdir, inner, el, s))
  {
    if el != bdir {
      ParFor(m, OnFace(m, bdir, inner, el), a, (k, j, i) => 0.0, s, ZeroedComponent(m, bdir, inner, el, s));
    }
  }

  method ZeroBoundaryEMF(bdir: int, inner: bool, emf: FieldData)
    requires emf.Valid() && IsBoundary(emf.m, bdir)
    modifies emf.Repr()
    ensures emf.Valid() && emf.contents == ZeroedEMF(emf.m, bdir, inner, old(emf.contents))
  {
    ZeroComponent(emf.m, bdir, inner, 1, emf.x1, emf.contents.x1);
    ZeroComponent(emf.m, bdir, inner, 2, emf.x2, emf.contents.x2);
    ZeroComponent(emf.m, bdir, inner, 3, emf.x3, emf.contents.x3);
    emf.contents := ZeroedEMF(emf.m, bdir, inner, emf.contents);
  }
}
