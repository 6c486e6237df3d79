/** Cell-centred constrained transport by rewriting fluxes (b_flux_ct, after Toth 2000): the edge EMFs
    averaged from the fluxes, the fluxes rewritten from them, and the corner divergence they keep. */
module FluxCT {
  import opened Grid
  import opened FaceCT

  /** Fluxes of the magnetic field: component `c` of `fd` is the flux of B_c in direction d. */
  datatype Fluxes = Fluxes(f1: Field, f2: Field, f3: Field)

  // -- Corner divergence

  /** Values of the eight zones around a corner, by the side (low or high) in X3, X2, X1. */
  datatype Cube = Cube(lll: real, llh: real, lhl: real, lhh: real, hll: real, hlh: real, hhl: real, hhh: real)

  function CubeOf(s: Scalar, k: int, j: int, i: int): Cube {
    Cube(s(k - 1, j - 1, i - 1), s(k - 1, j - 1, i), s(k - 1, j, i - 1), s(k - 1, j, i),
         s(k, j - 1, i - 1), s(k, j - 1, i), s(k, j, i - 1), s(k, j, i))
  }

  function Term1(m: Mesh, c: Cube): real {
    c.hhh - c.hhl + c.hlh - c.hll + if m.ndim > 2 then c.lhh + c.llh - c.lhl - c.lll else 0.0
  }
  function Term2(m: Mesh, c: Cube): real {
    c.hhh - c.hlh + c.hhl - c.hll + if m.ndim > 2 then c.lhh + c.lhl - c.llh - c.lll else 0.0
  }
  function Term3(m: Mesh, c: Cube): real {
    if m.ndim > 2 then c.hhh + c.hlh + c.hhl + c.hll - c.lhh - c.llh - c.lhl - c.lll else 0.0
  }

  function CornerDivOf(m: Mesh, c1: Cube, c2: Cube, c3: Cube): real
    requires m.Ok()
  {
    Quotients(m, Term1(m, c1), Term2(m, c2), Term3(m, c3))
  }

  function Quotients(m: Mesh, t1: real, t2: real, t3: real): real
    requires m.Ok()
  {
    var norm := if m.ndim > 2 then 0.25 else 0.5;
    Scaled(norm, t1, m.dx1) + Scaled(norm, t2, m.dx2) + Scaled(norm, t3, m.dx3)
  }

  function Scaled(norm: real, t: real, d: real): real
    requires d > 0.0
  {
    norm * t / d
  }

  function CornerDiv(m: Mesh, b: Field, k: int, j: int, i: int): real
    requires m.Ok()
  {
    CornerDivOf(m, CubeOf(b.x1, k, j, i), CubeOf(b.x2, k, j, i), CubeOf(b.x3, k, j, i))
  }

  /** Corners with interior zones all around. */
  predicate InteriorCorner(m: Mesh, k: int, j: int, i: int) {
    && m.Is() < i <= m.Ie() && m.Js() < j <= m.Je()
    && (if m.ndim > 2 then m.Ks() < k <= m.Ke() else k == m.Ks())
  }

  ghost predicate CornerFree(m: Mesh, b: Field)
    requires m.Ok()
  {
    forall k, j, i | InteriorCorner(m, k, j, i) :: CornerDiv(m, b, k, j, i) == 0.0
  }

  // -- The curl of an EMF on edges, averaged to zones

  function Pair(p: real, q: real): real { 0.5 * (p + q) }

  /** Difference of `e` across a zone in direction `d`, averaged over its two sides in direction `n`. */
  function Across(e: Scalar, d: int, n: int, k: int, j: int, i: int): real {
    var dk, dj, di := if d == 3 then 1 else 0, if d == 2 then 1 else 0, if d == 1 then 1 else 0;
    var nk, nj, ni := if n == 3 then 1 else 0, if n == 2 then 1 else 0, if n == 1 then 1 else 0;
    Pair(e(k + dk, j + dj, i + di), e(k + dk + nk, j + dj + nj, i + di + ni))
        - Pair(e(k, j, i), e(k + nk, j + nj, i + ni))
  }

  function CellCurl1(m: Mesh, e: Field, k: int, j: int, i: int): real
    requires m.Ok()
  {
    Across(e.x3, 2, 1, k, j, i) / m.dx2 - if m.ndim > 2 then Across(e.x2, 3, 1, k, j, i) / m.dx3 else 0.0
  }
  function CellCurl2(m: Mesh, e: Field, k: int, j: int, i: int): real
    requires m.Ok()
  {
    (if m.ndim > 2 then Across(e.x1, 3, 2, k, j, i) / m.dx3 else 0.0) - Across(e.x3, 1, 2, k, j, i) / m.dx1
  }
  function CellCurl3(m: Mesh, e: Field, k: int, j: int, i: int): real
    requires m.Ok()
  {
    Across(e.x2, 1, 3, k, j, i) / m.dx1 - Across(e.x1, 2, 3, k, j, i) / m.dx2
  }

  function AcrossCube(e: Scalar, d: int, n: int, k: int, j: int, i: int): Cube {
    Cube(Across(e, d, n, k - 1, j - 1, i - 1), Across(e, d, n, k - 1, j - 1, i), Across(e, d, n, k - 1, j, i - 1),
         Across(e, d, n, k - 1, j, i),
         Across(e, d, n, k, j - 1, i - 1), Across(e, d, n, k, j - 1, i), Across(e, d, n, k, j, i - 1),
         Across(e, d, n, k, j, i))
  }

  function Less(p: real, x: real, q: real, y: real): real { p * x - q * y }

  /** p * x - q * y, zone by zone. */
  function Mix(p: real, x: Cube, q: real, y: Cube): Cube {
    Cube(Less(p, x.lll, q, y.lll), Less(p, x.llh, q, y.llh), Less(p, x.lhl, q, y.lhl), Less(p, x.lhh, q, y.lhh),
         Less(p, x.hll, q, y.hll), Less(p, x.hlh, q, y.hlh), Less(p, x.hhl, q, y.hhl), Less(p, x.hhh, q, y.hhh))
  }

  /** 1 / dx in direction `d`, or 0 where the mesh does not extend. */
  function Inv(m: Mesh, d: int): real
    requires m.Ok()
  {
    if d == 1 then 1.0 / m.dx1 else if d == 2 then 1.0 / m.dx2 else if m.ndim > 2 then 1.0 / m.dx3 else 0.0
  }

  // Around a corner each edge component enters two directions with the same total.

  lemma Shared3(m: Mesh, e: Scalar, k: int, j: int, i: int)
    ensures Term1(m, AcrossCube(e, 2, 1, k, j, i)) == Term2(m, AcrossCube(e, 1, 2, k, j, i))
  {
  }

  lemma Shared2(m: Mesh, e: Scalar, k: int, j: int, i: int)
    requires m.ndim > 2
    ensures Term1(m, AcrossCube(e, 3, 1, k, j, i)) == Term3(m, AcrossCube(e, 1, 3, k, j, i))
  {
  }

  lemma Shared1(m: Mesh, e: Scalar, k: int, j: int, i: int)
    requires m.ndim > 2
    ensures Term2(m, AcrossCube(e, 3, 2, k, j, i)) == Term3(m, AcrossCube(e, 2, 3, k, j, i))
  {
  }

  lemma TermsOfMix(m: Mesh, p: real, x: Cube, q: real, y: Cube)
    ensures Term1(m, Mix(p, x, q, y)) == Less(p, Term1(m, x), q, Term1(m, y))
    ensures Term2(m, Mix(p, x, q, y)) == Less(p, Term2(m, x), q, Term2(m, y))
    ensures Term3(m, Mix(p, x, q, y)) == Less(p, Term3(m, x), q, Term3(m, y))
  {
  }

  lemma ThreeTerms(d1: real, d2: real, d3: real, u1: real, u2: real, u3: real, norm: real, x: real, y: real, z: real)
    requires d1 > 0.0 && d2 > 0.0 && d3 > 0.0 && u1 == 1.0 / d1 && u2 == 1.0 / d2 && u3 == 1.0 / d3
    ensures norm * (u2 * z - u3 * y) / d1 + norm * (u3 * x - u1 * z) / d2 + norm * (u1 * y - u2 * x) / d3 == 0.0
  {
  }

  /** `b` holds the averaged curl of `e` in the zones around a corner. */
  ghost predicate CurlAround(m: Mesh, e: Field, b: Field, k: int, j: int, i: int)
    requires m.Ok()
  {
    forall k', j', i' | k - 1 <= k' <= k && j - 1 <= j' <= j && i - 1 <= i' <= i && (m.ndim == 2 ==> k' == k) ::
      && b.x1(k', j', i') == CellCurl1(m, e, k', j', i') && b.x2(k', j', i') == CellCurl2(m, e, k', j', i')
      && (m.ndim > 2 ==> b.x3(k', j', i') == CellCurl3(m, e, k', j', i'))
  }

  /** The averaged curl of any EMF has no corner divergence. */
  lemma CellCurlHasNoCornerDiv(m: Mesh, e: Field, b: Field, k: int, j: int, i: int)
    requires m.Ok() && CurlAround(m, e, b, k, j, i)
    ensures CornerDiv(m, b, k, j, i) == 0.0
  {
    hide AcrossCube, Term1, Term2, Term3, CurlAround;
    var u1, u2, u3 := 1.0 / m.dx1, 1.0 / m.dx2, 1.0 / m.dx3;
    CurlTerms(m, e, b, k, j, i);
    var z := Term1(m, AcrossCube(e.x3, 2, 1, k, j, i));
    Shared3(m, e.x3, k, j, i);
    if m.ndim > 2 {
      Shared2(m, e.x2, k, j, i);
      Shared1(m, e.x1, k, j, i);
      ThreeTerms(m.dx1, m.dx2, m.dx3, u1, u2, u3, 0.25, Term2(m, AcrossCube(e.x1, 3, 2, k, j, i)),
                 Term1(m, AcrossCube(e.x2, 3, 1, k, j, i)), z);
    } else {
      FlatTerm3(m, CubeOf(b.x3, k, j, i));
      ThreeTerms(m.dx1, m.dx2, m.dx3, u1, u2, u3, 0.5, 0.0, 0.0, z);
    }
  }

  lemma FlatTerm3(m: Mesh, c: Cube)
    requires m.Ok() && m.ndim == 2
    ensures 0.5 * Term3(m, c) / m.dx3 == 0.0
  {
  }

  lemma CurlTerms(m: Mesh, e: Field, b: Field, k: int, j: int, i: int)
    requires m.Ok() && CurlAround(m, e, b, k, j, i)
    ensures Term1(m, CubeOf(b.x1, k, j, i))
         == Less(Inv(m, 2), Term1(m, AcrossCube(e.x3, 2, 1, k, j, i)), Inv(m, 3),
                 Term1(m, AcrossCube(e.x2, 3, 1, k, j, i)))
    ensures Term2(m, CubeOf(b.x2, k, j, i))
         == Less(Inv(m, 3), Term2(m, AcrossCube(e.x1, 3, 2, k, j, i)), Inv(m, 1),
                 Term2(m, AcrossCube(e.x3, 1, 2, k, j, i)))
    ensures m.ndim == 2 || Term3(m, CubeOf(b.x3, k, j, i))
         == Less(Inv(m, 1), Term3(m, AcrossCube(e.x2, 1, 3, k, j, i)), Inv(m, 2),
                 Term3(m, AcrossCube(e.x1, 2, 3, k, j, i)))
  {
    hide Inv, Less, AcrossCube, Mix, CubeOf, CurlAround;
    CurlCubes(m, e, b, k, j, i);
    TermsOfMix(m, Inv(m, 2), AcrossCube(e.x3, 2, 1, k, j, i), Inv(m, 3), AcrossCube(e.x2, 3, 1, k, j, i));
    TermsOfMix(m, Inv(m, 3), AcrossCube(e.x1, 3, 2, k, j, i), Inv(m, 1), AcrossCube(e.x3, 1, 2, k, j, i));
    TermsOfMix(m, Inv(m, 1), AcrossCube(e.x2, 1, 3, k, j, i), Inv(m, 2), AcrossCube(e.x1, 2, 3, k, j, i));
  }

  /** The two cubes agree on the zones that count. */
  predicate Agree(m: Mesh, c: Cube, c': Cube) {
    c.hll == c'.hll && c.hlh == c'.hlh && c.hhl == c'.hhl && c.hhh == c'.hhh && (m.ndim > 2 ==> c == c')
  }

  lemma CurlCubes(m: Mesh, e: Field, b: Field, k: int, j: int, i: int)
    requires m.Ok() && CurlAround(m, e, b, k, j, i)
    ensures Agree(m, CubeOf(b.x1, k, j, i),
                  Mix(Inv(m, 2), AcrossCube(e.x3, 2, 1, k, j, i), Inv(m, 3), AcrossCube(e.x2, 3, 1, k, j, i)))
    ensures Agree(m, CubeOf(b.x2, k, j, i),
                  Mix(Inv(m, 3), AcrossCube(e.x1, 3, 2, k, j, i), Inv(m, 1), AcrossCube(e.x3, 1, 2, k, j, i)))
    ensures m.ndim > 2
            ==> Agree(m, CubeOf(b.x3, k, j, i),
                      Mix(Inv(m, 1), AcrossCube(e.x2, 1, 3, k, j, i), Inv(m, 2), AcrossCube(e.x1, 2, 3, k, j, i)))
  {
    hide Across, CellCurl1, CellCurl2, CellCurl3, Inv, Less;
    forall k', j', i'
      ensures CellCurl1(m, e, k', j', i')
              == Less(Inv(m, 2), Across(e.x3, 2, 1, k', j', i'), Inv(m, 3), Across(e.x2, 3, 1, k', j', i'))
      ensures CellCurl2(m, e, k', j', i')
              == Less(Inv(m, 3), Across(e.x1, 3, 2, k', j', i'), Inv(m, 1), Across(e.x3, 1, 2, k', j', i'))
      ensures m.ndim > 2
              ==> CellCurl3(m, e, k', j', i')
                  == Less(Inv(m, 1), Across(e.x2, 1, 3, k', j', i'), Inv(m, 2), Across(e.x1, 2, 3, k', j', i'))
    {
      CurlByReciprocals(m, e, k', j', i');
    }
  }

  lemma CurlByReciprocals(m: Mesh, e: Field, k: int, j: int, i: int)
    requires m.Ok()
    ensures CellCurl1(m, e, k, j, i)
            == Less(Inv(m, 2), Across(e.x3, 2, 1, k, j, i), Inv(m, 3), Across(e.x2, 3, 1, k, j, i))
    ensures CellCurl2(m, e, k, j, i)
            == Less(Inv(m, 3), Across(e.x1, 3, 2, k, j, i), Inv(m, 1), Across(e.x3, 1, 2, k, j, i))
    ensures CellCurl3(m, e, k, j, i)
            == Less(Inv(m, 1), Across(e.x2, 1, 3, k, j, i), Inv(m, 2), Across(e.x1, 2, 3, k, j, i))
  {
  }

  // -- Starting from a potential

  function Mean4(p: real, q: real, r: real, s: real): real { (p + q + r + s) / 4.0 }

  /** One component of the averaged curl: four-point means of two potentials, differenced. */
  function CurlOfMeans(pf: real, pb: real, d: real, qf: real, qb: real, d': real): real
    requires d > 0.0 && d' > 0.0
  {
    (pf - pb) / d - (qf - qb) / d'
  }

  // The zone field after averaged_curl_3D or averaged_curl_2D.

  function Seeded1(m: Mesh, a: Field, k: int, j: int, i: int): real
    requires m.Ok()
  {
    if m.ndim > 2 then
      CurlOfMeans(Mean4(a.x3(k, j + 1, i), a.x3(k, j + 1, i + 1), a.x3(k + 1, j + 1, i), a.x3(k + 1, j + 1, i + 1)),
                  Mean4(a.x3(k, j, i), a.x3(k, j, i + 1), a.x3(k + 1, j, i), a.x3(k + 1, j, i + 1)), m.dx2,
                  Mean4(a.x2(k + 1, j, i), a.x2(k + 1, j, i + 1), a.x2(k + 1, j + 1, i), a.x2(k + 1, j + 1, i + 1)),
                  Mean4(a.x2(k, j, i), a.x2(k, j, i + 1), a.x2(k, j + 1, i), a.x2(k, j + 1, i + 1)), m.dx3)
    else (Mid(a.x3(k, j + 1, i), a.x3(k, j + 1, i + 1)) - Mid(a.x3(k, j, i), a.x3(k, j, i + 1))) / m.dx2
  }
  function Seeded2(m: Mesh, a: Field, k: int, j: int, i: int): real
    requires m.Ok()
  {
    if m.ndim > 2 then
      CurlOfMeans(Mean4(a.x1(k + 1, j, i), a.x1(k + 1, j, i + 1), a.x1(k + 1, j + 1, i), a.x1(k + 1, j + 1, i + 1)),
                  Mean4(a.x1(k, j, i), a.x1(k, j, i + 1), a.x1(k, j + 1, i), a.x1(k, j + 1, i + 1)), m.dx3,
                  Mean4(a.x3(k, j, i + 1), a.x3(k, j + 1, i + 1), a.x3(k + 1, j, i + 1), a.x3(k + 1, j + 1, i + 1)),
                  Mean4(a.x3(k, j, i), a.x3(k, j + 1, i), a.x3(k + 1, j, i), a.x3(k + 1, j + 1, i)), m.dx1)
    else -(Mid(a.x3(k, j, i + 1), a.x3(k, j + 1, i + 1)) - Mid(a.x3(k, j, i), a.x3(k, j + 1, i))) / m.dx1
  }
  function Seeded3(m: Mesh, a: Field, k: int, j: int, i: int): real
    requires m.Ok()
  {
    if m.ndim > 2 then
      CurlOfMeans(Mean4(a.x2(k, j, i + 1), a.x2(k, j + 1, i + 1), a.x2(k + 1, j, i + 1), a.x2(k + 1, j + 1, i + 1)),
                  Mean4(a.x2(k, j, i), a.x2(k, j + 1, i), a.x2(k + 1, j, i), a.x2(k + 1, j + 1, i)), m.dx1,
                  Mean4(a.x1(k, j + 1, i), a.x1(k, j + 1, i + 1), a.x1(k + 1, j + 1, i), a.x1(k + 1, j + 1, i + 1)),
                  Mean4(a.x1(k, j, i), a.x1(k, j, i + 1), a.x1(k + 1, j, i), a.x1(k + 1, j, i + 1)), m.dx2)
    else 0.0
  }

  /** Over every zone of the block. */
  function Seeded(m: Mesh, a: Field, stale: Field): Field
    requires m.Ok()
  {
    var r := m.AllZones();
    Field((k, j, i) => if r.Has(k, j, i) then Seeded1(m, a, k, j, i) else stale.x1(k, j, i),
          (k, j, i) => if r.Has(k, j, i) then Seeded2(m, a, k, j, i) else stale.x2(k, j, i),
          (k, j, i) => if r.Has(k, j, i) then Seeded3(m, a, k, j, i) else stale.x3(k, j, i))
  }

  /** The potential averaged to edges, which plays the part of an EMF. */
  function EdgePotential(m: Mesh, a: Field): Field {
    if m.ndim > 2 then
      Field((k, j, i) => 0.5 * (a.x1(k, j, i) + a.x1(k, j, i + 1)),
            (k, j, i) => 0.5 * (a.x2(k, j, i) + a.x2(k, j + 1, i)),
            (k, j, i) => 0.5 * (a.x3(k, j, i) + a.x3(k + 1, j, i)))
    else a
  }

  lemma SeedIsCurl(m: Mesh, a: Field, k: int, j: int, i: int)
    requires m.Ok()
    ensures Seeded1(m, a, k, j, i) == CellCurl1(m, EdgePotential(m, a), k, j, i)
    ensures Seeded2(m, a, k, j, i) == CellCurl2(m, EdgePotential(m, a), k, j, i)
    ensures m.ndim > 2 ==> Seeded3(m, a, k, j, i) == CellCurl3(m, EdgePotential(m, a), k, j, i)
  {
    hide Seeded1, Seeded2, Seeded3, CellCurl1, CellCurl2, CellCurl3, EdgePotential;
    SeedIsCurl1(m, a, k, j, i);
    SeedIsCurl2(m, a, k, j, i);
    if m.ndim > 2 { SeedIsCurl3(m, a, k, j, i); }
  }

  lemma SeedIsCurl1(m: Mesh, a: Field, k: int, j: int, i: int)
    requires m.Ok()
    ensures Seeded1(m, a, k, j, i) == CellCurl1(m, EdgePotential(m, a), k, j, i)
  {
    var e := EdgePotential(m, a);
    if m.ndim > 2 {
      assert Mean4(a.x3(k, j + 1, i), a.x3(k, j + 1, i + 1), a.x3(k + 1, j + 1, i), a.x3(k + 1, j + 1, i + 1))
             - Mean4(a.x3(k, j, i), a.x3(k, j, i + 1), a.x3(k + 1, j, i), a.x3(k + 1, j, i + 1))
             == Across(e.x3, 2, 1, k, j, i);
      assert Mean4(a.x2(k + 1, j, i), a.x2(k + 1, j, i + 1), a.x2(k + 1, j + 1, i), a.x2(k + 1, j + 1, i + 1))
             - Mean4(a.x2(k, j, i), a.x2(k, j, i + 1), a.x2(k, j + 1, i), a.x2(k, j + 1, i + 1))
             == Across(e.x2, 3, 1, k, j, i);
      hide Across, EdgePotential, Mean4;
    }
  }

  lemma SeedIsCurl2(m: Mesh, a: Field, k: int, j: int, i: int)
    requires m.Ok()
    ensures Seeded2(m, a, k, j, i) == CellCurl2(m, EdgePotential(m, a), k, j, i)
  {
    var e := EdgePotential(m, a);
    if m.ndim > 2 {
      assert Mean4(a.x1(k + 1, j, i), a.x1(k + 1, j, i + 1), a.x1(k + 1, j + 1, i), a.x1(k + 1, j + 1, i + 1))
             - Mean4(a.x1(k, j, i), a.x1(k, j, i + 1), a.x1(k, j + 1, i), a.x1(k, j + 1, i + 1))
             == Across(e.x1, 3, 2, k, j, i);
      assert Mean4(a.x3(k, j, i + 1), a.x3(k, j + 1, i + 1), a.x3(k + 1, j, i + 1), a.x3(k + 1, j + 1, i + 1))
             - Mean4(a.x3(k, j, i), a.x3(k, j + 1, i), a.x3(k + 1, j, i), a.x3(k + 1, j + 1, i))
             == Across(e.x3, 1, 2, k, j, i);
      hide Across, EdgePotential, Mean4;
    } else {
      var p := Mid(a.x3(k, j, i + 1), a.x3(k, j + 1, i + 1)) - Mid(a.x3(k, j, i), a.x3(k, j + 1, i));
      assert Across(a.x3, 1, 2, k, j, i) == p;
      assert -p / m.dx1 == -(p / m.dx1);
    }
  }

  lemma MeansOfX2(m: Mesh, a: Field, k: int, j: int, i: int)
    requires m.ndim > 2
    ensures Mean4(a.x2(k, j, i + 1), a.x2(k, j + 1, i + 1), a.x2(k + 1, j, i + 1), a.x2(k + 1, j + 1, i + 1))
            - Mean4(a.x2(k, j, i), a.x2(k, j + 1, i), a.x2(k + 1, j, i), a.x2(k + 1, j + 1, i))
            == Across(EdgePotential(m, a).x2, 1, 3, k, j, i)
  {
    var e := EdgePotential(m, a).x2;
    assert e(k, j, i) == 0.5 * (a.x2(k, j, i) + a.x2(k, j + 1, i));
    assert e(k + 1, j, i) == 0.5 * (a.x2(k + 1, j, i) + a.x2(k + 1, j + 1, i));
    assert e(k, j, i + 1) == 0.5 * (a.x2(k, j, i + 1) + a.x2(k, j + 1, i + 1));
    assert e(k + 1, j, i + 1) == 0.5 * (a.x2(k + 1, j, i + 1) + a.x2(k + 1, j + 1, i + 1));
    hide EdgePotential;
  }

  lemma MeansOfX1(m: Mesh, a: Field, k: int, j: int, i: int)
    requires m.ndim > 2
    ensures Mean4(a.x1(k, j + 1, i), a.x1(k, j + 1, i + 1), a.x1(k + 1, j + 1, i), a.x1(k + 1, j + 1, i + 1))
            - Mean4(a.x1(k, j, i), a.x1(k, j, i + 1), a.x1(k + 1, j, i), a.x1(k + 1, j, i + 1))
            == Across(EdgePotential(m, a).x1, 2, 3, k, j, i)
  {
    var e := EdgePotential(m, a).x1;
    assert e(k, j, i) == 0.5 * (a.x1(k, j, i) + a.x1(k, j, i + 1));
    assert e(k + 1, j, i) == 0.5 * (a.x1(k + 1, j, i) + a.x1(k + 1, j, i + 1));
    assert e(k, j + 1, i) == 0.5 * (a.x1(k, j + 1, i) + a.x1(k, j + 1, i + 1));
    assert e(k + 1, j + 1, i) == 0.5 * (a.x1(k + 1, j + 1, i) + a.x1(k + 1, j + 1, i + 1));
    hide EdgePotential;
  }

  lemma SeedIsCurl3(m: Mesh, a: Field, k: int, j: int, i: int)
    requires m.Ok() && m.ndim > 2
    ensures Seeded3(m, a, k, j, i) == CellCurl3(m, EdgePotential(m, a), k, j, i)
  {
    hide Across, EdgePotential, Mean4;
    MeansOfX2(m, a, k, j, i);
    MeansOfX1(m, a, k, j, i);
  }

  lemma SeededAt(m: Mesh, a: Field, stale: Field, k: int, j: int, i: int)
    requires m.Ok() && m.AllZones().Has(k, j, i)
    ensures var b := Seeded(m, a, stale);
            && b.x1(k, j, i) == CellCurl1(m, EdgePotential(m, a), k, j, i)
            && b.x2(k, j, i) == CellCurl2(m, EdgePotential(m, a), k, j, i)
            && (m.ndim > 2 ==> b.x3(k, j, i) == CellCurl3(m, EdgePotential(m, a), k, j, i))
  {
    hide Seeded1, Seeded2, Seeded3, CellCurl1, CellCurl2, CellCurl3, EdgePotential;
    SeedIsCurl(m, a, k, j, i);
  }

  /** Corners with zones of the block, ghosts included, all around. */
  predicate InnerCorner(m: Mesh, k: int, j: int, i: int) {
    m.AllZones().Has(k, j, i) && m.AllZones().Has(if m.ndim > 2 then k - 1 else k, j - 1, i - 1)
  }

  /** A seeded field has no corner divergence anywhere on the block. */
  lemma SeedIsCornerFree(m: Mesh, a: Field, stale: Field)
    requires m.Ok()
    ensures CornerFree(m, Seeded(m, a, stale))
    ensures forall k, j, i | InnerCorner(m, k, j, i) :: CornerDiv(m, Seeded(m, a, stale), k, j, i) == 0.0
  {
    hide CornerDiv, Seeded;
    forall k, j, i | InnerCorner(m, k, j, i) ensures CornerDiv(m, Seeded(m, a, stale), k, j, i) == 0.0 {
      SeedAtCorner(m, a, stale, k, j, i);
    }
    forall k, j, i | InteriorCorner(m, k, j, i) ensures InnerCorner(m, k, j, i) {
      m.InteriorIsInside(k, j, i);
      m.InteriorIsInside(if m.ndim > 2 then k - 1 else k, j - 1, i - 1);
    }
  }

  lemma SeedAtCorner(m: Mesh, a: Field, stale: Field, k: int, j: int, i: int)
    requires m.Ok() && InnerCorner(m, k, j, i)
    ensures CornerDiv(m, Seeded(m, a, stale), k, j, i) == 0.0
  {
    hide CornerDiv, Seeded, CellCurl1, CellCurl2, CellCurl3, EdgePotential;
    var b := Seeded(m, a, stale);
    forall k', j', i' | k - 1 <= k' <= k && j - 1 <= j' <= j && i - 1 <= i' <= i && (m.ndim == 2 ==> k' == k)
      ensures b.x1(k', j', i') == CellCurl1(m, EdgePotential(m, a), k', j', i')
      ensures b.x2(k', j', i') == CellCurl2(m, EdgePotential(m, a), k', j', i')
      ensures m.ndim > 2 ==> b.x3(k', j', i') == CellCurl3(m, EdgePotential(m, a), k', j', i')
    {
      SeededAt(m, a, stale, k', j', i');
    }
    CellCurlHasNoCornerDiv(m, EdgePotential(m, a), b, k, j, i);
  }

  // -- The flux pass

  /** EMF on an edge from the four fluxes around it. */
  function EdgeMean(p: real, p': real, q: real, q': real): real { 0.25 * (p + p' - q - q') }

  function Emf1(q: Fluxes, k: int, j: int, i: int): real {
    EdgeMean(q.f2.x3(k, j, i), q.f2.x3(k - 1, j, i), q.f3.x2(k, j, i), q.f3.x2(k, j - 1, i))
  }
  function Emf2(q: Fluxes, k: int, j: int, i: int): real {
    EdgeMean(q.f3.x1(k, j, i), q.f3.x1(k, j, i - 1), q.f1.x3(k, j, i), q.f1.x3(k - 1, j, i))
  }
  function Emf3(q: Fluxes, k: int, j: int, i: int): real {
    EdgeMean(q.f1.x2(k, j, i), q.f1.x2(k, j - 1, i), q.f2.x1(k, j, i), q.f2.x1(k, j, i - 1))
  }

  /** Edges of interior zones. */
  function EdgeBox(m: Mesh): Box {
    Box(m.Ks(), m.Ke() + (if m.ndim > 2 then 1 else 0), m.Js(), m.Je() + 1, m.Is(), m.Ie() + 1)
  }

  /** The EMF container after the first pass (X1 and X2 components in 3D only). */
  function EmfOf(m: Mesh, q: Fluxes, stale: Field): Field {
    var r := EdgeBox(m);
    Field((k, j, i) => if m.ndim > 2 && r.Has(k, j, i) then Emf1(q, k, j, i) else stale.x1(k, j, i),
          (k, j, i) => if m.ndim > 2 && r.Has(k, j, i) then Emf2(q, k, j, i) else stale.x2(k, j, i),
          (k, j, i) => if r.Has(k, j, i) then Emf3(q, k, j, i) else stale.x3(k, j, i))
  }

  /** Fluxes rewritten from the edges of a face. */
  function New12(e: Field, k: int, j: int, i: int): real { Pair(e.x3(k, j, i), e.x3(k, j + 1, i)) }
  function New13(e: Field, k: int, j: int, i: int): real { -Pair(e.x2(k, j, i), e.x2(k + 1, j, i)) }
  function New21(e: Field, k: int, j: int, i: int): real { -Pair(e.x3(k, j, i), e.x3(k, j, i + 1)) }
  function New23(e: Field, k: int, j: int, i: int): real { Pair(e.x1(k, j, i), e.x1(k + 1, j, i)) }
  function New31(e: Field, k: int, j: int, i: int): real { Pair(e.x2(k, j, i), e.x2(k, j, i + 1)) }
  function New32(e: Field, k: int, j: int, i: int): real { -Pair(e.x1(k, j, i), e.x1(k, j + 1, i)) }

  /** The fluxes after the second pass; those of B3 and along X3 are rewritten in 3D only. */
  function Rewritten(m: Mesh, q: Fluxes, e: Field): Fluxes {
    var r1, r2, r3 := m.FaceRange(1), m.FaceRange(2), m.FaceRange(3);
    Fluxes(
      Field((k, j, i) => if r1.Has(k, j, i) then 0.0 else q.f1.x1(k, j, i),
            (k, j, i) => if r1.Has(k, j, i) then New12(e, k, j, i) else q.f1.x2(k, j, i),
            (k, j, i) => if m.ndim > 2 && r1.Has(k, j, i) then New13(e, k, j, i) else q.f1.x3(k, j, i)),
      Field((k, j, i) => if r2.Has(k, j, i) then New21(e, k, j, i) else q.f2.x1(k, j, i),
            (k, j, i) => if r2.Has(k, j, i) then 0.0 else q.f2.x2(k, j, i),
            (k, j, i) => if m.ndim > 2 && r2.Has(k, j, i) then New23(e, k, j, i) else q.f2.x3(k, j, i)),
      Field((k, j, i) => if m.ndim > 2 && r3.Has(k, j, i) then New31(e, k, j, i) else q.f3.x1(k, j, i),
            (k, j, i) => if m.ndim > 2 && r3.Has(k, j, i) then New32(e, k, j, i) else q.f3.x2(k, j, i),
            (k, j, i) => if m.ndim > 2 && r3.Has(k, j, i) then 0.0 else q.f3.x3(k, j, i)))
  }

  /** Minus the divergence of a flux, on a uniform grid. */
  function FluxDiv(m: Mesh, p': real, p: real, q': real, q: real, r': real, r: real): real
    requires m.Ok()
  {
    -((p' - p) / m.dx1 + (q' - q) / m.dx2 + if m.ndim > 2 then (r' - r) / m.dx3 else 0.0)
  }

  function DivAt(m: Mesh, s1: Scalar, s2: Scalar, s3: Scalar, k: int, j: int, i: int): real
    requires m.Ok()
  {
    FluxDiv(m, s1(k, j, i + 1), s1(k, j, i), s2(k, j + 1, i), s2(k, j, i), Above(m, s3, k, j, i), s3(k, j, i))
  }

  /** The source container after FluxDivergence. */
  function Diverged(m: Mesh, q: Fluxes, stale: Field): Field
    requires m.Ok()
  {
    Field((k, j, i) => if m.Interior(k, j, i) then DivAt(m, q.f1.x1, q.f2.x1, q.f3.x1, k, j, i) else stale.x1(k, j, i),
          (k, j, i) => if m.Interior(k, j, i) then DivAt(m, q.f1.x2, q.f2.x2, q.f3.x2, k, j, i) else stale.x2(k, j, i),
          (k, j, i) => if m.Interior(k, j, i) then DivAt(m, q.f1.x3, q.f2.x3, q.f3.x3, k, j, i) else stale.x3(k, j, i))
  }

  lemma DivOfPair(m: Mesh, x: real, x': real, y: real, y': real)
    requires m.Ok()
    ensures m.ndim > 2 ==> FluxDiv(m, 0.0, 0.0, -x', -x, y', y) == (x' - x) / m.dx2 - (y' - y) / m.dx3
    ensures m.ndim > 2 ==> FluxDiv(m, x', x, 0.0, 0.0, -y', -y) == (y' - y) / m.dx3 - (x' - x) / m.dx1
    ensures m.ndim > 2 ==> FluxDiv(m, -x', -x, y', y, 0.0, 0.0) == (x' - x) / m.dx1 - (y' - y) / m.dx2
    ensures m.ndim == 2 ==> FluxDiv(m, 0.0, 0.0, -x', -x, y', y) == (x' - x) / m.dx2
    ensures m.ndim == 2 ==> FluxDiv(m, x', x, 0.0, 0.0, y', y) == -((x' - x) / m.dx1)
  {
  }

  // In an interior zone the divergence of the rewritten fluxes is the averaged curl of the EMF.

  lemma RewrittenAlong(m: Mesh, q: Fluxes, e: Field, k: int, j: int, i: int)
    ensures var w := Rewritten(m, q, e);
            && (m.FaceRange(1).Has(k, j, i) ==>
                  && w.f1.x1(k, j, i) == 0.0 && w.f1.x2(k, j, i) == New12(e, k, j, i)
                  && (m.ndim > 2 ==> w.f1.x3(k, j, i) == New13(e, k, j, i)))
            && (m.FaceRange(2).Has(k, j, i) ==>
                  && w.f2.x1(k, j, i) == New21(e, k, j, i) && w.f2.x2(k, j, i) == 0.0
                  && (m.ndim > 2 ==> w.f2.x3(k, j, i) == New23(e, k, j, i)))
            && (m.ndim > 2 && m.FaceRange(3).Has(k, j, i) ==>
                  w.f3.x1(k, j, i) == New31(e, k, j, i) && w.f3.x2(k, j, i) == New32(e, k, j, i)
                      && w.f3.x3(k, j, i) == 0.0)
  {
  }

  lemma RewrittenAround(m: Mesh, q: Fluxes, e: Field, k: int, j: int, i: int)
    requires m.Ok() && m.Interior(k, j, i)
    ensures var w, x, y, z := Rewritten(m, q, e), e.x1, e.x2, e.x3;
            && w.f1.x1(k, j, i) == 0.0 == w.f1.x1(k, j, i + 1) && w.f2.x2(k, j, i) == 0.0 == w.f2.x2(k, j + 1, i)
            && w.f1.x2(k, j, i) == Pair(z(k, j, i), z(k, j + 1, i))
            && w.f1.x2(k, j, i + 1) == Pair(z(k, j, i + 1), z(k, j + 1, i + 1))
            && w.f2.x1(k, j, i) == -Pair(z(k, j, i), z(k, j, i + 1))
            && w.f2.x1(k, j + 1, i) == -Pair(z(k, j + 1, i), z(k, j + 1, i + 1))
            && (m.ndim > 2 ==>
                  && w.f3.x3(k, j, i) == 0.0 == w.f3.x3(k + 1, j, i)
                  && w.f1.x3(k, j, i) == -Pair(y(k, j, i), y(k + 1, j, i))
                  && w.f1.x3(k, j, i + 1) == -Pair(y(k, j, i + 1), y(k + 1, j, i + 1))
                  && w.f2.x3(k, j, i) == Pair(x(k, j, i), x(k + 1, j, i))
                  && w.f2.x3(k, j + 1, i) == Pair(x(k, j + 1, i), x(k + 1, j + 1, i))
                  && w.f3.x1(k, j, i) == Pair(y(k, j, i), y(k, j, i + 1))
                  && w.f3.x1(k + 1, j, i) == Pair(y(k + 1, j, i), y(k + 1, j, i + 1))
                  && w.f3.x2(k, j, i) == -Pair(x(k, j, i), x(k, j + 1, i))
                  && w.f3.x2(k + 1, j, i) == -Pair(x(k + 1, j, i), x(k + 1, j + 1, i)))
  {
    hide Pair, Rewritten;
    m.FacesOfZone(k, j, i);
    RewrittenAlong(m, q, e, k, j, i);
    RewrittenAlong(m, q, e, k, j, i + 1);
    RewrittenAlong(m, q, e, k, j + 1, i);
    RewrittenAlong(m, q, e, k + 1, j, i);
  }

  lemma DivergedIsCurl(m: Mesh, q: Fluxes, e: Field, k: int, j: int, i: int)
    requires m.Ok() && m.Interior(k, j, i)
    ensures var w := Rewritten(m, q, e);
            && DivAt(m, w.f1.x1, w.f2.x1, w.f3.x1, k, j, i) == CellCurl1(m, e, k, j, i)
            && DivAt(m, w.f1.x2, w.f2.x2, w.f3.x2, k, j, i) == CellCurl2(m, e, k, j, i)
            && (m.ndim > 2 ==> DivAt(m, w.f1.x3, w.f2.x3, w.f3.x3, k, j, i) == CellCurl3(m, e, k, j, i))
  {
    hide FluxDiv, Pair, Rewritten;
    var w := Rewritten(m, q, e);
    RewrittenAround(m, q, e, k, j, i);
    DivOfPair(m, -w.f2.x1(k, j, i), -w.f2.x1(k, j + 1, i), w.f3.x1(k, j, i), Above(m, w.f3.x1, k, j, i));
    if m.ndim > 2 {
      DivOfPair(m, w.f1.x2(k, j, i), w.f1.x2(k, j, i + 1), -w.f3.x2(k, j, i), -w.f3.x2(k + 1, j, i));
      DivOfPair(m, -w.f1.x3(k, j, i), -w.f1.x3(k, j, i + 1), w.f2.x3(k, j, i), w.f2.x3(k, j + 1, i));
    } else {
      DivOfPair(m, w.f1.x2(k, j, i), w.f1.x2(k, j, i + 1), w.f3.x2(k, j, i), 0.0);
    }
  }

  lemma DivergedAt(m: Mesh, q: Fluxes, stale: Field, k: int, j: int, i: int)
    requires m.Ok() && m.Interior(k, j, i)
    ensures var b := Diverged(m, q, stale);
            && b.x1(k, j, i) == DivAt(m, q.f1.x1, q.f2.x1, q.f3.x1, k, j, i)
            && b.x2(k, j, i) == DivAt(m, q.f1.x2, q.f2.x2, q.f3.x2, k, j, i)
            && b.x3(k, j, i) == DivAt(m, q.f1.x3, q.f2.x3, q.f3.x3, k, j, i)
  {
  }

  /** For arbitrary fluxes and EMF leftovers, what FluxCT and FluxDivergence produce has no corner
      divergence. */
  lemma RewrittenIsCornerFree(m: Mesh, q: Fluxes, e: Field, stale: Field)
    requires m.Ok()
    ensures CornerFree(m, Diverged(m, Rewritten(m, q, e), stale))
  {
    hide CornerDiv, Diverged, DivAt, Rewritten, CellCurl1, CellCurl2, CellCurl3;
    var b := Diverged(m, Rewritten(m, q, e), stale);
    forall k, j, i | InteriorCorner(m, k, j, i) ensures CornerDiv(m, b, k, j, i) == 0.0 {
      forall k', j', i' | k - 1 <= k' <= k && j - 1 <= j' <= j && i - 1 <= i' <= i && (m.ndim == 2 ==> k' == k)
        ensures b.x1(k', j', i') == CellCurl1(m, e, k', j', i') && b.x2(k', j', i') == CellCurl2(m, e, k', j', i')
        ensures m.ndim > 2 ==> b.x3(k', j', i') == CellCurl3(m, e, k', j', i')
      {
        DivergedAt(m, Rewritten(m, q, e), stale, k', j', i');
        DivergedIsCurl(m, q, e, k', j', i');
      }
      CellCurlHasNoCornerDiv(m, e, b, k, j, i);
    }
  }

  // -- Runs

  /** One stage: fluxes, leftovers in the EMF and source containers, and the three containers (by
      number) combined with the weights of the integrator. */
  datatype Stage = Stage(q: Fluxes, emf: Field, src: Field, full: nat, sub: nat, out: nat, gam0: real, gam1: real,
                         bdt: real)

  function AfterStage(m: Mesh, pool: seq<Field>, st: Stage): seq<Field>
    requires m.Ok() && st.full < |pool| && st.sub < |pool| && st.out < |pool|
  {
    var src := Diverged(m, Rewritten(m, st.q, EmfOf(m, st.q, st.emf)), st.src);
    pool[st.out := StageUpdate(pool[st.full], pool[st.sub], src, st.gam0, st.gam1, st.bdt)]
  }

  function AfterStages(m: Mesh, pool: seq<Field>, stages: seq<Stage>): (r: seq<Field>)
    requires m.Ok() && forall st | st in stages :: st.full < |pool| && st.sub < |pool| && st.out < |pool|
    ensures |r| == |pool|
  {
    if stages == [] then pool
    else
      var n := |stages| - 1;
      assert forall st | st in stages[..n] :: st in stages;
      assert stages[n] in stages;
      AfterStage(m, AfterStages(m, pool, stages[..n]), stages[n])
  }

  /** Corner divergence is linear in the field. */
  lemma CornerDivOfWSum(m: Mesh, x: Field, y: Field, w1: real, w2: real, k: int, j: int, i: int)
    requires m.Ok() && CornerDiv(m, x, k, j, i) == 0.0 && CornerDiv(m, y, k, j, i) == 0.0
    ensures CornerDiv(m, WSum(x, y, w1, w2), k, j, i) == 0.0
  {
    hide CornerDivOf, Less;
    var z := WSum(x, y, w1, w2);
    CubeOfSum(x.x1, y.x1, w1, w2, k, j, i);
    CubeOfSum(x.x2, y.x2, w1, w2, k, j, i);
    CubeOfSum(x.x3, y.x3, w1, w2, k, j, i);
    CornerDivOfMix(m, w1, CubeOf(x.x1, k, j, i), CubeOf(x.x2, k, j, i), CubeOf(x.x3, k, j, i),
                   -w2, CubeOf(y.x1, k, j, i), CubeOf(y.x2, k, j, i), CubeOf(y.x3, k, j, i));
  }

  lemma CubeOfSum(x: Scalar, y: Scalar, w1: real, w2: real, k: int, j: int, i: int)
    ensures CubeOf(WeightedSum(x, y, w1, w2), k, j, i) == Mix(w1, CubeOf(x, k, j, i), -w2, CubeOf(y, k, j, i))
  {
    hide WeightedSum;
    forall k', j', i' ensures WeightedSum(x, y, w1, w2)(k', j', i') == Less(w1, x(k', j', i'), -w2, y(k', j', i')) {
      WeightedSumAt(x, y, w1, w2, k', j', i');
    }
    hide Less;
  }

  lemma WeightedSumAt(x: Scalar, y: Scalar, w1: real, w2: real, k: int, j: int, i: int)
    ensures WeightedSum(x, y, w1, w2)(k, j, i) == Less(w1, x(k, j, i), -w2, y(k, j, i))
  {
  }

  lemma CornerDivOfMix(m: Mesh, p: real, x1: Cube, x2: Cube, x3: Cube, q: real, y1: Cube, y2: Cube, y3: Cube)
    requires m.Ok() && CornerDivOf(m, x1, x2, x3) == 0.0 && CornerDivOf(m, y1, y2, y3) == 0.0
    ensures CornerDivOf(m, Mix(p, x1, q, y1), Mix(p, x2, q, y2), Mix(p, x3, q, y3)) == 0.0
  {
    hide Mix, Term1, Term2, Term3, Quotients;
    TermsOfMix(m, p, x1, q, y1);
    TermsOfMix(m, p, x2, q, y2);
    TermsOfMix(m, p, x3, q, y3);
    QuotientsOfLess(m, p, q, Term1(m, x1), Term2(m, x2), Term3(m, x3), Term1(m, y1), Term2(m, y2), Term3(m, y3));
  }

  lemma QuotientsOfLess(m: Mesh, p: real, q: real, a: real, b: real, c: real, a': real, b': real, c': real)
    requires m.Ok() && Quotients(m, a, b, c) == 0.0 && Quotients(m, a', b', c') == 0.0
    ensures Quotients(m, Less(p, a, q, a'), Less(p, b, q, b'), Less(p, c, q, c')) == 0.0
  {
    hide Scaled;
    var n := if m.ndim > 2 then 0.25 else 0.5;
    ScaledLess(n, m.dx1, p, q, a, a');
    ScaledLess(n, m.dx2, p, q, b, b');
    ScaledLess(n, m.dx3, p, q, c, c');
    LessOfSums(p, q, Scaled(n, a, m.dx1), Scaled(n, b, m.dx2), Scaled(n, c, m.dx3),
               Scaled(n, a', m.dx1), Scaled(n, b', m.dx2), Scaled(n, c', m.dx3));
  }

  lemma LessOfSums(p: real, q: real, x: real, y: real, z: real, x': real, y': real, z': real)
    requires x + y + z == 0.0 && x' + y' + z' == 0.0
    ensures p * x - q * x' + (p * y - q * y') + (p * z - q * z') == 0.0
  {
  }

  lemma ScaledLess(n: real, d: real, p: real, q: real, a: real, a': real)
    requires d > 0.0
    ensures Scaled(n, Less(p, a, q, a'), d) == Less(p, Scaled(n, a, d), q, Scaled(n, a', d))
  {
  }

  lemma StageKeepsCornerFree(m: Mesh, full: Field, sub: Field, src: Field, gam0: real, gam1: real, bdt: real)
    requires m.Ok() && CornerFree(m, full) && CornerFree(m, sub) && CornerFree(m, src)
    ensures CornerFree(m, StageUpdate(full, sub, src, gam0, gam1, bdt))
  {
    hide CornerDiv, WSum;
    forall k, j, i | InteriorCorner(m, k, j, i)
      ensures CornerDiv(m, StageUpdate(full, sub, src, gam0, gam1, bdt), k, j, i) == 0.0
    {
      CornerDivOfWSum(m, sub, full, gam0, gam1, k, j, i);
      CornerDivOfWSum(m, WSum(sub, full, gam0, gam1), src, 1.0, bdt, k, j, i);
    }
  }

  /** Safety of every run: whatever the fluxes, the weights and the aliasing of containers, corner
      divergence stays zero at every corner among interior zones. */
  lemma {:induction false} RunStaysCornerFree(m: Mesh, pool: seq<Field>, stages: seq<Stage>)
    requires m.Ok() && forall st | st in stages :: st.full < |pool| && st.sub < |pool| && st.out < |pool|
    requires forall b | b in pool :: CornerFree(m, b)
    ensures forall b | b in AfterStages(m, pool, stages) :: CornerFree(m, b)
  {
    hide CornerFree, Diverged, Rewritten, EmfOf, StageUpdate;
    if stages != [] {
      var n := |stages| - 1;
      assert forall st | st in stages[..n] :: st in stages;
      var st := stages[n];
      assert st in stages;
      RunStaysCornerFree(m, pool, stages[..n]);
      var p := AfterStages(m, pool, stages[..n]);
      var e := EmfOf(m, st.q, st.emf);
      RewrittenIsCornerFree(m, st.q, e, st.src);
      StageKeepsCornerFree(m, p[st.full], p[st.sub], Diverged(m, Rewritten(m, st.q, e), st.src), st.gam0, st.gam1,
                           st.bdt);
    }
  }

  /** From a seeded container and containers as allocated. */
  lemma SeededRunIsCornerFree(m: Mesh, a: Field, others: nat, stages: seq<Stage>)
    requires m.Ok() && forall st | st in stages :: st.full <= others && st.sub <= others && st.out <= others
    ensures var pool := [Seeded(m, a, Zero())] + seq(others, _ => Zero());
            forall b | b in AfterStages(m, pool, stages) :: CornerFree(m, b)
  {
    hide CornerFree, Seeded, Zero;
    var pool := [Seeded(m, a, Zero())] + seq(others, _ => Zero());
    SeedIsCornerFree(m, a, Zero());
    ZeroIsCornerFree(m);
    RunStaysCornerFree(m, pool, stages);
  }

  lemma ZeroIsCornerFree(m: Mesh)
    requires m.Ok()
    ensures CornerFree(m, Zero())
  {
  }
}
