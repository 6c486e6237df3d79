/** Sign and scale of the curls and of the flux rewriting, which no divergence can see: on
    potentials that vary linearly both curls give exactly the curl, and fluxes that already come
    from an EMF that varies linearly are left as they are. */
module Orientation {
  import opened Grid
  import opened FaceCT
  import opened FluxCT

  /** A scalar growing at a constant rate along each axis. */
  datatype Ramp = Ramp(origin: real, d1: real, d2: real, d3: real)

  function Height(m: Mesh, g: Ramp, k: int, j: int, i: int): real {
    g.origin + Rise(g.d1, m.dx1, i) + Rise(g.d2, m.dx2, j) + Rise(g.d3, m.dx3, k)
  }
  function Rise(rate: real, d: real, n: int): real { n as real * (rate * d) }

  ghost predicate Follows(m: Mesh, s: Scalar, g: Ramp) {
    forall k, j, i {:trigger s(k, j, i)} :: s(k, j, i) == Height(m, g, k, j, i)
  }

  /** The eight corners of a cell of the ramp, from the lowest one. */
  lemma Corners(m: Mesh, s: Scalar, g: Ramp, k: int, j: int, i: int)
    requires Follows(m, s, g)
    ensures var p, x, y, z := s(k, j, i), g.d1 * m.dx1, g.d2 * m.dx2, g.d3 * m.dx3;
            && s(k, j, i + 1) == p + x && s(k, j + 1, i) == p + y && s(k + 1, j, i) == p + z
            && s(k, j + 1, i + 1) == p + x + y && s(k + 1, j, i + 1) == p + x + z && s(k + 1, j + 1, i) == p + y + z
            && s(k + 1, j + 1, i + 1) == p + x + y + z
  {
  }

  lemma Over(rate: real, d: real)
    requires d > 0.0
    ensures rate * d / d == rate && -(rate * d) / d == -rate
  {
  }

  lemma CurlOfRamps1(m: Mesh, a: Field, stale: Field, g1: Ramp, g2: Ramp, g3: Ramp, k: int, j: int, i: int)
    requires m.Ok() && Follows(m, a.x1, g1) && Follows(m, a.x2, g2) && Follows(m, a.x3, g3)
    ensures m.AllFaces(1).Has(k, j, i) ==> Curled(m, a, stale).x1(k, j, i) == if m.ndim > 2 then g3.d2 - g2.d3
            else g3.d2
  {
    hide Height;
    CurledAt(m, a, stale, k, j, i);
    Corners(m, a.x3, g3, k, j, i); Corners(m, a.x2, g2, k, j, i);
    Over(g3.d2, m.dx2); Over(g2.d3, m.dx3);
  }

  lemma CurlOfRamps2(m: Mesh, a: Field, stale: Field, g1: Ramp, g2: Ramp, g3: Ramp, k: int, j: int, i: int)
    requires m.Ok() && Follows(m, a.x1, g1) && Follows(m, a.x2, g2) && Follows(m, a.x3, g3)
    ensures m.AllFaces(2).Has(k, j, i) ==> Curled(m, a, stale).x2(k, j, i) == if m.ndim > 2 then g1.d3 - g3.d1
            else -g3.d1
  {
    hide Height;
    CurledAt(m, a, stale, k, j, i);
    Corners(m, a.x1, g1, k, j, i); Corners(m, a.x3, g3, k, j, i);
    Over(g1.d3, m.dx3); Over(g3.d1, m.dx1);
  }

  lemma CurlOfRamps3(m: Mesh, a: Field, stale: Field, g1: Ramp, g2: Ramp, g3: Ramp, k: int, j: int, i: int)
    requires m.Ok() && Follows(m, a.x1, g1) && Follows(m, a.x2, g2) && Follows(m, a.x3, g3)
    ensures m.AllFaces(3).Has(k, j, i) && m.ndim > 2 ==> Curled(m, a, stale).x3(k, j, i) == g2.d1 - g1.d2
  {
    hide Height;
    CurledAt(m, a, stale, k, j, i);
    Corners(m, a.x2, g2, k, j, i); Corners(m, a.x1, g1, k, j, i);
    Over(g2.d1, m.dx1); Over(g1.d2, m.dx2);
  }

  /** EdgeCurl of a linear potential is its curl, on every face it sets. */
  lemma CurlOfRamps(m: Mesh, a: Field, stale: Field, g1: Ramp, g2: Ramp, g3: Ramp, k: int, j: int, i: int)
    requires m.Ok() && Follows(m, a.x1, g1) && Follows(m, a.x2, g2) && Follows(m, a.x3, g3)
    ensures var b := Curled(m, a, stale);
            && (m.AllFaces(1).Has(k, j, i) ==> b.x1(k, j, i) == if m.ndim > 2 then g3.d2 - g2.d3 else g3.d2)
            && (m.AllFaces(2).Has(k, j, i) ==> b.x2(k, j, i) == if m.ndim > 2 then g1.d3 - g3.d1 else -g3.d1)
            && (m.AllFaces(3).Has(k, j, i) && m.ndim > 2 ==> b.x3(k, j, i) == g2.d1 - g1.d2)
  {
    hide Curled, Follows;
    CurlOfRamps1(m, a, stale, g1, g2, g3, k, j, i);
    CurlOfRamps2(m, a, stale, g1, g2, g3, k, j, i);
    CurlOfRamps3(m, a, stale, g1, g2, g3, k, j, i);
  }

  lemma SeedOfRamps1(m: Mesh, a: Field, g1: Ramp, g2: Ramp, g3: Ramp, k: int, j: int, i: int)
    requires m.Ok() && Follows(m, a.x1, g1) && Follows(m, a.x2, g2) && Follows(m, a.x3, g3)
    ensures Seeded1(m, a, k, j, i) == if m.ndim > 2 then g3.d2 - g2.d3 else g3.d2
  {
  }

  lemma SeedOfRamps2(m: Mesh, a: Field, g1: Ramp, g2: Ramp, g3: Ramp, k: int, j: int, i: int)
    requires m.Ok() && Follows(m, a.x1, g1) && Follows(m, a.x2, g2) && Follows(m, a.x3, g3)
    ensures Seeded2(m, a, k, j, i) == if m.ndim > 2 then g1.d3 - g3.d1 else -g3.d1
  {
  }

  lemma SeedOfRamps3(m: Mesh, a: Field, g1: Ramp, g2: Ramp, g3: Ramp, k: int, j: int, i: int)
    requires m.Ok() && Follows(m, a.x1, g1) && Follows(m, a.x2, g2) && Follows(m, a.x3, g3)
    ensures m.ndim > 2 ==> Seeded3(m, a, k, j, i) == g2.d1 - g1.d2
  {
  }

  /** The averaged curl of a linear potential is its curl too, in every zone. */
  lemma SeedOfRamps(m: Mesh, a: Field, g1: Ramp, g2: Ramp, g3: Ramp, k: int, j: int, i: int)
    requires m.Ok() && Follows(m, a.x1, g1) && Follows(m, a.x2, g2) && Follows(m, a.x3, g3)
    ensures Seeded1(m, a, k, j, i) == if m.ndim > 2 then g3.d2 - g2.d3 else g3.d2
    ensures Seeded2(m, a, k, j, i) == if m.ndim > 2 then g1.d3 - g3.d1 else -g3.d1
    ensures m.ndim > 2 ==> Seeded3(m, a, k, j, i) == g2.d1 - g1.d2
  {
    hide Seeded1, Seeded2, Seeded3, Follows;
    SeedOfRamps1(m, a, g1, g2, g3, k, j, i);
    SeedOfRamps2(m, a, g1, g2, g3, k, j, i);
    SeedOfRamps3(m, a, g1, g2, g3, k, j, i);
  }

  /** Every flux is the mean of the EMF on its two edges. */
  ghost predicate FluxesOf(q: Fluxes, e: Field) {
    && (forall k, j, i {:trigger q.f1.x2(k, j, i)} :: q.f1.x2(k, j, i) == New12(e, k, j, i))
    && (forall k, j, i {:trigger q.f1.x3(k, j, i)} :: q.f1.x3(k, j, i) == New13(e, k, j, i))
    && (forall k, j, i {:trigger q.f2.x1(k, j, i)} :: q.f2.x1(k, j, i) == New21(e, k, j, i))
    && (forall k, j, i {:trigger q.f2.x3(k, j, i)} :: q.f2.x3(k, j, i) == New23(e, k, j, i))
    && (forall k, j, i {:trigger q.f3.x1(k, j, i)} :: q.f3.x1(k, j, i) == New31(e, k, j, i))
    && (forall k, j, i {:trigger q.f3.x2(k, j, i)} :: q.f3.x2(k, j, i) == New32(e, k, j, i))
  }

  /** Neighbours of a point of the ramp, on both sides. */
  lemma Neighbours(m: Mesh, s: Scalar, g: Ramp, k: int, j: int, i: int)
    requires Follows(m, s, g)
    ensures var p, x, y, z := s(k, j, i), g.d1 * m.dx1, g.d2 * m.dx2, g.d3 * m.dx3;
            && s(k, j, i + 1) == p + x && s(k, j + 1, i) == p + y && s(k + 1, j, i) == p + z
            && s(k, j, i - 1) == p - x && s(k, j - 1, i) == p - y && s(k - 1, j, i) == p - z
  {
  }

  /** The first pass of FluxCT recovers a linear EMF from its fluxes. */
  lemma LinearEMFRecovered(m: Mesh, q: Fluxes, e: Field, g1: Ramp, g2: Ramp, g3: Ramp, k: int, j: int, i: int)
    requires Follows(m, e.x1, g1) && Follows(m, e.x2, g2) && Follows(m, e.x3, g3) && FluxesOf(q, e)
    ensures Emf1(q, k, j, i) == e.x1(k, j, i) && Emf2(q, k, j, i) == e.x2(k, j, i) && Emf3(q, k, j, i) == e.x3(k, j, i)
  {
    Neighbours(m, e.x1, g1, k, j, i); Neighbours(m, e.x2, g2, k, j, i); Neighbours(m, e.x3, g3, k, j, i);
    hide Follows;
  }

  lemma LinearEMFStored(m: Mesh, q: Fluxes, e: Field, stale: Field, g1: Ramp, g2: Ramp, g3: Ramp, k: int, j: int,
                        i: int)
    requires Follows(m, e.x1, g1) && Follows(m, e.x2, g2) && Follows(m, e.x3, g3) && FluxesOf(q, e)
             && EdgeBox(m).Has(k, j, i)
    ensures var t := EmfOf(m, q, stale);
            t.x3(k, j, i) == e.x3(k, j, i)
                && (m.ndim > 2 ==> t.x1(k, j, i) == e.x1(k, j, i) && t.x2(k, j, i) == e.x2(k, j, i))
  {
    LinearEMFRecovered(m, q, e, g1, g2, g3, k, j, i);
    hide Follows, FluxesOf, EdgeMean;
  }

  /** FluxCT leaves the fluxes of a linear EMF as they are on every face it rewrites. */
  lemma LinearFluxesKept(m: Mesh, q: Fluxes, e: Field, stale: Field, g1: Ramp, g2: Ramp, g3: Ramp, k: int, j: int,
                         i: int)
    requires m.Ok() && Follows(m, e.x1, g1) && Follows(m, e.x2, g2) && Follows(m, e.x3, g3) && FluxesOf(q, e)
    ensures var w := Rewritten(m, q, EmfOf(m, q, stale));
            && (m.FaceRange(1).Has(k, j, i)
                ==> w.f1.x2(k, j, i) == q.f1.x2(k, j, i) && w.f1.x3(k, j, i) == q.f1.x3(k, j, i))
            && (m.FaceRange(2).Has(k, j, i)
                ==> w.f2.x1(k, j, i) == q.f2.x1(k, j, i) && w.f2.x3(k, j, i) == q.f2.x3(k, j, i))
            && (m.FaceRange(3).Has(k, j, i)
                ==> w.f3.x1(k, j, i) == q.f3.x1(k, j, i) && w.f3.x2(k, j, i) == q.f3.x2(k, j, i))
  {
    forall k', j', i' | EdgeBox(m).Has(k', j', i')
      ensures var t := EmfOf(m, q, stale);
              t.x3(k', j', i') == e.x3(k', j', i')
                  && (m.ndim > 2 ==> t.x1(k', j', i') == e.x1(k', j', i') && t.x2(k', j', i') == e.x2(k', j', i'))
    {
      LinearEMFStored(m, q, e, stale, g1, g2, g3, k', j', i');
    }
    var t := EmfOf(m, q, stale);
    hide Follows, EmfOf;
    assert New12(t, k, j, i) == New12(e, k, j, i) || !m.FaceRange(1).Has(k, j, i);
    assert New21(t, k, j, i) == New21(e, k, j, i) || !m.FaceRange(2).Has(k, j, i);
    if m.ndim > 2 {
      assert New13(t, k, j, i) == New13(e, k, j, i) || !m.FaceRange(1).Has(k, j, i);
      assert New23(t, k, j, i) == New23(e, k, j, i) || !m.FaceRange(2).Has(k, j, i);
      assert New31(t, k, j, i) == New31(e, k, j, i) || !m.FaceRange(3).Has(k, j, i);
      assert New32(t, k, j, i) == New32(e, k, j, i) || !m.FaceRange(3).Has(k, j, i);
    }
  }

  /** A zone is seeded from the potential at its own corners. */
  lemma SeedReadsCorners(m: Mesh, a: Field, a': Field, k: int, j: int, i: int)
    requires m.Ok()
    requires forall k', j', i' | k <= k' <= (if m.ndim > 2 then k + 1 else k) && j <= j' <= j + 1 && i <= i' <= i + 1 ::
               a.x1(k', j', i') == a'.x1(k', j', i') && a.x2(k', j', i') == a'.x2(k', j', i')
               && a.x3(k', j', i') == a'.x3(k', j', i')
    ensures Seeded1(m, a, k, j, i) == Seeded1(m, a', k, j, i) && Seeded2(m, a, k, j, i) == Seeded2(m, a', k, j, i)
            && Seeded3(m, a, k, j, i) == Seeded3(m, a', k, j, i)
  {
    hide CurlOfMeans, Mean4, Mid;
  }

  // -- The divergences

  /** face_div of a linear field is its divergence. */
  lemma FaceDivOfRamps(m: Mesh, b: Field, g1: Ramp, g2: Ramp, g3: Ramp, k: int, j: int, i: int)
    requires m.Ok() && Follows(m, b.x1, g1) && Follows(m, b.x2, g2) && Follows(m, b.x3, g3)
    ensures FaceDiv(m, b, k, j, i) == g1.d1 + g2.d2 + (if m.ndim > 2 then g3.d3 else 0.0)
  {
    Corners(m, b.x1, g1, k, j, i); Corners(m, b.x2, g2, k, j, i); Corners(m, b.x3, g3, k, j, i);
    hide Height, Follows;
    Over(g1.d1, m.dx1); Over(g2.d2, m.dx2); Over(g3.d3, m.dx3);
  }

  /** So is corner_div. */
  lemma CornerDivOfRamps(m: Mesh, b: Field, g1: Ramp, g2: Ramp, g3: Ramp, k: int, j: int, i: int)
    requires m.Ok() && Follows(m, b.x1, g1) && Follows(m, b.x2, g2) && Follows(m, b.x3, g3)
    ensures CornerDiv(m, b, k, j, i) == g1.d1 + g2.d2 + (if m.ndim > 2 then g3.d3 else 0.0)
  {
    TermsOfRamps(m, b, g1, g2, g3, k, j, i);
    hide CubeOf, Term1, Term2, Term3;
    var n := if m.ndim > 2 then 0.25 else 0.5;
    var c := if m.ndim > 2 then 4.0 else 2.0;
    ScaledRamp(n, c, g1.d1, m.dx1);
    ScaledRamp(n, c, g2.d2, m.dx2);
    ScaledRamp(n, if m.ndim > 2 then 4.0 else 0.0, g3.d3, m.dx3);
    hide Scaled;
  }

  lemma TermsOfRamps(m: Mesh, b: Field, g1: Ramp, g2: Ramp, g3: Ramp, k: int, j: int, i: int)
    requires m.Ok() && Follows(m, b.x1, g1) && Follows(m, b.x2, g2) && Follows(m, b.x3, g3)
    ensures Term1(m, CubeOf(b.x1, k, j, i)) == (if m.ndim > 2 then 4.0 else 2.0) * (g1.d1 * m.dx1)
    ensures Term2(m, CubeOf(b.x2, k, j, i)) == (if m.ndim > 2 then 4.0 else 2.0) * (g2.d2 * m.dx2)
    ensures Term3(m, CubeOf(b.x3, k, j, i)) == (if m.ndim > 2 then 4.0 else 0.0) * (g3.d3 * m.dx3)
  {
    Corners(m, b.x1, g1, k - 1, j - 1, i - 1); Corners(m, b.x2, g2, k - 1, j - 1, i - 1);
    Corners(m, b.x3, g3, k - 1, j - 1, i - 1);
    hide Height, Follows;
  }

  lemma ScaledRamp(n: real, c: real, rate: real, d: real)
    requires d > 0.0
    ensures Scaled(n, c * (rate * d), d) == n * c * rate
  {
    assert n * (c * (rate * d)) == n * c * rate * d;
  }
}
