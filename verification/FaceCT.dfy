/** Face-centred constrained transport (b_ct): the divergence, the curl that seeds the field, the
    circulation that evolves it, and the weighted sums a multi-stage integrator takes. */
module FaceCT {
  import opened Grid

  /** Divergence of a zone from the field on its six faces (the X3 pair is read in 3D only). */
  function DivOf(m: Mesh, f1p: real, f1: real, f2p: real, f2: real, f3p: real, f3: real): real
    requires m.Ok()
  {
    (f1p - f1) / m.dx1
    + (if m.ndim > 1 then (f2p - f2) / m.dx2 else 0.0)
    + (if m.ndim > 2 then (f3p - f3) / m.dx3 else 0.0)
  }

  function FaceDiv(m: Mesh, b: Field, k: int, j: int, i: int): real
    requires m.Ok()
  {
    DivOf(m, b.x1(k, j, i + 1), b.x1(k, j, i), b.x2(k, j + 1, i), b.x2(k, j, i), Above(m, b.x3, k, j, i), b.x3(k, j, i))
  }

  /** Net magnetic flux out of a zone, from the field on its six faces. */
  function NetOf(m: Mesh, f1p: real, f1: real, f2p: real, f2: real, f3p: real, f3: real): real {
    m.A1() * (f1p - f1) + m.A2() * (f2p - f2) + (if m.ndim > 2 then m.A3() * (f3p - f3) else 0.0)
  }

  function Net(m: Mesh, b: Field, k: int, j: int, i: int): real {
    NetOf(m, b.x1(k, j, i + 1), b.x1(k, j, i), b.x2(k, j + 1, i), b.x2(k, j, i), Above(m, b.x3, k, j, i), b.x3(k, j, i))
  }

  /** The next value up in X3, which only 3D kernels read. */
  function Above(m: Mesh, s: Scalar, k: int, j: int, i: int): real {
    if m.ndim > 2 then s(k + 1, j, i) else 0.0
  }

  lemma NetIsDiv(m: Mesh, b: Field, k: int, j: int, i: int)
    requires m.Ok()
    ensures Net(m, b, k, j, i) == m.Vol() * FaceDiv(m, b, k, j, i)
    ensures Net(m, b, k, j, i) == 0.0 <==> FaceDiv(m, b, k, j, i) == 0.0
  {
  }

  // -- EdgeCurl

  /** One face of the 3D curl: the difference of component `c` across the face in direction `b`,
      less the difference of component `b` in direction `c`. */
  function CurlFace(db: real, dc: real, cf: real, cb: real, bf: real, bb: real): real
    requires db > 0.0 && dc > 0.0
  {
    (cf - cb) / db - (bf - bb) / dc
  }

  /** Potential halfway along an edge, from its two ends. */
  function Mid(p: real, q: real): real { (p + q) / 2.0 }

  function Slope(p: real, q: real, d: real): real
    requires d > 0.0
  {
    (p - q) / d
  }

  // One face of EdgeCurl, by direction.

  function Curl1(m: Mesh, a: Field, k: int, j: int, i: int): real
    requires m.Ok()
  {
    if m.ndim == 2 then Slope(a.x3(k, j + 1, i), a.x3(k, j, i), m.dx2)
    else CurlFace(m.dx2, m.dx3, Mid(a.x3(k, j + 1, i), a.x3(k + 1, j + 1, i)), Mid(a.x3(k, j, i), a.x3(k + 1, j, i)),
                  Mid(a.x2(k + 1, j, i), a.x2(k + 1, j + 1, i)), Mid(a.x2(k, j, i), a.x2(k, j + 1, i)))
  }

  function Curl2(m: Mesh, a: Field, k: int, j: int, i: int): real
    requires m.Ok()
  {
    if m.ndim == 2 then -Slope(a.x3(k, j, i + 1), a.x3(k, j, i), m.dx1)
    else CurlFace(m.dx3, m.dx1, Mid(a.x1(k + 1, j, i), a.x1(k + 1, j, i + 1)), Mid(a.x1(k, j, i), a.x1(k, j, i + 1)),
                  Mid(a.x3(k, j, i + 1), a.x3(k + 1, j, i + 1)), Mid(a.x3(k, j, i), a.x3(k + 1, j, i)))
  }

  function Curl3(m: Mesh, a: Field, k: int, j: int, i: int): real
    requires m.Ok()
  {
    if m.ndim == 2 then 0.0
    else CurlFace(m.dx1, m.dx2, Mid(a.x2(k, j, i + 1), a.x2(k, j + 1, i + 1)), Mid(a.x2(k, j, i), a.x2(k, j + 1, i)),
                  Mid(a.x1(k, j + 1, i), a.x1(k, j + 1, i + 1)), Mid(a.x1(k, j, i), a.x1(k, j, i + 1)))
  }

  /** The face field after EdgeCurl: every face of the block gets the curl of the edge potential. */
  function Curled(m: Mesh, a: Field, stale: Field): Field
    requires m.Ok()
  {
    var r1, r2, r3 := m.AllFaces(1), m.AllFaces(2), m.AllFaces(3);
    Field((k, j, i) => if r1.Has(k, j, i) then Curl1(m, a, k, j, i) else stale.x1(k, j, i),
          (k, j, i) => if r2.Has(k, j, i) then Curl2(m, a, k, j, i) else stale.x2(k, j, i),
          (k, j, i) => if r3.Has(k, j, i) then Curl3(m, a, k, j, i) else stale.x3(k, j, i))
  }

  lemma CurledAt(m: Mesh, a: Field, stale: Field, k: int, j: int, i: int)
    requires m.Ok()
    ensures m.AllFaces(1).Has(k, j, i) ==> Curled(m, a, stale).x1(k, j, i) == Curl1(m, a, k, j, i)
    ensures m.AllFaces(2).Has(k, j, i) ==> Curled(m, a, stale).x2(k, j, i) == Curl2(m, a, k, j, i)
    ensures m.AllFaces(3).Has(k, j, i) ==> Curled(m, a, stale).x3(k, j, i) == Curl3(m, a, k, j, i)
  {
    hide Curl1, Curl2, Curl3;
  }

  /** The flux of the curl through a face is the circulation around it of the potential, which an edge has from the
      mean of its two ends (in 2D from the one value stored with it). */
  lemma CurlIsCirculation(m: Mesh, a: Field, stale: Field, k: int, j: int, i: int)
    requires m.Ok()
    ensures var b := Curled(m, a, stale);
            if m.ndim == 2 then
              && (m.AllFaces(1).Has(k, j, i) ==> b.x1(k, j, i) * m.dx2 == a.x3(k, j + 1, i) - a.x3(k, j, i))
              && (m.AllFaces(2).Has(k, j, i) ==> b.x2(k, j, i) * m.dx1 == a.x3(k, j, i) - a.x3(k, j, i + 1))
              && (m.AllFaces(3).Has(k, j, i) ==> b.x3(k, j, i) == 0.0)
            else
              && (m.AllFaces(1).Has(k, j, i) ==>
                    2.0 * (b.x1(k, j, i) * (m.dx2 * m.dx3))
                    == m.dx3 * (a.x3(k, j + 1, i) + a.x3(k + 1, j + 1, i) - (a.x3(k, j, i) + a.x3(k + 1, j, i)))
                       - m.dx2 * (a.x2(k + 1, j, i) + a.x2(k + 1, j + 1, i) - (a.x2(k, j, i) + a.x2(k, j + 1, i))))
              && (m.AllFaces(2).Has(k, j, i) ==>
                    2.0 * (b.x2(k, j, i) * (m.dx3 * m.dx1))
                    == m.dx1 * (a.x1(k + 1, j, i) + a.x1(k + 1, j, i + 1) - (a.x1(k, j, i) + a.x1(k, j, i + 1)))
                       - m.dx3 * (a.x3(k, j, i + 1) + a.x3(k + 1, j, i + 1) - (a.x3(k, j, i) + a.x3(k + 1, j, i))))
              && (m.AllFaces(3).Has(k, j, i) ==>
                    2.0 * (b.x3(k, j, i) * (m.dx1 * m.dx2))
                    == m.dx2 * (a.x2(k, j, i + 1) + a.x2(k, j + 1, i + 1) - (a.x2(k, j, i) + a.x2(k, j + 1, i)))
                       - m.dx1 * (a.x1(k, j + 1, i) + a.x1(k, j + 1, i + 1) - (a.x1(k, j, i) + a.x1(k, j, i + 1))))
  {
    CurledAt(m, a, stale, k, j, i);
    hide Curled;
    if m.ndim == 2 {
      SlopeTimes(a.x3(k, j + 1, i), a.x3(k, j, i), m.dx2);
      SlopeTimes(a.x3(k, j, i + 1), a.x3(k, j, i), m.dx1);
    } else {
      hide CurlFace;
      FaceTimes(m.dx2, m.dx3, Mid(a.x3(k, j + 1, i), a.x3(k + 1, j + 1, i)), Mid(a.x3(k, j, i), a.x3(k + 1, j, i)),
                Mid(a.x2(k + 1, j, i), a.x2(k + 1, j + 1, i)), Mid(a.x2(k, j, i), a.x2(k, j + 1, i)));
      FaceTimes(m.dx3, m.dx1, Mid(a.x1(k + 1, j, i), a.x1(k + 1, j, i + 1)), Mid(a.x1(k, j, i), a.x1(k, j, i + 1)),
                Mid(a.x3(k, j, i + 1), a.x3(k + 1, j, i + 1)), Mid(a.x3(k, j, i), a.x3(k + 1, j, i)));
      FaceTimes(m.dx1, m.dx2, Mid(a.x2(k, j, i + 1), a.x2(k, j + 1, i + 1)), Mid(a.x2(k, j, i), a.x2(k, j + 1, i)),
                Mid(a.x1(k, j + 1, i), a.x1(k, j + 1, i + 1)), Mid(a.x1(k, j, i), a.x1(k, j, i + 1)));
    }
  }

  lemma SlopeTimes(p: real, q: real, d: real)
    requires d > 0.0
    ensures Slope(p, q, d) * d == p - q && -Slope(p, q, d) * d == q - p
  {
  }

  lemma FaceTimes(db: real, dc: real, cf: real, cb: real, bf: real, bb: real)
    requires db > 0.0 && dc > 0.0
    ensures CurlFace(db, dc, cf, cb, bf, bb) * (db * dc) == dc * (cf - cb) - db * (bf - bb)
  {
    var x, y := (cf - cb) / db, (bf - bb) / dc;
    assert (x - y) * (db * dc) == (x * db) * dc - (y * dc) * db;
  }

  /** Entries that are no face of the block keep what was in the container. */
  lemma CurledElsewhere(m: Mesh, a: Field, stale: Field, k: int, j: int, i: int)
    requires m.Ok() && m.InBounds(k, j, i)
    ensures var c, top3 := Curled(m, a, stale), if m.ndim > 2 then m.Ke() + m.ng else 0;
            && (k > top3 || j > m.Je() + m.ng ==> c.x1(k, j, i) == stale.x1(k, j, i))
            && (k > top3 || i > m.Ie() + m.ng ==> c.x2(k, j, i) == stale.x2(k, j, i))
            && (j > m.Je() + m.ng || i > m.Ie() + m.ng ==> c.x3(k, j, i) == stale.x3(k, j, i))
  {
    hide Curl1, Curl2, Curl3;
    var on1, on2, on3 := m.AllFaces(1).Has(k, j, i), m.AllFaces(2).Has(k, j, i), m.AllFaces(3).Has(k, j, i);
  }

  /** The curl of any potential has no divergence in any zone of the block, ghosts included. */
  lemma CurlIsDivFree(m: Mesh, a: Field, stale: Field)
    requires m.Ok()
    ensures DivFree(m, Curled(m, a, stale))
    ensures forall k, j, i | m.AllZones().Has(k, j, i) :: FaceDiv(m, Curled(m, a, stale), k, j, i) == 0.0
  {
    hide FaceDiv, Curled;
    forall k, j, i | m.AllZones().Has(k, j, i) ensures FaceDiv(m, Curled(m, a, stale), k, j, i) == 0.0 {
      CurlHasNoDiv(m, a, stale, k, j, i);
    }
    forall k, j, i | m.Interior(k, j, i) ensures m.AllZones().Has(k, j, i) {
      m.InteriorIsInside(k, j, i);
    }
  }

  lemma CurlHasNoDiv(m: Mesh, a: Field, stale: Field, k: int, j: int, i: int)
    requires m.Ok() && m.AllZones().Has(k, j, i)
    ensures FaceDiv(m, Curled(m, a, stale), k, j, i) == 0.0
  {
    m.AllFacesOfZone(k, j, i);
    CurledAt(m, a, stale, k, j, i);
    CurledAt(m, a, stale, k, j, i + 1);
    CurledAt(m, a, stale, k, j + 1, i);
    if m.ndim > 2 { CurledAt(m, a, stale, k + 1, j, i); }
    hide CurlFace, Mid, Slope, Curled, Mesh.AllFaces, DivOf;
    if m.ndim == 2 {
      SlopesClose(m, a.x3(k, j, i), a.x3(k, j, i + 1), a.x3(k, j + 1, i), a.x3(k, j + 1, i + 1),
                  Curled(m, a, stale).x3(k, j, i));
    } else {
      CurlCloses(m,
                 Mid(a.x1(k, j, i), a.x1(k, j, i + 1)), Mid(a.x1(k, j + 1, i), a.x1(k, j + 1, i + 1)),
                 Mid(a.x1(k + 1, j, i), a.x1(k + 1, j, i + 1)), Mid(a.x1(k + 1, j + 1, i), a.x1(k + 1, j + 1, i + 1)),
                 Mid(a.x2(k, j, i), a.x2(k, j + 1, i)), Mid(a.x2(k, j, i + 1), a.x2(k, j + 1, i + 1)),
                 Mid(a.x2(k + 1, j, i), a.x2(k + 1, j + 1, i)), Mid(a.x2(k + 1, j, i + 1), a.x2(k + 1, j + 1, i + 1)),
                 Mid(a.x3(k, j, i), a.x3(k + 1, j, i)), Mid(a.x3(k, j, i + 1), a.x3(k + 1, j, i + 1)),
                 Mid(a.x3(k, j + 1, i), a.x3(k + 1, j + 1, i)), Mid(a.x3(k, j + 1, i + 1), a.x3(k + 1, j + 1, i + 1)));
    }
  }

  lemma SlopesClose(m: Mesh, s00: real, s01: real, s10: real, s11: real, f3: real)
    requires m.Ok() && m.ndim == 2
    ensures DivOf(m, Slope(s11, s01, m.dx2), Slope(s10, s00, m.dx2),
                  -Slope(s11, s10, m.dx1), -Slope(s01, s00, m.dx1), 0.0, f3) == 0.0
  {
  }

  /** `p`, `q`, `s` are the potentials along the X1, X2, X3 edges of a zone. */
  lemma CurlCloses(m: Mesh,
                   p00: real, p01: real, p10: real, p11: real,
                   q00: real, q01: real, q10: real, q11: real,
                   s00: real, s01: real, s10: real, s11: real)
    requires m.Ok() && m.ndim == 3
    ensures DivOf(m,
                  CurlFace(m.dx2, m.dx3, s11, s01, q11, q01), CurlFace(m.dx2, m.dx3, s10, s00, q10, q00),
                  CurlFace(m.dx3, m.dx1, p11, p01, s11, s10), CurlFace(m.dx3, m.dx1, p10, p00, s01, s00),
                  CurlFace(m.dx1, m.dx2, q11, q10, p11, p10), CurlFace(m.dx1, m.dx2, q01, q00, p01, p00)) == 0.0
  {
    var d1, d2, d3 := m.dx1, m.dx2, m.dx3;
    var u1, u2, u3 := 1.0 / d1, 1.0 / d2, 1.0 / d3;
    NestedQuotients(d1, d2, d3, u1, u2, u3, s11 - s01, q11 - q01, s10 - s00, q10 - q00);
    NestedQuotients(d2, d3, d1, u2, u3, u1, p11 - p01, s11 - s10, p10 - p00, s01 - s00);
    NestedQuotients(d3, d1, d2, u3, u1, u2, q11 - q10, p11 - p10, q01 - q00, p01 - p00);
  }

  lemma NestedQuotients(d: real, db: real, dc: real, u: real, ub: real, uc: real, x: real, y: real, x': real, y': real)
    requires d > 0.0 && db > 0.0 && dc > 0.0 && u == 1.0 / d && ub == 1.0 / db && uc == 1.0 / dc
    ensures (x / db - y / dc - (x' / db - y' / dc)) / d == ((x - x') * ub - (y - y') * uc) * u
  {
  }

  function WeightedSum(x: Scalar, y: Scalar, w1: real, w2: real): Scalar {
    (k, j, i) => w1 * x(k, j, i) + w2 * y(k, j, i)
  }

  function WSum(x: Field, y: Field, w1: real, w2: real): Field {
    Field(WeightedSum(x.x1, y.x1, w1, w2), WeightedSum(x.x2, y.x2, w1, w2), WeightedSum(x.x3, y.x3, w1, w2))
  }

  /** Net flux is linear in the field. */
  lemma NetOfWSum(m: Mesh, x: Field, y: Field, w1: real, w2: real, k: int, j: int, i: int)
    ensures Net(m, WSum(x, y, w1, w2), k, j, i) == w1 * Net(m, x, k, j, i) + w2 * Net(m, y, k, j, i)
  {
    var z := WSum(x, y, w1, w2);
    assert z.x1(k, j, i + 1) == w1 * x.x1(k, j, i + 1) + w2 * y.x1(k, j, i + 1);
    assert z.x1(k, j, i) == w1 * x.x1(k, j, i) + w2 * y.x1(k, j, i);
    assert z.x2(k, j + 1, i) == w1 * x.x2(k, j + 1, i) + w2 * y.x2(k, j + 1, i);
    assert z.x2(k, j, i) == w1 * x.x2(k, j, i) + w2 * y.x2(k, j, i);
    assert z.x3(k, j, i) == w1 * x.x3(k, j, i) + w2 * y.x3(k, j, i);
    assert Above(m, z.x3, k, j, i)
        == if m.ndim > 2 then w1 * Above(m, x.x3, k, j, i) + w2 * Above(m, y.x3, k, j, i) else 0.0;
    hide WSum, NetOf, Above;
    NetOfCombines(m, w1, w2, x.x1(k, j, i + 1), x.x1(k, j, i), x.x2(k, j + 1, i), x.x2(k, j, i),
                  Above(m, x.x3, k, j, i), x.x3(k, j, i),
                  y.x1(k, j, i + 1), y.x1(k, j, i), y.x2(k, j + 1, i), y.x2(k, j, i),
                  Above(m, y.x3, k, j, i), y.x3(k, j, i));
  }

  lemma NetOfCombines(m: Mesh, w1: real, w2: real,
                      p1: real, p1': real, p2: real, p2': real, p3: real, p3': real,
                      q1: real, q1': real, q2: real, q2': real, q3: real, q3': real)
    ensures NetOf(m, w1 * p1 + w2 * q1, w1 * p1' + w2 * q1', w1 * p2 + w2 * q2, w1 * p2' + w2 * q2',
                  if m.ndim > 2 then w1 * p3 + w2 * q3 else 0.0, w1 * p3' + w2 * q3')
         == w1 * NetOf(m, p1, p1', p2, p2', p3, p3') + w2 * NetOf(m, q1, q1', q2, q2', q3, q3')
  {
  }

  // -- AddSource: circulation of the EMF around each face, per face area

  function CirculationF1(m: Mesh, e3j: real, e3: real, e2k: real, e2: real): real
    requires m.Ok()
  {
    (-m.dx3 * e3j + m.dx3 * e3 + (if m.ndim > 2 then m.dx2 * e2k - m.dx2 * e2 else 0.0)) / m.A1()
  }

  function CirculationF2(m: Mesh, e3i: real, e3: real, e1k: real, e1: real): real
    requires m.Ok()
  {
    (m.dx3 * e3i - m.dx3 * e3 + (if m.ndim > 2 then -m.dx1 * e1k + m.dx1 * e1 else 0.0)) / m.A2()
  }

  function CirculationF3(m: Mesh, e2i: real, e2: real, e1j: real, e1: real): real
    requires m.Ok()
  {
    (-m.dx2 * e2i + m.dx2 * e2 + m.dx1 * e1j - m.dx1 * e1) / m.A3()
  }

  /** The source container after AddSource: interior faces get the circulation, every other entry
      keeps whatever was left in the container. */
  function Sourced(m: Mesh, e: Field, stale: Field): Field
    requires m.Ok()
  {
    Field(
      (k, j, i) =>
        if m.FaceRange(1).Has(k, j, i)
        then CirculationF1(m, e.x3(k, j + 1, i), e.x3(k, j, i), Above(m, e.x2, k, j, i), e.x2(k, j, i))
        else stale.x1(k, j, i),
      (k, j, i) =>
        if m.FaceRange(2).Has(k, j, i)
        then CirculationF2(m, e.x3(k, j, i + 1), e.x3(k, j, i), Above(m, e.x1, k, j, i), e.x1(k, j, i))
        else stale.x2(k, j, i),
      (k, j, i) =>
        if m.FaceRange(3).Has(k, j, i)
        then CirculationF3(m, e.x2(k, j, i + 1), e.x2(k, j, i), e.x1(k, j + 1, i), e.x1(k, j, i))
        else stale.x3(k, j, i))
  }

  /** Faces of no interior zone keep what was in the container. */
  lemma SourcedElsewhere(m: Mesh, e: Field, stale: Field, k: int, j: int, i: int)
    requires m.Ok()
    ensures var s := Sourced(m, e, stale);
            var in3, in2, in1 := m.Ks() <= k <= m.Ke(), m.Js() <= j <= m.Je(), m.Is() <= i <= m.Ie();
            && (!in3 || !in2 || i < m.Is() || i > m.Ie() + 1 ==> s.x1(k, j, i) == stale.x1(k, j, i))
            && (!in3 || !in1 || j < m.Js() || j > m.Je() + 1 ==> s.x2(k, j, i) == stale.x2(k, j, i))
            && (!in2 || !in1 || k < m.Ks() || k > m.Ke() + 1 ==> s.x3(k, j, i) == stale.x3(k, j, i))
  {
    hide CirculationF1, CirculationF2, CirculationF3;
    var on1, on2, on3 := m.FaceRange(1).Has(k, j, i), m.FaceRange(2).Has(k, j, i), m.FaceRange(3).Has(k, j, i);
  }

  /** Whatever the EMF, the source has no net flux out of an interior zone. */
  lemma SourceHasNoNet(m: Mesh, e: Field, stale: Field, k: int, j: int, i: int)
    requires m.Ok() && m.Interior(k, j, i)
    ensures Net(m, Sourced(m, e, stale), k, j, i) == 0.0
  {
    m.FacesOfZone(k, j, i);
    if m.ndim > 2 {
      CirculationCloses(m, e.x1(k, j, i), e.x1(k, j + 1, i), e.x1(k + 1, j, i), e.x1(k + 1, j + 1, i),
                        e.x2(k, j, i), e.x2(k, j, i + 1), e.x2(k + 1, j, i), e.x2(k + 1, j, i + 1),
                        e.x3(k, j, i), e.x3(k, j, i + 1), e.x3(k, j + 1, i), e.x3(k, j + 1, i + 1));
    } else {
      CirculationCloses2D(m, e.x1(k, j, i), e.x1(k, j + 1, i), e.x2(k, j, i), e.x2(k, j, i + 1),
                          e.x3(k, j, i), e.x3(k, j, i + 1), e.x3(k, j + 1, i), e.x3(k, j + 1, i + 1),
                          Sourced(m, e, stale).x3(k, j, i));
    }
  }

  lemma CirculationCloses(m: Mesh, p00: real, p01: real, p10: real, p11: real,
                          q00: real, q01: real, q10: real, q11: real,
                          s00: real, s01: real, s10: real, s11: real)
    requires m.Ok() && m.ndim == 3
    ensures NetOf(m, CirculationF1(m, s11, s01, q11, q01), CirculationF1(m, s10, s00, q10, q00),
                  CirculationF2(m, s11, s10, p11, p01), CirculationF2(m, s01, s00, p10, p00),
                  CirculationF3(m, q11, q10, p11, p10), CirculationF3(m, q01, q00, p01, p00)) == 0.0
  {
  }

  lemma CirculationCloses2D(m: Mesh, p00: real, p01: real, q00: real, q01: real,
                            s00: real, s01: real, s10: real, s11: real, f3: real)
    requires m.Ok() && m.ndim == 2
    ensures NetOf(m, CirculationF1(m, s11, s01, 0.0, q01), CirculationF1(m, s10, s00, 0.0, q00),
                  CirculationF2(m, s11, s10, 0.0, p01), CirculationF2(m, s01, s00, 0.0, p00), 0.0, f3) == 0.0
  {
  }

  // -- AddStateUpdate

  /** What one stage leaves in the update container. */
  function StageUpdate(full: Field, sub: Field, src: Field, gam0: real, gam1: real, bdt: real): Field {
    WSum(WSum(sub, full, gam0, gam1), src, 1.0, bdt)
  }

  lemma NetOfStage(m: Mesh, full: Field, sub: Field, src: Field, gam0: real, gam1: real, bdt: real,
                   k: int, j: int, i: int)
    requires m.Ok()
    ensures Net(m, StageUpdate(full, sub, src, gam0, gam1, bdt), k, j, i)
         == gam0 * Net(m, sub, k, j, i) + gam1 * Net(m, full, k, j, i) + bdt * Net(m, src, k, j, i)
  {
    NetOfWSum(m, WSum(sub, full, gam0, gam1), src, 1.0, bdt, k, j, i);
    NetOfWSum(m, sub, full, gam0, gam1, k, j, i);
  }

  ghost predicate DivFree(m: Mesh, b: Field)
    requires m.Ok()
  {
    forall k, j, i | m.Interior(k, j, i) :: FaceDiv(m, b, k, j, i) == 0.0
  }

  // -- The kernels

  /** One face of the 3D curl: `p` differenced along `b`, less `q` differenced along `c`. */
  function CurlAround(b: Shift, c: Shift, db: real, dc: real, p: Scalar, q: Scalar, k: int, j: int, i: int): real
    requires db > 0.0 && dc > 0.0
  {
    CurlFace(db, dc, Mid(p(k + b.k, j + b.j, i + b.i), p(k + b.k + c.k, j + b.j + c.j, i + b.i + c.i)),
             Mid(p(k, j, i), p(k + c.k, j + c.j, i + c.i)),
             Mid(q(k + c.k, j + c.j, i + c.i), q(k + b.k + c.k, j + b.j + c.j, i + b.i + c.i)),
             Mid(q(k, j, i), q(k + b.k, j + b.j, i + b.i)))
  }

  /** The same from storage. */
  function CurlIn(b: Shift, c: Shift, db: real, dc: real, p: array3<real>, q: array3<real>, k: int, j: int,
                  i: int): real
    requires db > 0.0 && dc > 0.0
    reads p, q
  {
    CurlFace(db, dc, Mid(Peek(p, k + b.k, j + b.j, i + b.i), Peek(p, k + b.k + c.k, j + b.j + c.j, i + b.i + c.i)),
             Mid(Peek(p, k, j, i), Peek(p, k + c.k, j + c.j, i + c.i)),
             Mid(Peek(q, k + c.k, j + c.j, i + c.i), Peek(q, k + b.k + c.k, j + b.j + c.j, i + b.i + c.i)),
             Mid(Peek(q, k, j, i), Peek(q, k + b.k, j + b.j, i + b.i)))
  }

  /** The range and its neighbours a step on along `b`, `c` and both are stored. */
  predicate Ahead(m: Mesh, r: Box, b: Shift, c: Shift) {
    && 0 <= b.k && 0 <= b.j && 0 <= b.i && 0 <= c.k && 0 <= c.j && 0 <= c.i && 0 <= r.ks && 0 <= r.js && 0 <= r.iS
    && r.ke + b.k + c.k < m.M3() && r.je + b.j + c.j < m.M2() && r.iE + b.i + c.i < m.M1()
  }

  lemma CurlInIs(m: Mesh, r: Box, b: Shift, c: Shift, db: real, dc: real, p: array3<real>, q: array3<real>,
                 p0: Scalar, q0: Scalar, k: int, j: int, i: int)
    requires Stores(m, p, p0) && Stores(m, q, q0) && db > 0.0 && dc > 0.0 && Ahead(m, r, b, c) && r.Has(k, j, i)
    ensures CurlIn(b, c, db, dc, p, q, k, j, i) == CurlAround(b, c, db, dc, p0, q0, k, j, i) && m.InBounds(k, j, i)
  {
    PeekIs(m, p, p0);
    PeekIs(m, q, q0);
    hide Stores, Peek, CurlFace, Mid;
  }

  /** The curl kernel on the range of one component. */
  method CurlKernel(m: Mesh, r: Box, b: Shift, c: Shift, db: real, dc: real, p: array3<real>, q: array3<real>,
                    e: array3<real>,
                    ghost p0: Scalar, ghost q0: Scalar, ghost s: Scalar, ghost t: Scalar)
    requires m.Ok() && Stores(m, p, p0) && Stores(m, q, q0) && Stores(m, e, s) && e != p && e != q
    requires db > 0.0 && dc > 0.0 && Ahead(m, r, b, c)
    requires forall k, j, i {:trigger t(k, j, i)} ::
               t(k, j, i) == if r.Has(k, j, i) then CurlAround(b, c, db, dc, p0, q0, k, j, i) else s(k, j, i)
    modifies e
    ensures Stores(m, e, t)
  {
    forall k, j, i | r.Has(k, j, i) ensures CurlIn(b, c, db, dc, p, q, k, j, i) == t(k, j, i) && m.InBounds(k, j, i) {
      CurlInIs(m, r, b, c, db, dc, p, q, p0, q0, k, j, i);
    }
    hide Stores, CurlIn, CurlAround, Ahead;
    ParFor(m, r, e, (k, j, i) requires r.Has(k, j, i) reads p, q => CurlIn(b, c, db, dc, p, q, k, j, i), s, t);
  }

  method EdgeCurlF1(a: FieldData, b: array3<real>, ghost stale: Field)
    requires a.Valid() && Stores(a.m, b, stale.x1) && a.Apart(b)
    modifies b
    ensures Stores(a.m, b, Curled(a.m, a.contents, stale).x1)
  {
    hide Slope, CurlFace, Mid;
    var m, r, a3 := a.m, a.m.AllFaces(1), a.x3;
    ghost var e, t := a.contents, Curled(m, a.contents, stale).x1;
    assert forall k, j, i {:trigger t(k, j, i)} ::
        t(k, j, i) == if r.Has(k, j, i) then Curl1(m, e, k, j, i) else stale.x1(k, j, i);
    hide Curled;
    if m.ndim == 2 {
      ParFor(m, r, b, (k, j, i) requires r.Has(k, j, i) reads a3 =>
             Slope(a3[k, j + 1, i], a3[k, j, i], m.dx2), stale.x1, t);
    } else {
      CurlKernel(m, r, Unit(2), Unit(3), m.dx2, m.dx3, a.x3, a.x2, b, e.x3, e.x2, stale.x1, t);
    }
  }

  method EdgeCurlF2(a: FieldData, b: array3<real>, ghost stale: Field)
    requires a.Valid() && Stores(a.m, b, stale.x2) && a.Apart(b)
    modifies b
    ensures Stores(a.m, b, Curled(a.m, a.contents, stale).x2)
  {
    hide Slope, CurlFace, Mid;
    var m, r, a3 := a.m, a.m.AllFaces(2), a.x3;
    ghost var e, t := a.contents, Curled(m, a.contents, stale).x2;
    assert forall k, j, i {:trigger t(k, j, i)} ::
        t(k, j, i) == if r.Has(k, j, i) then Curl2(m, e, k, j, i) else stale.x2(k, j, i);
    hide Curled;
    if m.ndim == 2 {
      ParFor(m, r, b, (k, j, i) requires r.Has(k, j, i) reads a3 =>
             -Slope(a3[k, j, i + 1], a3[k, j, i], m.dx1), stale.x2, t);
    } else {
      CurlKernel(m, r, Unit(3), Unit(1), m.dx3, m.dx1, a.x1, a.x3, b, e.x1, e.x3, stale.x2, t);
    }
  }

  method EdgeCurlF3(a: FieldData, b: array3<real>, ghost stale: Field)
    requires a.Valid() && Stores(a.m, b, stale.x3) && a.Apart(b)
    modifies b
    ensures Stores(a.m, b, Curled(a.m, a.contents, stale).x3)
  {
    hide CurlFace, Mid;
    var m, r := a.m, a.m.AllFaces(3);
    ghost var e, t := a.contents, Curled(m, a.contents, stale).x3;
    assert forall k, j, i {:trigger t(k, j, i)} ::
        t(k, j, i) == if r.Has(k, j, i) then Curl3(m, e, k, j, i) else stale.x3(k, j, i);
    hide Curled;
    if m.ndim == 2 {
      ParFor(m, r, b, (k, j, i) => 0.0, stale.x3, t);
    } else {
      CurlKernel(m, r, Unit(1), Unit(2), m.dx1, m.dx2, a.x2, a.x1, b, e.x2, e.x1, stale.x3, t);
    }
  }

  method EdgeCurl(a: FieldData, b: FieldData)
    requires a.Valid() && b.Valid() && a.m == b.m && a.Repr() !! b.Repr()
    modifies b.Repr()
    ensures b.Valid() && b.contents == Curled(b.m, a.contents, old(b.contents))
  {
    EdgeCurlF1(a, b.x1, b.contents);
    EdgeCurlF2(a, b.x2, b.contents);
    EdgeCurlF3(a, b.x3, b.contents);
    b.contents := Curled(b.m, a.contents, b.contents);
  }

  method WeightedSumArray(m: Mesh, x: array3<real>, y: array3<real>, w1: real, w2: real, z: array3<real>,
                          ghost xs: Scalar, ghost ys: Scalar, ghost zs: Scalar)
    requires m.Ok() && Stores(m, x, xs) && Stores(m, y, ys) && Stores(m, z, zs)
    modifies z
    ensures Stores(m, z, WeightedSum(xs, ys, w1, w2))
  {
    ParFor(m, m.All(), z,
           (k, j, i) requires m.InBounds(k, j, i) && x.Length0 == m.M3() reads x, y =>
               w1 * x[k, j, i] + w2 * y[k, j, i],
           zs, WeightedSum(xs, ys, w1, w2));
  }

  /** Component by component, so that the sum is right even when `z` is `x` or `y`. */
  method WeightedSumDataFace(x: FieldData, y: FieldData, w1: real, w2: real, z: FieldData)
    requires x.Valid() && y.Valid() && z.Valid() && x.m == y.m == z.m
    requires Separate(x, z) && Separate(y, z)
    modifies z.Repr()
    ensures z.Valid() && z.contents == WSum(old(x.contents), old(y.contents), w1, w2)
  {
    WeightedSumArray(z.m, x.x1, y.x1, w1, w2, z.x1, x.contents.x1, y.contents.x1, z.contents.x1);
    WeightedSumArray(z.m, x.x2, y.x2, w1, w2, z.x2, x.contents.x2, y.contents.x2, z.contents.x2);
    WeightedSumArray(z.m, x.x3, y.x3, w1, w2, z.x3, x.contents.x3, y.contents.x3, z.contents.x3);
    z.contents := WSum(x.contents, y.contents, w1, w2);
  }

  method AddSourceF1(emf: FieldData, b: array3<real>, ghost stale: Field)
    requires emf.Valid() && Stores(emf.m, b, stale.x1) && emf.Apart(b)
    modifies b
    ensures Stores(emf.m, b, Sourced(emf.m, emf.contents, stale).x1)
  {
    hide CirculationF1;
    var m, r, e2, e3 := emf.m, emf.m.FaceRange(1), emf.x2, emf.x3;
    ParFor(m, r, b,
           (k, j, i) requires r.Has(k, j, i) reads e2, e3 =>
             CirculationF1(m, e3[k, j + 1, i], e3[k, j, i], if m.ndim > 2 then e2[k + 1, j, i] else 0.0, e2[k, j, i]),
           stale.x1, Sourced(m, emf.contents, stale).x1);
  }

  method AddSourceF2(emf: FieldData, b: array3<real>, ghost stale: Field)
    requires emf.Valid() && Stores(emf.m, b, stale.x2) && emf.Apart(b)
    modifies b
    ensures Stores(emf.m, b, Sourced(emf.m, emf.contents, stale).x2)
  {
    hide CirculationF2;
    var m, r, e1, e3 := emf.m, emf.m.FaceRange(2), emf.x1, emf.x3;
    ParFor(m, r, b,
           (k, j, i) requires r.Has(k, j, i) reads e1, e3 =>
             CirculationF2(m, e3[k, j, i + 1], e3[k, j, i], if m.ndim > 2 then e1[k + 1, j, i] else 0.0, e1[k, j, i]),
           stale.x2, Sourced(m, emf.contents, stale).x2);
  }

  method AddSourceF3(emf: FieldData, b: array3<real>, ghost stale: Field)
    requires emf.Valid() && Stores(emf.m, b, stale.x3) && emf.Apart(b)
    modifies b
    ensures Stores(emf.m, b, Sourced(emf.m, emf.contents, stale).x3)
  {
    hide CirculationF3;
    var m, r, e1, e2 := emf.m, emf.m.FaceRange(3), emf.x1, emf.x2;
    ParFor(m, r, b,
           (k, j, i) requires r.Has(k, j, i) reads e1, e2 =>
             CirculationF3(m, e2[k, j, i + 1], e2[k, j, i], e1[k, j + 1, i], e1[k, j, i]),
           stale.x3, Sourced(m, emf.contents, stale).x3);
  }

  method AddSource(emf: FieldData, dudt: FieldData)
    requires emf.Valid() && dudt.Valid() && emf.m == dudt.m && emf.Repr() !! dudt.Repr()
    modifies dudt.Repr()
    ensures dudt.Valid() && dudt.contents == Sourced(dudt.m, emf.contents, old(dudt.contents))
  {
    AddSourceF1(emf, dudt.x1, dudt.contents);
    AddSourceF2(emf, dudt.x2, dudt.contents);
    AddSourceF3(emf, dudt.x3, dudt.contents);
    dudt.contents := Sourced(dudt.m, emf.contents, dudt.contents);
  }

  method AddStateUpdate(full: FieldData, sub: FieldData, src: FieldData, update: FieldData,
                        gam0: real, gam1: real, bdt: real)
    requires full.Valid() && sub.Valid() && src.Valid() && update.Valid()
    requires full.m == sub.m == src.m == update.m
    requires Separate(full, update) && Separate(sub, update) && src.Repr() !! update.Repr()
    modifies update.Repr()
    ensures update.Valid()
    ensures update.contents == StageUpdate(old(full.contents), old(sub.contents), src.contents, gam0, gam1, bdt)
  {
    WeightedSumDataFace(sub, full, gam0, gam1, update);
    WeightedSumDataFace(update, src, 1.0, bdt, update);
  }
}
