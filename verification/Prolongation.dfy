/** The divergence-preserving prolongation of Olivares et al. 2019, as b_ct codes it: the internal
    faces of a refined zone are filled from the faces on its outside. */
module Prolongation {
  import opened Grid
  import opened FaceCT
  import opened BoundaryEMF
  import opened BoundaryClean

  /** Directions in cyclic order after `me`. */
  function Next(me: int): int { if me == 3 then 1 else me + 1 }
  function Third(me: int): int { Next(Next(me)) }

  /** 1 if an offset in direction `d` moves along axis `e` on this mesh. */
  function Unit(m: Mesh, d: int, e: int): int { if d == e && e <= m.ndim then 1 else 0 }

  /** Field times area on the face of direction `d` at (k, j, i). */
  function FluxAt(m: Mesh, b: Field, d: int, k: int, j: int, i: int): real {
    Component(b, d)(k, j, i) * Area(m, d)
  }

  /** That flux with the index shifted by `n` in direction `d`, and by one in `s` (if `v`) and `o`. */
  function FluxOff(m: Mesh, b: Field, d: int, n: int, s: int, v: bool, o: int, fk: int, fj: int, fi: int): real {
    var w := if v then 1 else 0;
    FluxAt(m, b, d, fk + n * Unit(m, d, 3) + w * Unit(m, s, 3) + Unit(m, o, 3),
                    fj + n * Unit(m, d, 2) + w * Unit(m, s, 2) + Unit(m, o, 2),
                    fi + n * Unit(m, d, 1) + w * Unit(m, s, 1) + Unit(m, o, 1))
  }

  /** The function F of the source: outflow through the faces `df` of the refined zone, differenced
      in direction `ds`, at offset `of` (0 for none). */
  function F(m: Mesh, b: Field, df: int, ds: int, of: int, fk: int, fj: int, fi: int): real {
    if df > m.ndim then 0.0
    else FluxOff(m, b, df, 2, ds, true, of, fk, fj, fi) - FluxOff(m, b, df, 0, ds, true, of, fk, fj, fi)
         - FluxOff(m, b, df, 2, ds, false, of, fk, fj, fi) + FluxOff(m, b, df, 0, ds, false, of, fk, fj, fi)
  }

  /** The coefficients a[0], a[1], a[2], here numbered by direction. */
  function A(m: Mesh, d: int): real
    requires m.Ok()
  {
    if d == 1 then Skew(m.dx2, m.dx3) else if d == 2 then Skew(m.dx3, m.dx1) else Skew(m.dx1, m.dx2)
  }

  function Skew(p: real, q: real): real
    requires p > 0.0 && q > 0.0
  {
    (Times(p, p) - Times(q, q)) / (Times(p, p) + Times(q, q))
  }

  function Times(p: real, q: real): (r: real)
    requires p > 0.0 && q > 0.0
    ensures r > 0.0
  {
    p * q
  }

  /** The four coefficients of row `row` of the table. */
  function Coeff(m: Mesh, me: int, row: int, c: int): real
    requires m.Ok()
  {
    var n, t := A(m, Next(me)), A(m, Third(me));
    if c == 0 then (if row / 2 == 0 then 3.0 + n else 1.0 - n)
    else if c == 1 then (if row / 2 == 0 then 1.0 - n else 3.0 + n)
    else if c == 2 then (if row % 2 == 0 then 3.0 - t else 1.0 + t)
    else (if row % 2 == 0 then 1.0 + t else 3.0 - t)
  }

  /** Offsets of sub-face `elem`. */
  function OffI(m: Mesh, me: int, elem: int): int {
    (if me == 2 then elem % 2 else 0) + (if me == 3 then elem / 2 else 0) + (if me == 1 then 1 else 0)
  }
  function OffJ(m: Mesh, me: int, elem: int): int {
    (if me == 3 then elem % 2 else 0) + (if me == 1 then elem / 2 else 0) + (if me == 2 then 1 else 0)
  }
  function OffK(m: Mesh, me: int, elem: int): int {
    if m.ndim > 2
    then (if me == 1 then elem % 2 else 0) + (if me == 2 then elem / 2 else 0) + (if me == 3 then 1 else 0)
    else 0
  }

  /** Mean of the two external faces on either side of the sub-face. */
  function Sides(m: Mesh, b: Field, me: int, elem: int, fk: int, fj: int, fi: int): real {
    var k, j, i := fk + OffK(m, me, elem), fj + OffJ(m, me, elem), fi + OffI(m, me, elem);
    0.5 * (FluxAt(m, b, me, k - Unit(m, me, 3), j - Unit(m, me, 2), i - Unit(m, me, 1))
           + FluxAt(m, b, me, k + Unit(m, me, 3), j + Unit(m, me, 2), i + Unit(m, me, 1)))
  }

  /** The transverse differences weighted by row `row` of the table. */
  function Weighed(m: Mesh, me: int, row: int, n0: real, n1: real, t0: real, t1: real): real
    requires m.Ok()
  {
    1.0 / 16.0 * (Coeff(m, me, row, 0) * n0 + Coeff(m, me, row, 1) * n1 + Coeff(m, me, row, 2) * t0
                  + Coeff(m, me, row, 3) * t1)
  }

  function Correction(m: Mesh, b: Field, me: int, row: int, fk: int, fj: int, fi: int): real
    requires m.Ok()
  {
    Weighed(m, me, row, F(m, b, Next(me), me, 0, fk, fj, fi), F(m, b, Next(me), me, Third(me), fk, fj, fi),
            F(m, b, Third(me), me, 0, fk, fj, fi), F(m, b, Third(me), me, Next(me), fk, fj, fi))
  }

  /** Which row of the table each sub-face uses: its own, as coded, or the one for the sub-face with
      its two offsets exchanged, so that each pair of coefficients switches with the offset of the
      differences it multiplies. */
  datatype Keying = AsCoded | Mirrored

  function RowOf(key: Keying, elem: int): int { if key == AsCoded then elem else 2 * (elem % 2) + elem / 2 }

  function SubFace(m: Mesh, key: Keying, b: Field, me: int, elem: int, fk: int, fj: int, fi: int): real
    requires m.Ok()
  {
    (Sides(m, b, me, elem, fk, fj, fi) + Correction(m, b, me, RowOf(key, elem), fk, fj, fi)) / Area(m, me)
  }

  // -- The loop over the four sub-faces, and the calls for F1, F2 and F3

  /** The faces of direction `me` inside the refined zone, by their offset from its corner, and the
      sub-face that fills each. */
  predicate Inner(m: Mesh, me: int, dk: int, dj: int, di: int) {
    && (if me == 1 then di == 1 else 0 <= di <= 1)
    && (if me == 2 then dj == 1 else 0 <= dj <= 1)
    && (if m.ndim == 2 then dk == 0 else if me == 3 then dk == 1 else 0 <= dk <= 1)
  }

  function ElemOf(me: int, dk: int, dj: int, di: int): int {
    if me == 1 then 2 * dj + dk else if me == 2 then 2 * dk + di else 2 * di + dj
  }

  /** Component `me` at (k, j, i) once the first `n` sub-faces are filled. */
  function FilledAt(m: Mesh, key: Keying, b: Field, me: int, n: int, fk: int, fj: int, fi: int, k: int, j: int,
                    i: int): real
    requires m.Ok()
  {
    if Inner(m, me, k - fk, j - fj, i - fi) && ElemOf(me, k - fk, j - fj, i - fi) < n
    then SubFace(m, key, b, me, ElemOf(me, k - fk, j - fj, i - fi), fk, fj, fi)
    else Component(b, me)(k, j, i)
  }

  function FilledTo(m: Mesh, key: Keying, b: Field, me: int, n: int, fk: int, fj: int, fi: int): Scalar
    requires m.Ok()
  {
    (k, j, i) => FilledAt(m, key, b, me, n, fk, fj, fi, k, j, i)
  }

  /** The field after the call for direction `me`. */
  function Filled(m: Mesh, key: Keying, b: Field, me: int, fk: int, fj: int, fi: int): Field
    requires m.Ok()
  {
    With(b, me, FilledTo(m, key, b, me, 4, fk, fj, fi))
  }

  function Prolonged(m: Mesh, key: Keying, b: Field, fk: int, fj: int, fi: int): Field
    requires m.Ok()
  {
    Filled(m, key, Filled(m, key, Filled(m, key, b, 1, fk, fj, fi), 2, fk, fj, fi), 3, fk, fj, fi)
  }

  /** `c` agrees with `b` on the faces outside the refined zone at (fk, fj, fi) and its siblings. */
  ghost predicate SameOutside(m: Mesh, b: Field, c: Field, fk: int, fj: int, fi: int) {
    && (forall k, j, i | i == fi || i == fi + 2 :: b.x1(k, j, i) == c.x1(k, j, i))
    && (forall k, j, i | j == fj || j == fj + 2 :: b.x2(k, j, i) == c.x2(k, j, i))
    && (forall k, j, i | m.ndim == 2 || k == fk || k == fk + 2 :: b.x3(k, j, i) == c.x3(k, j, i))
  }

  /** Flux through the face of direction `d` at `n` along it, `u` along the next direction and `v`
      along the third; and the outflow of the pair of outside faces at (u, v). */
  function Flux(m: Mesh, b: Field, d: int, n: int, u: int, v: int, fk: int, fj: int, fi: int): real {
    FluxAt(m, b, d, fk + n * Unit(m, d, 3) + u * Unit(m, Next(d), 3) + v * Unit(m, Third(d), 3),
                    fj + n * Unit(m, d, 2) + u * Unit(m, Next(d), 2) + v * Unit(m, Third(d), 2),
                    fi + n * Unit(m, d, 1) + u * Unit(m, Next(d), 1) + v * Unit(m, Third(d), 1))
  }

  function Out(m: Mesh, b: Field, d: int, u: int, v: int, fk: int, fj: int, fi: int): real {
    if d > m.ndim then 0.0 else Flux(m, b, d, 2, u, v, fk, fj, fi) - Flux(m, b, d, 0, u, v, fk, fj, fi)
  }

  lemma NextDifference(m: Mesh, b: Field, me: int, fk: int, fj: int, fi: int)
    requires m.Ok() && 1 <= me <= 3
    ensures F(m, b, Next(me), me, 0, fk, fj, fi)
         == Out(m, b, Next(me), 0, 1, fk, fj, fi) - Out(m, b, Next(me), 0, 0, fk, fj, fi)
    ensures F(m, b, Next(me), me, Third(me), fk, fj, fi)
         == Out(m, b, Next(me), 1, 1, fk, fj, fi) - Out(m, b, Next(me), 1, 0, fk, fj, fi)
  {
    hide FluxAt;
  }

  lemma ThirdDifference(m: Mesh, b: Field, me: int, fk: int, fj: int, fi: int)
    requires m.Ok() && 1 <= me <= 3
    ensures F(m, b, Third(me), me, 0, fk, fj, fi)
         == Out(m, b, Third(me), 1, 0, fk, fj, fi) - Out(m, b, Third(me), 0, 0, fk, fj, fi)
    ensures F(m, b, Third(me), me, Next(me), fk, fj, fi)
         == Out(m, b, Third(me), 1, 1, fk, fj, fi) - Out(m, b, Third(me), 0, 1, fk, fj, fi)
  {
    hide FluxAt;
  }

  lemma SidesAre(m: Mesh, b: Field, me: int, elem: int, fk: int, fj: int, fi: int)
    requires m.Ok() && 1 <= me <= 3 && 0 <= elem < 4
    ensures Sides(m, b, me, elem, fk, fj, fi)
         == 0.5 * (Flux(m, b, me, 0, elem / 2, elem % 2, fk, fj, fi)
                   + Flux(m, b, me, 2, elem / 2, elem % 2, fk, fj, fi))
  {
  }

  /** The correction as a function of the differences: `n0`, `n1` of the outflow in the next
      direction, `t0`, `t1` in the third, each at offset 0 and 1. */
  function Blend(an: real, at: real, row: int, n0: real, n1: real, t0: real, t1: real): real {
    1.0 / 16.0 * ((if row / 2 == 0 then 3.0 + an else 1.0 - an) * n0
                  + (if row / 2 == 0 then 1.0 - an else 3.0 + an) * n1
                  + (if row % 2 == 0 then 3.0 - at else 1.0 + at) * t0
                  + (if row % 2 == 0 then 1.0 + at else 3.0 - at) * t1)
  }

  lemma CorrectionIs(m: Mesh, b: Field, me: int, row: int, fk: int, fj: int, fi: int)
    requires m.Ok() && 1 <= me <= 3
    ensures Correction(m, b, me, row, fk, fj, fi)
         == Blend(A(m, Next(me)), A(m, Third(me)), row,
                  Out(m, b, Next(me), 0, 1, fk, fj, fi) - Out(m, b, Next(me), 0, 0, fk, fj, fi),
                  Out(m, b, Next(me), 1, 1, fk, fj, fi) - Out(m, b, Next(me), 1, 0, fk, fj, fi),
                  Out(m, b, Third(me), 1, 0, fk, fj, fi) - Out(m, b, Third(me), 0, 0, fk, fj, fi),
                  Out(m, b, Third(me), 1, 1, fk, fj, fi) - Out(m, b, Third(me), 0, 1, fk, fj, fi))
  {
    hide F, Out, A, Next, Third;
    NextDifference(m, b, me, fk, fj, fi);
    ThirdDifference(m, b, me, fk, fj, fi);
  }

  /** In 2D the two differences of a direction are one, and the row does not matter. */
  lemma FlatCorrectionIs(m: Mesh, b: Field, me: int, row: int, fk: int, fj: int, fi: int)
    requires m.Ok() && m.ndim == 2 && 1 <= me <= 2
    ensures Correction(m, b, me, row, fk, fj, fi)
         == (Out(m, b, Next(me), 0, 1, fk, fj, fi) - Out(m, b, Next(me), 0, 0, fk, fj, fi)
             + Out(m, b, Third(me), 1, 0, fk, fj, fi) - Out(m, b, Third(me), 0, 0, fk, fj, fi)) / 4.0
  {
    hide Correction, Blend, Out, A;
    CorrectionIs(m, b, me, row, fk, fj, fi);
    FlatOuts(m, b, fk, fj, fi);
    BlendOfEqual(A(m, Next(me)), A(m, Third(me)), row,
                 Out(m, b, Next(me), 0, 1, fk, fj, fi) - Out(m, b, Next(me), 0, 0, fk, fj, fi),
                 Out(m, b, Third(me), 1, 0, fk, fj, fi) - Out(m, b, Third(me), 0, 0, fk, fj, fi));
  }

  lemma BlendOfEqual(an: real, at: real, row: int, n: real, t: real)
    ensures Blend(an, at, row, n, n, t, t) == (n + t) / 4.0
  {
  }

  // -- Only outside faces are read

  lemma OutReadsOutside(m: Mesh, b: Field, c: Field, d: int, u: int, v: int, fk: int, fj: int, fi: int)
    requires m.Ok() && 1 <= d <= 3 && SameOutside(m, b, c, fk, fj, fi)
    ensures Flux(m, b, d, 0, u, v, fk, fj, fi) == Flux(m, c, d, 0, u, v, fk, fj, fi)
    ensures Flux(m, b, d, 2, u, v, fk, fj, fi) == Flux(m, c, d, 2, u, v, fk, fj, fi)
    ensures Out(m, b, d, u, v, fk, fj, fi) == Out(m, c, d, u, v, fk, fj, fi)
  {
  }

  lemma CorrectionReadsOutside(m: Mesh, b: Field, c: Field, me: int, row: int, fk: int, fj: int, fi: int)
    requires m.Ok() && 1 <= me <= 3 && SameOutside(m, b, c, fk, fj, fi)
    ensures Correction(m, b, me, row, fk, fj, fi) == Correction(m, c, me, row, fk, fj, fi)
  {
    hide Correction, Blend, Out, SameOutside;
    CorrectionIs(m, b, me, row, fk, fj, fi);
    CorrectionIs(m, c, me, row, fk, fj, fi);
    var n, t := Next(me), Third(me);
    OutReadsOutside(m, b, c, n, 0, 0, fk, fj, fi); OutReadsOutside(m, b, c, n, 0, 1, fk, fj, fi);
    OutReadsOutside(m, b, c, n, 1, 0, fk, fj, fi); OutReadsOutside(m, b, c, n, 1, 1, fk, fj, fi);
    OutReadsOutside(m, b, c, t, 0, 0, fk, fj, fi); OutReadsOutside(m, b, c, t, 0, 1, fk, fj, fi);
    OutReadsOutside(m, b, c, t, 1, 0, fk, fj, fi); OutReadsOutside(m, b, c, t, 1, 1, fk, fj, fi);
  }

  lemma SubFaceReadsOutside(m: Mesh, key: Keying, b: Field, c: Field, me: int, elem: int, fk: int, fj: int, fi: int)
    requires m.Ok() && 1 <= me <= 3 && 0 <= elem < 4 && SameOutside(m, b, c, fk, fj, fi)
    ensures SubFace(m, key, b, me, elem, fk, fj, fi) == SubFace(m, key, c, me, elem, fk, fj, fi)
  {
    hide Correction, Sides, Flux, SameOutside;
    CorrectionReadsOutside(m, b, c, me, RowOf(key, elem), fk, fj, fi);
    OutReadsOutside(m, b, c, me, elem / 2, elem % 2, fk, fj, fi);
    SidesAre(m, b, me, elem, fk, fj, fi);
    SidesAre(m, c, me, elem, fk, fj, fi);
  }

  lemma FillingKeepsOutside(m: Mesh, key: Keying, b: Field, me: int, fk: int, fj: int, fi: int)
    requires m.Ok() && 1 <= me <= 3
    ensures SameOutside(m, b, Filled(m, key, b, me, fk, fj, fi), fk, fj, fi)
  {
    PartFillingKeepsOutside(m, key, b, me, 4, fk, fj, fi);
  }

  lemma PartFillingKeepsOutside(m: Mesh, key: Keying, b: Field, me: int, n: int, fk: int, fj: int, fi: int)
    requires m.Ok() && 1 <= me <= 3
    ensures SameOutside(m, b, With(b, me, FilledTo(m, key, b, me, n, fk, fj, fi)), fk, fj, fi)
  {
    hide SubFace;
    forall k, j, i | (me == 1 && (i == fi || i == fi + 2)) || (me == 2 && (j == fj || j == fj + 2))
                     || (me == 3 && (m.ndim == 2 || k == fk || k == fk + 2))
      ensures FilledAt(m, key, b, me, n, fk, fj, fi, k, j, i) == Component(b, me)(k, j, i)
    {
      if me == 3 && m.ndim == 2 {
        FlatFillingIsIdle(m, key, b, n, fk, fj, fi, k, j, i);
      }
    }
  }

  /** In 2D the X3 faces are their own neighbours, and keep their value. */
  lemma FlatFillingIsIdle(m: Mesh, key: Keying, b: Field, n: int, fk: int, fj: int, fi: int, k: int, j: int, i: int)
    requires m.Ok() && m.ndim == 2
    ensures FilledAt(m, key, b, 3, n, fk, fj, fi, k, j, i) == b.x3(k, j, i)
  {
    hide SubFace;
    if Inner(m, 3, k - fk, j - fj, i - fi) {
      var elem := ElemOf(3, k - fk, j - fj, i - fi);
      FlatSubFace(m, key, b, elem, fk, fj, fi);
      assert k == fk && j == fj + elem % 2 && i == fi + elem / 2;
    }
  }

  lemma FlatSubFace(m: Mesh, key: Keying, b: Field, elem: int, fk: int, fj: int, fi: int)
    requires m.Ok() && m.ndim == 2 && 0 <= elem < 4
    ensures SubFace(m, key, b, 3, elem, fk, fj, fi) == b.x3(fk, fj + elem % 2, fi + elem / 2)
  {
    hide Correction, Sides;
    FlatCorrection(m, b, RowOf(key, elem), fk, fj, fi);
    FlatSides(m, b, elem, fk, fj, fi);
    TimesOverArea(b.x3(fk, fj + elem % 2, fi + elem / 2), Area(m, 3));
  }

  lemma TimesOverArea(x: real, a: real)
    requires a != 0.0
    ensures Product(x, a) / a == x
  {
  }

  lemma FlatSides(m: Mesh, b: Field, elem: int, fk: int, fj: int, fi: int)
    requires m.ndim == 2
    ensures Sides(m, b, 3, elem, fk, fj, fi) == Product(b.x3(fk, fj + elem % 2, fi + elem / 2), Area(m, 3))
  {
    hide Area;
  }

  function Product(x: real, y: real): real { x * y }

  lemma FlatCorrection(m: Mesh, b: Field, row: int, fk: int, fj: int, fi: int)
    requires m.Ok() && m.ndim == 2
    ensures Correction(m, b, 3, row, fk, fj, fi) == 0.0
  {
    hide F, Coeff;
    FlatF(m, b, 1, 0, fk, fj, fi); FlatF(m, b, 1, 2, fk, fj, fi);
    FlatF(m, b, 2, 0, fk, fj, fi); FlatF(m, b, 2, 1, fk, fj, fi);
  }

  /** Nothing varies in X3. */
  lemma FlatF(m: Mesh, b: Field, df: int, of: int, fk: int, fj: int, fi: int)
    requires m.ndim == 2
    ensures F(m, b, df, 3, of, fk, fj, fi) == 0.0
  {
    hide FluxAt;
  }

  // -- What each face holds in the end

  /** After all three calls an inner face holds its value computed from the field the calls started
      from, and the outside faces are as they were. */
  lemma ProlongedOutside(m: Mesh, key: Keying, b: Field, fk: int, fj: int, fi: int)
    requires m.Ok()
    ensures SameOutside(m, b, Prolonged(m, key, b, fk, fj, fi), fk, fj, fi)
  {
    hide Filled, SubFace;
    var c := Filled(m, key, b, 1, fk, fj, fi);
    var d := Filled(m, key, c, 2, fk, fj, fi);
    FillingKeepsOutside(m, key, b, 1, fk, fj, fi);
    FillingKeepsOutside(m, key, c, 2, fk, fj, fi);
    FillingKeepsOutside(m, key, d, 3, fk, fj, fi);
  }

  lemma ProlongedInside(m: Mesh, key: Keying, b: Field, me: int, fk: int, fj: int, fi: int, k: int, j: int, i: int)
    requires m.Ok() && 1 <= me <= 3 && Inner(m, me, k - fk, j - fj, i - fi)
    ensures Component(Prolonged(m, key, b, fk, fj, fi), me)(k, j, i)
         == SubFace(m, key, b, me, ElemOf(me, k - fk, j - fj, i - fi), fk, fj, fi)
  {
    hide SubFace, SameOutside;
    var elem := ElemOf(me, k - fk, j - fj, i - fi);
    var c := Filled(m, key, b, 1, fk, fj, fi);
    var d := Filled(m, key, c, 2, fk, fj, fi);
    if me == 1 {
      assert FilledAt(m, key, b, 1, 4, fk, fj, fi, k, j, i) == SubFace(m, key, b, 1, elem, fk, fj, fi);
    } else if me == 2 {
      FillingKeepsOutside(m, key, b, 1, fk, fj, fi);
      SubFaceReadsOutside(m, key, b, c, 2, elem, fk, fj, fi);
      assert FilledAt(m, key, c, 2, 4, fk, fj, fi, k, j, i) == SubFace(m, key, c, 2, elem, fk, fj, fi);
    } else {
      FillingTwiceKeepsOutside(m, key, b, fk, fj, fi);
      SubFaceReadsOutside(m, key, b, d, 3, elem, fk, fj, fi);
      assert FilledAt(m, key, d, 3, 4, fk, fj, fi, k, j, i) == SubFace(m, key, d, 3, elem, fk, fj, fi);
    }
  }

  lemma FillingTwiceKeepsOutside(m: Mesh, key: Keying, b: Field, fk: int, fj: int, fi: int)
    requires m.Ok()
    ensures SameOutside(m, b, Filled(m, key, Filled(m, key, b, 1, fk, fj, fi), 2, fk, fj, fi), fk, fj, fi)
  {
  }

  // -- Shares of the net flux

  /** Net flux out of the refined zone through its outside faces. */
  function CoarseNet(m: Mesh, b: Field, fk: int, fj: int, fi: int): real {
    OutSum(m, b, 1, fk, fj, fi) + OutSum(m, b, 2, fk, fj, fi) + OutSum(m, b, 3, fk, fj, fi)
  }

  /** Outflow in direction `d`: four pairs of fine faces in 3D, two in 2D. */
  function OutSum(m: Mesh, b: Field, d: int, fk: int, fj: int, fi: int): real {
    if m.ndim > 2 then
      Out(m, b, d, 0, 0, fk, fj, fi) + Out(m, b, d, 0, 1, fk, fj, fi) + Out(m, b, d, 1, 0, fk, fj, fi)
          + Out(m, b, d, 1, 1, fk, fj, fi)
    else if d == 1 then Out(m, b, d, 0, 0, fk, fj, fi) + Out(m, b, d, 1, 0, fk, fj, fi)
    else if d == 2 then Out(m, b, d, 0, 0, fk, fj, fi) + Out(m, b, d, 0, 1, fk, fj, fi)
    else 0.0
  }

  /** Net flux out of the fine zone at offset (r, q, p), as the kernel leaves it. */
  function FineNet(m: Mesh, key: Keying, b: Field, fk: int, fj: int, fi: int, r: int, q: int, p: int): real
    requires m.Ok()
  {
    Net(m, Prolonged(m, key, b, fk, fj, fi), fk + r, fj + q, fi + p)
  }

  function Sign(p: int): real { if p == 0 then 1.0 else -1.0 }

  /** The flux a filled face carries, and what the pair of faces of a fine zone at `s` along `d`
      carries out of it. */
  function InnerFlux(m: Mesh, key: Keying, b: Field, d: int, u: int, v: int, fk: int, fj: int, fi: int): real
    requires m.Ok()
  {
    0.5 * (Flux(m, b, d, 0, u, v, fk, fj, fi) + Flux(m, b, d, 2, u, v, fk, fj, fi))
        + Correction(m, b, d, RowOf(key, 2 * u + v), fk, fj, fi)
  }

  function Half(m: Mesh, key: Keying, b: Field, d: int, u: int, v: int, s: int, fk: int, fj: int, fi: int): real
    requires m.Ok()
  {
    if d > m.ndim then 0.0
    else 0.5 * Out(m, b, d, u, v, fk, fj, fi) + Sign(s) * Correction(m, b, d, RowOf(key, 2 * u + v), fk, fj, fi)
  }

  /** Offsets that exist on the mesh. */
  predicate Bits(m: Mesh, r: int, q: int, p: int) {
    0 <= r <= m.ndim - 2 && 0 <= q <= 1 && 0 <= p <= 1
  }

  lemma InnerOffsets(m: Mesh, d: int, u: int, v: int)
    requires m.Ok() && 1 <= d <= m.ndim && 0 <= u <= 1 && 0 <= v <= 1
    requires m.ndim == 2 ==> (d == 1 ==> v == 0) && (d == 2 ==> u == 0)
    ensures var dk := Unit(m, d, 3) + u * Unit(m, Next(d), 3) + v * Unit(m, Third(d), 3);
            var dj := Unit(m, d, 2) + u * Unit(m, Next(d), 2) + v * Unit(m, Third(d), 2);
            var di := Unit(m, d, 1) + u * Unit(m, Next(d), 1) + v * Unit(m, Third(d), 1);
            Inner(m, d, dk, dj, di) && ElemOf(d, dk, dj, di) == 2 * u + v
  {
  }

  lemma InnerHeldAt(m: Mesh, key: Keying, b: Field, d: int, u: int, v: int, fk: int, fj: int, fi: int, k: int, j: int,
                    i: int)
    requires m.Ok() && 1 <= d <= 3 && 0 <= u <= 1 && 0 <= v <= 1
    requires Inner(m, d, k - fk, j - fj, i - fi) && ElemOf(d, k - fk, j - fj, i - fi) == 2 * u + v
    ensures FluxAt(m, Prolonged(m, key, b, fk, fj, fi), d, k, j, i) == InnerFlux(m, key, b, d, u, v, fk, fj, fi)
  {
    hide Correction, Sides, Prolonged, FluxAt, Flux, Inner, ElemOf;
    assert (2 * u + v) / 2 == u && (2 * u + v) % 2 == v;
    ProlongedInside(m, key, b, d, fk, fj, fi, k, j, i);
    SidesAre(m, b, d, 2 * u + v, fk, fj, fi);
    HeldFlux(m, key, b, Prolonged(m, key, b, fk, fj, fi), d, u, v, fk, fj, fi, k, j, i);
  }

  lemma InnerFluxHeld(m: Mesh, key: Keying, b: Field, d: int, u: int, v: int, fk: int, fj: int, fi: int)
    requires m.Ok() && 1 <= d <= m.ndim && 0 <= u <= 1 && 0 <= v <= 1
    requires m.ndim == 2 ==> (d == 1 ==> v == 0) && (d == 2 ==> u == 0)
    ensures Flux(m, Prolonged(m, key, b, fk, fj, fi), d, 1, u, v, fk, fj, fi)
            == InnerFlux(m, key, b, d, u, v, fk, fj, fi)
  {
    hide InnerFlux, Prolonged, FluxAt, Inner, ElemOf;
    InnerOffsets(m, d, u, v);
    InnerHeldAt(m, key, b, d, u, v, fk, fj, fi,
                fk + Unit(m, d, 3) + u * Unit(m, Next(d), 3) + v * Unit(m, Third(d), 3),
                fj + Unit(m, d, 2) + u * Unit(m, Next(d), 2) + v * Unit(m, Third(d), 2),
                fi + Unit(m, d, 1) + u * Unit(m, Next(d), 1) + v * Unit(m, Third(d), 1));
  }

  lemma HeldFlux(m: Mesh, key: Keying, b: Field, c: Field, d: int, u: int, v: int, fk: int, fj: int, fi: int, k: int,
                 j: int, i: int)
    requires m.Ok() && 1 <= d <= 3
    requires Component(c, d)(k, j, i) == SubFace(m, key, b, d, 2 * u + v, fk, fj, fi)
    ensures FluxAt(m, c, d, k, j, i)
            == Sides(m, b, d, 2 * u + v, fk, fj, fi) + Correction(m, b, d, RowOf(key, 2 * u + v), fk, fj, fi)
  {
    hide Correction, Sides;
    assert Area(m, d) > 0.0;
  }

  lemma HalfHeld(m: Mesh, key: Keying, b: Field, d: int, u: int, v: int, s: int, fk: int, fj: int, fi: int)
    requires m.Ok() && 1 <= d <= m.ndim && 0 <= u <= 1 && 0 <= v <= 1 && 0 <= s <= 1
    requires m.ndim == 2 ==> (d == 1 ==> v == 0) && (d == 2 ==> u == 0)
    ensures var c := Prolonged(m, key, b, fk, fj, fi);
            Flux(m, c, d, s + 1, u, v, fk, fj, fi) - Flux(m, c, d, s, u, v, fk, fj, fi)
                == Half(m, key, b, d, u, v, s, fk, fj, fi)
  {
    hide Correction, Prolonged, Flux, SameOutside;
    ProlongedOutside(m, key, b, fk, fj, fi);
    OutReadsOutside(m, b, Prolonged(m, key, b, fk, fj, fi), d, u, v, fk, fj, fi);
    InnerFluxHeld(m, key, b, d, u, v, fk, fj, fi);
  }

  lemma NetByFlux(m: Mesh, c: Field, fk: int, fj: int, fi: int, r: int, q: int, p: int)
    requires m.Ok() && Bits(m, r, q, p)
    ensures Net(m, c, fk + r, fj + q, fi + p)
         == Flux(m, c, 1, p + 1, q, r, fk, fj, fi) - Flux(m, c, 1, p, q, r, fk, fj, fi)
          + Flux(m, c, 2, q + 1, r, p, fk, fj, fi) - Flux(m, c, 2, q, r, p, fk, fj, fi)
          + (if m.ndim > 2 then Flux(m, c, 3, r + 1, p, q, fk, fj, fi) - Flux(m, c, 3, r, p, q, fk, fj, fi) else 0.0)
  {
  }

  /** What the kernel leaves in a fine zone, from the outside faces alone. */
  lemma FineNetIs(m: Mesh, key: Keying, b: Field, fk: int, fj: int, fi: int, r: int, q: int, p: int)
    requires m.Ok() && Bits(m, r, q, p)
    ensures FineNet(m, key, b, fk, fj, fi, r, q, p)
         == Half(m, key, b, 1, q, r, p, fk, fj, fi) + Half(m, key, b, 2, r, p, q, fk, fj, fi)
         + Half(m, key, b, 3, p, q, r, fk, fj, fi)
  {
    hide Half, Flux, Prolonged, Net;
    NetByFlux(m, Prolonged(m, key, b, fk, fj, fi), fk, fj, fi, r, q, p);
    HalfHeld(m, key, b, 1, q, r, p, fk, fj, fi);
    HalfHeld(m, key, b, 2, r, p, q, fk, fj, fi);
    if m.ndim > 2 {
      HalfHeld(m, key, b, 3, p, q, r, fk, fj, fi);
    } else {
      NoThirdHalf(m, key, b, p, q, r, fk, fj, fi);
    }
  }

  lemma NoThirdHalf(m: Mesh, key: Keying, b: Field, u: int, v: int, s: int, fk: int, fj: int, fi: int)
    requires m.Ok() && m.ndim == 2
    ensures Half(m, key, b, 3, u, v, s, fk, fj, fi) == 0.0
  {
  }

  // -- In 2D every fine zone gets a quarter

  /** Whatever the outside faces and the spacings, each fine zone has a quarter of the net flux. */
  lemma QuarterEach(m: Mesh, key: Keying, b: Field, fk: int, fj: int, fi: int, q: int, p: int)
    requires m.Ok() && m.ndim == 2 && Bits(m, 0, q, p)
    ensures FineNet(m, key, b, fk, fj, fi, 0, q, p) == CoarseNet(m, b, fk, fj, fi) / 4.0
  {
    hide Flux, FineNet, Correction;
    FineNetIs(m, key, b, fk, fj, fi, 0, q, p);
    FlatOuts(m, b, fk, fj, fi);
    FlatCorrectionIs(m, b, 1, RowOf(key, 2 * q), fk, fj, fi);
    FlatCorrectionIs(m, b, 2, RowOf(key, p), fk, fj, fi);
  }

  lemma FlatOuts(m: Mesh, b: Field, fk: int, fj: int, fi: int)
    requires m.Ok() && m.ndim == 2
    ensures forall u {:trigger Out(m, b, 1, u, 1, fk, fj, fi)} ::
              Out(m, b, 1, u, 1, fk, fj, fi) == Out(m, b, 1, u, 0, fk, fj, fi)
    ensures forall v {:trigger Out(m, b, 2, 1, v, fk, fj, fi)} ::
              Out(m, b, 2, 1, v, fk, fj, fi) == Out(m, b, 2, 0, v, fk, fj, fi)
    ensures forall u, v {:trigger Out(m, b, 3, u, v, fk, fj, fi)} :: Out(m, b, 3, u, v, fk, fj, fi) == 0.0
  {
  }

  // -- In 3D: exactly when the cross terms balance

  /** Outflow of the four pairs of outside faces in one direction. */
  datatype Pairs = Pairs(o00: real, o01: real, o10: real, o11: real) {
    function At(u: int, v: int): real { if u == 0 then if v == 0 then o00 else o01 else if v == 0 then o10 else o11 }
    function Sum(): real { o00 + o01 + o10 + o11 }

    /** The part that is neither uniform nor linear over the face. */
    function Cross(): real { (o00 - o01 - o10 + o11) / 4.0 }
  }

  function PairsOf(m: Mesh, b: Field, d: int, fk: int, fj: int, fi: int): Pairs {
    Pairs(Out(m, b, d, 0, 0, fk, fj, fi), Out(m, b, d, 0, 1, fk, fj, fi),
          Out(m, b, d, 1, 0, fk, fj, fi), Out(m, b, d, 1, 1, fk, fj, fi))
  }

  /** Correction of an inner face from the pairs in the next and third directions. */
  function BlendOf(an: real, at: real, row: int, n: Pairs, t: Pairs): real {
    Blend(an, at, row, n.o01 - n.o00, n.o11 - n.o10, t.o10 - t.o00, t.o11 - t.o01)
  }

  /** Net flux of a fine zone from the pairs. */
  function NetFromPairs(key: Keying, a1: real, a2: real, a3: real, o1: Pairs, o2: Pairs, o3: Pairs,
                        r: int, q: int, p: int): real {
    0.5 * o1.At(q, r) + Sign(p) * BlendOf(a2, a3, RowOf(key, 2 * q + r), o2, o3)
    + (0.5 * o2.At(r, p) + Sign(q) * BlendOf(a3, a1, RowOf(key, 2 * r + p), o3, o1))
    + (0.5 * o3.At(p, q) + Sign(r) * BlendOf(a1, a2, RowOf(key, 2 * p + q), o1, o2))
  }

  lemma FineNetFromPairs(m: Mesh, key: Keying, b: Field, fk: int, fj: int, fi: int, r: int, q: int, p: int)
    requires m.Ok() && m.ndim == 3 && Bits(m, r, q, p)
    ensures FineNet(m, key, b, fk, fj, fi, r, q, p)
         == NetFromPairs(key, A(m, 1), A(m, 2), A(m, 3), PairsOf(m, b, 1, fk, fj, fi), PairsOf(m, b, 2, fk, fj, fi),
                         PairsOf(m, b, 3, fk, fj, fi), r, q, p)
  {
    hide Out, FineNet, Correction, Blend, A;
    FineNetIs(m, key, b, fk, fj, fi, r, q, p);
    CorrectionIs(m, b, 1, RowOf(key, 2 * q + r), fk, fj, fi);
    CorrectionIs(m, b, 2, RowOf(key, 2 * r + p), fk, fj, fi);
    CorrectionIs(m, b, 3, RowOf(key, 2 * p + q), fk, fj, fi);
  }

  /** How far the three cross terms are from balancing, by the pair of directions they disturb. */
  function Excess(a: real, c: real, x: real, y: real, z: real): real {
    (2.0 * x - (1.0 + a) * y - (1.0 - c) * z) / 4.0
  }

  /** The pattern the excesses `e1`, `e2`, `e3` make over the fine zones. */
  function Ripple(e1: real, e2: real, e3: real, r: int, q: int, p: int): real {
    Sign(q) * Sign(r) * e1 + Sign(p) * Sign(r) * e2 + Sign(p) * Sign(q) * e3
  }

  /** As coded, a fine zone departs from an eighth of the net flux by the three excesses. */
  lemma Departure(a1: real, a2: real, a3: real, o1: Pairs, o2: Pairs, o3: Pairs, r: int, q: int, p: int)
    requires 0 <= r <= 1 && 0 <= q <= 1 && 0 <= p <= 1
    ensures NetFromPairs(AsCoded, a1, a2, a3, o1, o2, o3, r, q, p)
         == (o1.Sum() + o2.Sum() + o3.Sum()) / 8.0
          + Ripple(Excess(a3, a2, o1.Cross(), o3.Cross(), o2.Cross()),
                   Excess(a1, a3, o2.Cross(), o1.Cross(), o3.Cross()),
                   Excess(a2, a1, o3.Cross(), o2.Cross(), o1.Cross()), r, q, p)
  {
  }

  lemma MirroredShares(a1: real, a2: real, a3: real, o1: Pairs, o2: Pairs, o3: Pairs, r: int, q: int, p: int)
    requires 0 <= r <= 1 && 0 <= q <= 1 && 0 <= p <= 1
    ensures NetFromPairs(Mirrored, a1, a2, a3, o1, o2, o3, r, q, p) == (o1.Sum() + o2.Sum() + o3.Sum()) / 8.0
  {
  }

  /** What the outside faces must satisfy: each cross term is the mean of the other two, weighted by
      the shape of the zone. */
  predicate CrossTermsBalance(m: Mesh, b: Field, fk: int, fj: int, fi: int)
    requires m.Ok()
  {
    var x1, x2, x3 :=
        PairsOf(m, b, 1, fk, fj, fi).Cross(), PairsOf(m, b, 2, fk, fj, fi).Cross(),
        PairsOf(m, b, 3, fk, fj, fi).Cross();
    Balance(A(m, 1), A(m, 2), A(m, 3), x1, x2, x3)
  }

  predicate Balance(a1: real, a2: real, a3: real, x1: real, x2: real, x3: real) {
    && 2.0 * x1 == (1.0 + a3) * x3 + (1.0 - a2) * x2
    && 2.0 * x2 == (1.0 + a1) * x1 + (1.0 - a3) * x3
    && 2.0 * x3 == (1.0 + a2) * x2 + (1.0 - a1) * x1
  }

  /** The balance solved: the cross terms of the three directions are in the ratio
      D1 (D2 + D3) : D2 (D3 + D1) : D3 (D1 + D2), where Dd is the square of the spacing. */
  predicate CrossTermsInProportion(m: Mesh, b: Field, fk: int, fj: int, fi: int)
    requires m.Ok()
  {
    var x1, x2, x3 :=
        PairsOf(m, b, 1, fk, fj, fi).Cross(), PairsOf(m, b, 2, fk, fj, fi).Cross(),
        PairsOf(m, b, 3, fk, fj, fi).Cross();
    var d1, d2, d3 := Times(m.dx1, m.dx1), Times(m.dx2, m.dx2), Times(m.dx3, m.dx3);
    Proportion(d1, d2, d3, x1, x2, x3)
  }

  predicate Proportion(d1: real, d2: real, d3: real, x1: real, x2: real, x3: real) {
    x1 * Stiff(d2, d3, d1) == x2 * Stiff(d1, d2, d3) && x2 * Stiff(d3, d1, d2) == x3 * Stiff(d2, d3, d1)
  }

  function Stiff(d: real, e: real, f: real): real { d * (e + f) }

  /** 1 + a and 1 - a of a coefficient a = (p - q) / (p + q). */
  lemma SkewShares(p: real, q: real, a: real)
    requires p > 0.0 && q > 0.0 && a == (p - q) / (p + q)
    ensures (1.0 + a) * (p + q) == 2.0 * p && (1.0 - a) * (p + q) == 2.0 * q
  {
    assert a * (p + q) == p - q;
  }

  /** One balance equation in terms of y = x / (d (e + f)). */
  lemma BalanceScaled(d: real, e: real, f: real, a: real, c: real, y: real, ye: real, yf: real, x: real, xe: real,
                      xf: real)
    requires d > 0.0 && (1.0 + a) * (d + e) == 2.0 * d && (1.0 - c) * (f + d) == 2.0 * d
    requires x == Stiff(d, e, f) * y && xe == Stiff(e, f, d) * ye && xf == Stiff(f, d, e) * yf
    ensures 2.0 * x == (1.0 + a) * xf + (1.0 - c) * xe <==> (e + f) * y == f * yf + e * ye
  {
    var u, v := 1.0 + a, 1.0 - c;
    assert u * xf == (u * (d + e)) * (f * yf);
    assert v * xe == (v * (f + d)) * (e * ye);
    assert 2.0 * x == (2.0 * d) * ((e + f) * y);
    CancelFactor(2.0 * d, (e + f) * y, f * yf + e * ye);
  }

  lemma CancelFactor(d: real, x: real, y: real)
    requires d != 0.0
    ensures d * x == d * y <==> x == y
  {
  }

  /** Three numbers each a mean of the other two are equal. */
  lemma MeansAreEqual(d1: real, d2: real, d3: real, y1: real, y2: real, y3: real)
    requires d1 > 0.0 && d2 > 0.0 && d3 > 0.0
    ensures (d2 + d3) * y1 == d3 * y3 + d2 * y2 && (d3 + d1) * y2 == d1 * y1 + d3 * y3
            && (d1 + d2) * y3 == d2 * y2 + d1 * y1
       <==> y1 == y2 && y2 == y3
  {
    if (d2 + d3) * y1 == d3 * y3 + d2 * y2 && (d3 + d1) * y2 == d1 * y1 + d3 * y3 {
      assert (d1 + d2 + d3) * (y1 - y2) == 0.0;
      assert d3 * (y1 - y3) == 0.0;
    }
  }

  /** Both conditions say that the scaled cross terms y are equal. */
  lemma BalanceByRatio(d1: real, d2: real, d3: real, a1: real, a2: real, a3: real, x1: real, x2: real, x3: real,
                       y1: real, y2: real, y3: real)
    requires d1 > 0.0 && d2 > 0.0 && d3 > 0.0
    requires (1.0 + a1) * (d2 + d3) == 2.0 * d2 && (1.0 - a1) * (d2 + d3) == 2.0 * d3
    requires (1.0 + a2) * (d3 + d1) == 2.0 * d3 && (1.0 - a2) * (d3 + d1) == 2.0 * d1
    requires (1.0 + a3) * (d1 + d2) == 2.0 * d1 && (1.0 - a3) * (d1 + d2) == 2.0 * d2
    requires x1 == Stiff(d1, d2, d3) * y1 && x2 == Stiff(d2, d3, d1) * y2 && x3 == Stiff(d3, d1, d2) * y3
    ensures Balance(a1, a2, a3, x1, x2, x3) <==> y1 == y2 && y2 == y3
  {
    hide Stiff;
    BalanceScaled(d1, d2, d3, a3, a2, y1, y2, y3, x1, x2, x3);
    BalanceScaled(d2, d3, d1, a1, a3, y2, y3, y1, x2, x3, x1);
    BalanceScaled(d3, d1, d2, a2, a1, y3, y1, y2, x3, x1, x2);
    MeansAreEqual(d1, d2, d3, y1, y2, y3);
  }

  lemma ProportionByRatio(d1: real, d2: real, d3: real, x1: real, x2: real, x3: real, y1: real, y2: real, y3: real)
    requires d1 > 0.0 && d2 > 0.0 && d3 > 0.0
    requires x1 == Stiff(d1, d2, d3) * y1 && x2 == Stiff(d2, d3, d1) * y2 && x3 == Stiff(d3, d1, d2) * y3
    ensures Proportion(d1, d2, d3, x1, x2, x3) <==> y1 == y2 && y2 == y3
  {
    PositiveStiff(d1, d2, d3); PositiveStiff(d2, d3, d1); PositiveStiff(d3, d1, d2);
    hide Stiff;
    SameRatio(Stiff(d1, d2, d3), Stiff(d2, d3, d1), y1, y2, x1, x2);
    SameRatio(Stiff(d2, d3, d1), Stiff(d3, d1, d2), y2, y3, x2, x3);
  }

  lemma BalanceSolved(d1: real, d2: real, d3: real, a1: real, a2: real, a3: real, x1: real, x2: real, x3: real)
    requires d1 > 0.0 && d2 > 0.0 && d3 > 0.0
    requires a1 == (d2 - d3) / (d2 + d3) && a2 == (d3 - d1) / (d3 + d1) && a3 == (d1 - d2) / (d1 + d2)
    ensures Balance(a1, a2, a3, x1, x2, x3) <==> Proportion(d1, d2, d3, x1, x2, x3)
  {
    SkewShares(d2, d3, a1); SkewShares(d3, d1, a2); SkewShares(d1, d2, a3);
    PositiveStiff(d1, d2, d3); PositiveStiff(d2, d3, d1); PositiveStiff(d3, d1, d2);
    hide Stiff, Balance, Proportion;
    var y1, y2, y3 := x1 / Stiff(d1, d2, d3), x2 / Stiff(d2, d3, d1), x3 / Stiff(d3, d1, d2);
    BalanceByRatio(d1, d2, d3, a1, a2, a3, x1, x2, x3, y1, y2, y3);
    ProportionByRatio(d1, d2, d3, x1, x2, x3, y1, y2, y3);
  }

  lemma PositiveStiff(d: real, e: real, f: real)
    requires d > 0.0 && e > 0.0 && f > 0.0
    ensures Stiff(d, e, f) > 0.0
  {
  }

  lemma SameRatio(s: real, t: real, y: real, z: real, v: real, w: real)
    requires s > 0.0 && t > 0.0 && v == s * y && w == t * z
    ensures v * t == w * s <==> y == z
  {
    assert v * t == (s * t) * y && w * s == (s * t) * z;
    CancelFactor(s * t, y, z);
  }

  lemma BalanceIsProportion(m: Mesh, b: Field, fk: int, fj: int, fi: int)
    requires m.Ok()
    ensures CrossTermsBalance(m, b, fk, fj, fi) <==> CrossTermsInProportion(m, b, fk, fj, fi)
  {
    hide PairsOf, Times, Balance, Proportion;
    var x1, x2, x3 :=
        PairsOf(m, b, 1, fk, fj, fi).Cross(), PairsOf(m, b, 2, fk, fj, fi).Cross(),
        PairsOf(m, b, 3, fk, fj, fi).Cross();
    BalanceSolved(Times(m.dx1, m.dx1), Times(m.dx2, m.dx2), Times(m.dx3, m.dx3), A(m, 1), A(m, 2), A(m, 3), x1, x2, x3);
  }

  /** The coefficients and the proportion in the spacings themselves. */
  lemma InSpacings(m: Mesh, b: Field, fk: int, fj: int, fi: int)
    requires m.Ok()
    ensures A(m, 1) * (m.dx2 * m.dx2 + m.dx3 * m.dx3) == m.dx2 * m.dx2 - m.dx3 * m.dx3
    ensures A(m, 2) * (m.dx3 * m.dx3 + m.dx1 * m.dx1) == m.dx3 * m.dx3 - m.dx1 * m.dx1
    ensures A(m, 3) * (m.dx1 * m.dx1 + m.dx2 * m.dx2) == m.dx1 * m.dx1 - m.dx2 * m.dx2
    ensures CrossTermsInProportion(m, b, fk, fj, fi)
            <==> Proportion(m.dx1 * m.dx1, m.dx2 * m.dx2, m.dx3 * m.dx3, PairsOf(m, b, 1, fk, fj, fi).Cross(),
                            PairsOf(m, b, 2, fk, fj, fi).Cross(), PairsOf(m, b, 3, fk, fj, fi).Cross())
  {
    hide Pairs.Cross, PairsOf, Skew, Proportion;
    SkewTimes(m.dx2, m.dx3);
    SkewTimes(m.dx3, m.dx1);
    SkewTimes(m.dx1, m.dx2);
    assert Times(m.dx1, m.dx1) == m.dx1 * m.dx1 && Times(m.dx2, m.dx2) == m.dx2 * m.dx2;
    assert Times(m.dx3, m.dx3) == m.dx3 * m.dx3;
  }

  /** The proportion written out: every product of a cross term and spacings that it compares. */
  lemma ProportionIs(d1: real, d2: real, d3: real, x1: real, x2: real, x3: real)
    ensures Proportion(d1, d2, d3, x1, x2, x3)
            <==> x1 * (d2 * (d3 + d1)) == x2 * (d1 * (d2 + d3)) && x2 * (d3 * (d1 + d2)) == x3 * (d2 * (d3 + d1))
  {
  }

  lemma SkewTimes(p: real, q: real)
    requires p > 0.0 && q > 0.0
    ensures Skew(p, q) * (p * p + q * q) == p * p - q * q
  {
    var x, y := Times(p, p), Times(q, q);
    assert x == p * p && y == q * q;
    hide Times;
    Undone(x - y, x + y);
  }

  lemma Undone(x: real, y: real)
    requires y != 0.0
    ensures x / y * y == x
  {
  }

  ghost predicate EighthEach(m: Mesh, key: Keying, b: Field, fk: int, fj: int, fi: int)
    requires m.Ok()
  {
    forall r, q, p | Bits(m, r, q, p) :: FineNet(m, key, b, fk, fj, fi, r, q, p) == CoarseNet(m, b, fk, fj, fi) / 8.0
  }

  lemma FineNetDeparts(m: Mesh, b: Field, fk: int, fj: int, fi: int, r: int, q: int, p: int)
    requires m.Ok() && m.ndim == 3 && Bits(m, r, q, p)
    ensures var x1, x2, x3 :=
            PairsOf(m, b, 1, fk, fj, fi).Cross(), PairsOf(m, b, 2, fk, fj, fi).Cross(),
            PairsOf(m, b, 3, fk, fj, fi).Cross();
            FineNet(m, AsCoded, b, fk, fj, fi, r, q, p)
            == CoarseNet(m, b, fk, fj, fi) / 8.0
               + Ripple(Excess(A(m, 3), A(m, 2), x1, x3, x2), Excess(A(m, 1), A(m, 3), x2, x1, x3),
                        Excess(A(m, 2), A(m, 1), x3, x2, x1), r, q, p)
  {
    hide A, Out, FineNet, NetFromPairs, Pairs.Cross, Excess, Ripple;
    FineNetFromPairs(m, AsCoded, b, fk, fj, fi, r, q, p);
    Departure(A(m, 1), A(m, 2), A(m, 3), PairsOf(m, b, 1, fk, fj, fi), PairsOf(m, b, 2, fk, fj, fi),
              PairsOf(m, b, 3, fk, fj, fi), r, q, p);
  }

  /** Three excesses disturb no fine zone just when all are zero. */
  lemma NoRipple(e1: real, e2: real, e3: real)
    ensures (forall r, q, p | 0 <= r <= 1 && 0 <= q <= 1 && 0 <= p <= 1 :: Ripple(e1, e2, e3, r, q, p) == 0.0)
       <==> e1 == 0.0 && e2 == 0.0 && e3 == 0.0
  {
    if forall r, q, p | 0 <= r <= 1 && 0 <= q <= 1 && 0 <= p <= 1 :: Ripple(e1, e2, e3, r, q, p) == 0.0 {
      assert Ripple(e1, e2, e3, 0, 0, 0) == 0.0 && Ripple(e1, e2, e3, 0, 0, 1) == 0.0
             && Ripple(e1, e2, e3, 0, 1, 0) == 0.0;
    }
  }

  /** The claim of the source in 3D, with the exact condition on the outside faces. */
  lemma EighthEachIff(m: Mesh, b: Field, fk: int, fj: int, fi: int)
    requires m.Ok() && m.ndim == 3
    ensures EighthEach(m, AsCoded, b, fk, fj, fi) <==> CrossTermsInProportion(m, b, fk, fj, fi)
  {
    BalanceIsProportion(m, b, fk, fj, fi);
    hide CrossTermsInProportion, A, PairsOf, FineNet, Ripple, CoarseNet, Pairs.Cross;
    var x1, x2, x3 :=
        PairsOf(m, b, 1, fk, fj, fi).Cross(), PairsOf(m, b, 2, fk, fj, fi).Cross(),
        PairsOf(m, b, 3, fk, fj, fi).Cross();
    var e1, e2, e3 :=
        Excess(A(m, 3), A(m, 2), x1, x3, x2), Excess(A(m, 1), A(m, 3), x2, x1, x3),
        Excess(A(m, 2), A(m, 1), x3, x2, x1);
    assert CrossTermsBalance(m, b, fk, fj, fi) <==> e1 == 0.0 && e2 == 0.0 && e3 == 0.0;
    hide Excess, CrossTermsBalance;
    NoRipple(e1, e2, e3);
    forall r, q, p | Bits(m, r, q, p)
      ensures FineNet(m, AsCoded, b, fk, fj, fi, r, q, p)
           == CoarseNet(m, b, fk, fj, fi) / 8.0 + Ripple(e1, e2, e3, r, q, p)
    {
      FineNetDeparts(m, b, fk, fj, fi, r, q, p);
    }
  }

  lemma CoarseNetFromPairs(m: Mesh, b: Field, fk: int, fj: int, fi: int)
    requires m.Ok() && m.ndim == 3
    ensures CoarseNet(m, b, fk, fj, fi)
         == PairsOf(m, b, 1, fk, fj, fi).Sum() + PairsOf(m, b, 2, fk, fj, fi).Sum() + PairsOf(m, b, 3, fk, fj, fi).Sum()
  {
  }

  /** Zero divergence is kept under the same condition and no other. */
  lemma RefiningDivFreeIff(m: Mesh, b: Field, fk: int, fj: int, fi: int)
    requires m.Ok() && m.ndim == 3 && CoarseNet(m, b, fk, fj, fi) == 0.0
    ensures (forall r, q, p | Bits(m, r, q, p) ::
             FaceDiv(m, Prolonged(m, AsCoded, b, fk, fj, fi), fk + r, fj + q, fi + p) == 0.0)
       <==> CrossTermsInProportion(m, b, fk, fj, fi)
  {
    hide CoarseNet, FaceDiv, Prolonged, Net, CrossTermsInProportion;
    EighthEachIff(m, b, fk, fj, fi);
    forall r, q, p | Bits(m, r, q, p)
      ensures FineNet(m, AsCoded, b, fk, fj, fi, r, q, p) == 0.0
         <==> FaceDiv(m, Prolonged(m, AsCoded, b, fk, fj, fi), fk + r, fj + q, fi + p) == 0.0
    {
      NetIsDiv(m, Prolonged(m, AsCoded, b, fk, fj, fi), fk + r, fj + q, fi + p);
    }
  }

  /** In particular when no direction has a cross term, so that a divergence-free coarse zone has
      divergence-free fine zones. */
  lemma NoCrossTermsShareEqually(m: Mesh, b: Field, fk: int, fj: int, fi: int, r: int, q: int, p: int)
    requires m.Ok() && m.ndim == 3 && Bits(m, r, q, p)
    requires forall d | 1 <= d <= 3 :: PairsOf(m, b, d, fk, fj, fi).Cross() == 0.0
    ensures FineNet(m, AsCoded, b, fk, fj, fi, r, q, p) == CoarseNet(m, b, fk, fj, fi) / 8.0
    ensures CoarseNet(m, b, fk, fj, fi) == 0.0
            ==> FaceDiv(m, Prolonged(m, AsCoded, b, fk, fj, fi), fk + r, fj + q, fi + p) == 0.0
  {
    hide PairsOf, Pairs.Cross, A, CoarseNet, FaceDiv, Prolonged, Net;
    EighthEachIff(m, b, fk, fj, fi);
    NetIsDiv(m, Prolonged(m, AsCoded, b, fk, fj, fi), fk + r, fj + q, fi + p);
  }

  /** In 2D that needs no condition. */
  lemma QuarteringKeepsDivFree(m: Mesh, key: Keying, b: Field, fk: int, fj: int, fi: int, q: int, p: int)
    requires m.Ok() && m.ndim == 2 && Bits(m, 0, q, p) && CoarseNet(m, b, fk, fj, fi) == 0.0
    ensures FaceDiv(m, Prolonged(m, key, b, fk, fj, fi), fk, fj + q, fi + p) == 0.0
  {
    hide CoarseNet, FaceDiv, Prolonged, Net;
    QuarterEach(m, key, b, fk, fj, fi, q, p);
    NetIsDiv(m, Prolonged(m, key, b, fk, fj, fi), fk, fj + q, fi + p);
  }

  /** With the rows mirrored each fine zone has an eighth, for all outside faces and spacings. */
  lemma MirroredEighthEach(m: Mesh, b: Field, fk: int, fj: int, fi: int, r: int, q: int, p: int)
    requires m.Ok() && m.ndim == 3 && Bits(m, r, q, p)
    ensures FineNet(m, Mirrored, b, fk, fj, fi, r, q, p) == CoarseNet(m, b, fk, fj, fi) / 8.0
  {
    hide A, PairsOf, FineNet, NetFromPairs, CoarseNet;
    FineNetFromPairs(m, Mirrored, b, fk, fj, fi, r, q, p);
    CoarseNetFromPairs(m, b, fk, fj, fi);
    MirroredShares(A(m, 1), A(m, 2), A(m, 3), PairsOf(m, b, 1, fk, fj, fi), PairsOf(m, b, 2, fk, fj, fi),
                   PairsOf(m, b, 3, fk, fj, fi), r, q, p);
  }

  /** So it would keep zero divergence without a condition. */
  lemma MirroringKeepsDivFree(m: Mesh, b: Field, fk: int, fj: int, fi: int, r: int, q: int, p: int)
    requires m.Ok() && m.ndim == 3 && Bits(m, r, q, p) && CoarseNet(m, b, fk, fj, fi) == 0.0
    ensures FaceDiv(m, Prolonged(m, Mirrored, b, fk, fj, fi), fk + r, fj + q, fi + p) == 0.0
  {
    hide CoarseNet, FaceDiv, Prolonged, Net;
    MirroredEighthEach(m, b, fk, fj, fi, r, q, p);
    NetIsDiv(m, Prolonged(m, Mirrored, b, fk, fj, fi), fk + r, fj + q, fi + p);
  }

  /** The claim without a condition is false: with unit spacings, whatever the zone, a field on two
      faces only. */
  lemma UnrestrictedClaimFails(m: Mesh, fk: int, fj: int, fi: int)
    requires m.Ok() && m.ndim == 3 && m.dx1 == 1.0 && m.dx2 == 1.0 && m.dx3 == 1.0
    ensures var b := Twist(fk, fj + 2, fi);
            && CoarseNet(m, b, fk, fj, fi) == 0.0
            && FineNet(m, AsCoded, b, fk, fj, fi, 0, 0, 1) == 0.25
            && FaceDiv(m, Prolonged(m, AsCoded, b, fk, fj, fi), fk, fj, fi + 1) != 0.0
  {
    hide Twist, PairsOf, Prolonged, CoarseNet, FaceDiv, Net, A, FineNet, NetFromPairs, Pairs.Sum;
    var b := Twist(fk, fj + 2, fi);
    TwistPairs(m, fk, fj, fi);
    UnitSkew(m);
    FineNetFromPairs(m, AsCoded, b, fk, fj, fi, 0, 0, 1);
    CoarseNetFromPairs(m, b, fk, fj, fi);
    TwistNets(0.0, 1.0, Pairs(0.0, 0.0, 0.0, 0.0), Pairs(-1.0, 1.0, 0.0, 0.0));
    assert FineNet(m, AsCoded, b, fk, fj, fi, 0, 0, 1) == 0.25;
    assert Net(m, Prolonged(m, AsCoded, b, fk, fj, fi), fk, fj, fi + 1) == 0.25 by { FineNetIsNet(m, b, fk, fj, fi); }
    NetIsDiv(m, Prolonged(m, AsCoded, b, fk, fj, fi), fk, fj, fi + 1);
  }

  lemma FineNetIsNet(m: Mesh, b: Field, fk: int, fj: int, fi: int)
    requires m.Ok()
    ensures FineNet(m, AsCoded, b, fk, fj, fi, 0, 0, 1) == Net(m, Prolonged(m, AsCoded, b, fk, fj, fi), fk, fj, fi + 1)
  {
    hide Prolonged, Net;
  }

  lemma EvenPairs(o: Pairs, z: real)
    requires z == 0.0 && o == Pairs(z, z, z, z)
    ensures o.Cross() == 0.0 && o.Sum() == 0.0
  {
  }

  lemma TwistedPairs(t: Pairs, x: real, z: real)
    requires z == 0.0 && t.o00 == -x && t.o01 == x && t.o10 == z && t.o11 == z
    ensures t.Cross() == -x / 2.0 && t.Sum() == 0.0
  {
  }

  /** What such pairs give, with no skew. */
  lemma TwistNets(z: real, x: real, o: Pairs, t: Pairs)
    requires z == 0.0 && o == Pairs(z, z, z, z) && t.o00 == -x && t.o01 == x && t.o10 == z && t.o11 == z
    ensures NetFromPairs(AsCoded, z, z, z, o, t, o, 0, 0, 1) == x / 4.0 && o.Sum() + t.Sum() + o.Sum() == 0.0
  {
    hide NetFromPairs, Excess, Ripple, Pairs.Cross, Pairs.Sum;
    EvenPairs(o, z);
    TwistedPairs(t, x, z);
    Departure(z, z, z, o, t, o, 0, 0, 1);
    var c, d := o.Cross(), t.Cross();
    FlatExcess(z, c, c, d); FlatExcess(z, d, c, c); FlatExcess(z, c, d, c);
    FirstRipple(Excess(z, z, c, c, d), Excess(z, z, d, c, c), Excess(z, z, c, d, c));
  }

  lemma FlatExcess(a: real, x: real, y: real, z: real)
    requires a == 0.0
    ensures Excess(a, a, x, y, z) == (2.0 * x - y - z) / 4.0
  {
  }

  lemma FirstRipple(e1: real, e2: real, e3: real)
    ensures Ripple(e1, e2, e3, 0, 0, 1) == e1 - e2 - e3
  {
  }

  lemma UnitSkew(m: Mesh)
    requires m.Ok() && m.dx1 == m.dx2 == m.dx3
    ensures A(m, 1) == 0.0 && A(m, 2) == 0.0 && A(m, 3) == 0.0
  {
  }

  /** -1 on the X2 face at (k0, j0, i0), +1 on its neighbour in X1. */
  ghost function Twist(k0: int, j0: int, i0: int): Field {
    Zero().(x2 := (k, j, i) =>
            if k == k0 && j == j0 && i == i0 then -1.0 else if k == k0 && j == j0 && i == i0 + 1 then 1.0 else 0.0)
  }

  lemma TwistPairs(m: Mesh, fk: int, fj: int, fi: int)
    requires m.Ok() && m.ndim == 3 && m.dx1 == 1.0 && m.dx2 == 1.0 && m.dx3 == 1.0
    ensures PairsOf(m, Twist(fk, fj + 2, fi), 1, fk, fj, fi) == Pairs(0.0, 0.0, 0.0, 0.0)
    ensures PairsOf(m, Twist(fk, fj + 2, fi), 2, fk, fj, fi) == Pairs(-1.0, 1.0, 0.0, 0.0)
    ensures PairsOf(m, Twist(fk, fj + 2, fi), 3, fk, fj, fi) == Pairs(0.0, 0.0, 0.0, 0.0)
  {
  }

  /** The order of the calls does not matter: two calls leave the same in either order. */
  lemma CallsCommute(m: Mesh, key: Keying, b: Field, d: int, e: int, fk: int, fj: int, fi: int, k: int, j: int, i: int)
    requires m.Ok() && 1 <= d <= 3 && 1 <= e <= 3 && d != e
    ensures Component(Filled(m, key, Filled(m, key, b, d, fk, fj, fi), e, fk, fj, fi), e)(k, j, i)
            == Component(Filled(m, key, b, e, fk, fj, fi), e)(k, j, i)
    ensures Component(Filled(m, key, Filled(m, key, b, d, fk, fj, fi), e, fk, fj, fi), d)(k, j, i)
            == Component(Filled(m, key, b, d, fk, fj, fi), d)(k, j, i)
  {
    hide SubFace, SameOutside;
    var c := Filled(m, key, b, d, fk, fj, fi);
    FillingKeepsOutside(m, key, b, d, fk, fj, fi);
    assert FilledAt(m, key, c, e, 4, fk, fj, fi, k, j, i) == FilledAt(m, key, b, e, 4, fk, fj, fi, k, j, i) by {
      if Inner(m, e, k - fk, j - fj, i - fi) {
        SubFaceReadsOutside(m, key, b, c, e, ElemOf(e, k - fk, j - fj, i - fi), fk, fj, fi);
      }
    }
  }

  // -- The kernel

  /** Sub-faces already filled do not disturb the value of the next. */
  lemma FillingReadsTheSame(m: Mesh, key: Keying, b: Field, me: int, elem: int, fk: int, fj: int, fi: int)
    requires m.Ok() && 1 <= me <= 3 && 0 <= elem < 4
    ensures SubFace(m, key, With(b, me, FilledTo(m, key, b, me, elem, fk, fj, fi)), me, elem, fk, fj, fi)
            == SubFace(m, key, b, me, elem, fk, fj, fi)
  {
    hide SubFace, SameOutside, FilledTo;
    PartFillingKeepsOutside(m, key, b, me, elem, fk, fj, fi);
    SubFaceReadsOutside(m, key, b, With(b, me, FilledTo(m, key, b, me, elem, fk, fj, fi)), me, elem, fk, fj, fi);
  }

  /** In 2D two sub-faces of F1, and of F2, are one face, and get the same value. */
  lemma TwinSubFaces(m: Mesh, key: Keying, b: Field, me: int, elem: int, other: int, fk: int, fj: int, fi: int)
    requires m.Ok() && m.ndim == 2 && 1 <= me <= 2 && 0 <= elem < 4 && 0 <= other < 4
    requires if me == 1 then elem / 2 == other / 2 else elem % 2 == other % 2
    ensures SubFace(m, key, b, me, elem, fk, fj, fi) == SubFace(m, key, b, me, other, fk, fj, fi)
  {
    hide Sides, Correction, Out;
    FlatOuts(m, b, fk, fj, fi);
    FlatCorrectionIs(m, b, me, RowOf(key, elem), fk, fj, fi);
    FlatCorrectionIs(m, b, me, RowOf(key, other), fk, fj, fi);
    SidesAre(m, b, me, elem, fk, fj, fi);
    SidesAre(m, b, me, other, fk, fj, fi);
  }

  /** One more sub-face. */
  lemma FillOneMore(m: Mesh, key: Keying, b: Field, me: int, elem: int, fk: int, fj: int, fi: int, k: int, j: int,
                    i: int)
    requires m.Ok() && 1 <= me <= 3 && 0 <= elem < 4
    ensures FilledAt(m, key, b, me, elem + 1, fk, fj, fi, k, j, i)
         == if k == fk + OffK(m, me, elem) && j == fj + OffJ(m, me, elem) && i == fi + OffI(m, me, elem)
            then SubFace(m, key, b, me, elem, fk, fj, fi) else FilledAt(m, key, b, me, elem, fk, fj, fi, k, j, i)
  {
    hide SubFace;
    if m.ndim == 2 && me != 3 && Inner(m, me, k - fk, j - fj, i - fi) && k == fk + OffK(m, me, elem)
        && j == fj + OffJ(m, me, elem) && i == fi + OffI(m, me, elem) {
      TwinSubFaces(m, key, b, me, elem, ElemOf(me, k - fk, j - fj, i - fi), fk, fj, fi);
    }
  }

  /** Storage for every face of the refined zone. */
  predicate Fits(m: Mesh, fk: int, fj: int, fi: int) {
    m.InBounds(fk, fj, fi) && m.InBounds(fk + (if m.ndim > 2 then 2 else 0), fj + 2, fi + 2)
  }

  method ReadFlux(b: FieldData, d: int, k: int, j: int, i: int) returns (x: real)
    requires b.Valid() && 1 <= d <= 3 && b.m.InBounds(k, j, i)
    ensures x == FluxAt(b.m, b.contents, d, k, j, i)
  {
    x := if d == 1 then b.x1[k, j, i] else if d == 2 then b.x2[k, j, i] else b.x3[k, j, i];
    x := x * Area(b.m, d);
  }

  method Difference(b: FieldData, df: int, ds: int, of: int, fk: int, fj: int, fi: int) returns (x: real)
    requires b.Valid() && 1 <= df <= 3 && 1 <= ds <= 3 && 0 <= of <= 3 && df != ds && df != of && ds != of
             && Fits(b.m, fk, fj, fi)
    ensures x == F(b.m, b.contents, df, ds, of, fk, fj, fi)
  {
    hide FluxAt;
    var m := b.m;
    if df > m.ndim { return 0.0; }
    var k, j, i := fk + Unit(m, of, 3), fj + Unit(m, of, 2), fi + Unit(m, of, 1);
    var k', j', i' := k + 2 * Unit(m, df, 3), j + 2 * Unit(m, df, 2), i + 2 * Unit(m, df, 1);
    var uk, uj, ui := Unit(m, ds, 3), Unit(m, ds, 2), Unit(m, ds, 1);
    var p := ReadFlux(b, df, k' + uk, j' + uj, i' + ui);
    var q := ReadFlux(b, df, k + uk, j + uj, i + ui);
    var r := ReadFlux(b, df, k', j', i');
    var s := ReadFlux(b, df, k, j, i);
    x := p - q - r + s;
  }

  method SubFaceValue(b: FieldData, me: int, elem: int, fk: int, fj: int, fi: int) returns (x: real)
    requires b.Valid() && 1 <= me <= 3 && 0 <= elem < 4 && Fits(b.m, fk, fj, fi)
    ensures x == SubFace(b.m, AsCoded, b.contents, me, elem, fk, fj, fi)
  {
    hide FluxAt, F, Weighed;
    var m := b.m;
    var k, j, i := fk + OffK(m, me, elem), fj + OffJ(m, me, elem), fi + OffI(m, me, elem);
    var low := ReadFlux(b, me, k - Unit(m, me, 3), j - Unit(m, me, 2), i - Unit(m, me, 1));
    var high := ReadFlux(b, me, k + Unit(m, me, 3), j + Unit(m, me, 2), i + Unit(m, me, 1));
    var n0 := Difference(b, Next(me), me, 0, fk, fj, fi);
    var n1 := Difference(b, Next(me), me, Third(me), fk, fj, fi);
    var t0 := Difference(b, Third(me), me, 0, fk, fj, fi);
    var t1 := Difference(b, Third(me), me, Next(me), fk, fj, fi);
    x := (0.5 * (low + high) + Weighed(m, me, elem, n0, n1, t0, t1)) / Area(m, me);
  }

  method ProlongateInternal(b: FieldData, me: int, fk: int, fj: int, fi: int)
    requires b.Valid() && 1 <= me <= 3 && Fits(b.m, fk, fj, fi)
    modifies b.Repr()
    ensures b.Valid() && b.contents == Filled(b.m, AsCoded, old(b.contents), me, fk, fj, fi)
  {
    var m := b.m;
    var a := if me == 1 then b.x1 else if me == 2 then b.x2 else b.x3;
    ghost var b0 := b.contents;
    b.contents := With(b0, me, FilledTo(m, AsCoded, b0, me, 0, fk, fj, fi));
    for elem := 0 to 4
      invariant b.Valid() && b.contents == With(b0, me, FilledTo(m, AsCoded, b0, me, elem, fk, fj, fi))
    {
      var x := SubFaceValue(b, me, elem, fk, fj, fi);
      FillingReadsTheSame(m, AsCoded, b0, me, elem, fk, fj, fi);
      StoreSubFace(m, a, b0, me, elem, fk, fj, fi, x);
      b.contents := With(b0, me, FilledTo(m, AsCoded, b0, me, elem + 1, fk, fj, fi));
    }
  }

  method StoreSubFace(m: Mesh, a: array3<real>, ghost b: Field, me: int, elem: int, fk: int, fj: int, fi: int, x: real)
    requires m.Ok() && 1 <= me <= 3 && 0 <= elem < 4 && Fits(m, fk, fj, fi)
             && Stores(m, a, FilledTo(m, AsCoded, b, me, elem, fk, fj, fi))
    requires x == SubFace(m, AsCoded, b, me, elem, fk, fj, fi)
    modifies a
    ensures Stores(m, a, FilledTo(m, AsCoded, b, me, elem + 1, fk, fj, fi))
  {
    hide SubFace, FilledAt;
    a[fk + OffK(m, me, elem), fj + OffJ(m, me, elem), fi + OffI(m, me, elem)] := x;
    forall k, j, i
      ensures FilledAt(m, AsCoded, b, me, elem + 1, fk, fj, fi, k, j, i)
           == if k == fk + OffK(m, me, elem) && j == fj + OffJ(m, me, elem) && i == fi + OffI(m, me, elem)
              then SubFace(m, AsCoded, b, me, elem, fk, fj, fi)
                  else FilledAt(m, AsCoded, b, me, elem, fk, fj, fi, k, j, i)
    {
      FillOneMore(m, AsCoded, b, me, elem, fk, fj, fi, k, j, i);
    }
  }

  /** The calls for the three face directions. */
  method ProlongateFaces(b: FieldData, fk: int, fj: int, fi: int)
    requires b.Valid() && Fits(b.m, fk, fj, fi)
    modifies b.Repr()
    ensures b.Valid() && b.contents == Prolonged(b.m, AsCoded, old(b.contents), fk, fj, fi)
  {
    hide Filled;
    ProlongateInternal(b, 1, fk, fj, fi);
    ProlongateInternal(b, 2, fk, fj, fi);
    ProlongateInternal(b, 3, fk, fj, fi);
  }
}
