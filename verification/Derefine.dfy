/** Polar derefinement of the face field (b_ct, "internal SMR").  Zones in row `l` from the inside
    of the `nl` rows next to a pole are grouped in coarse cells of 2^(l+1) zones along X3, and the
    face field is replaced by the one a coarse cell would carry. */
module Derefine {
  import opened Grid
  import opened Remainders
  import opened Sums
  import opened FaceCT
  import opened BoundaryEMF

  function Pow2(n: nat): (p: nat)
    ensures p >= 1
  {
    if n == 0 then 1 else 2 * Pow2(n - 1)
  }

  /** The mesh and the number of levels the routine is meant for: 3D, coarse cells that tile the
      X3 direction, and no more derefined rows than there are zones. */
  predicate Fits(m: Mesh, nl: int) {
    m.Ok() && m.ndim == 3 && nl >= 1 && m.n3 % Pow2(nl) == 0 && nl <= m.n2
  }

  function PoleFace(m: Mesh, inner: bool): int { if inner then m.Js() else m.Je() + 1 }

  /** X2 faces whose row is derefined. */
  predicate Row(m: Mesh, nl: int, inner: bool, j: int) {
    if inner then PoleFace(m, true) <= j <= PoleFace(m, true) + (nl - 1)
    else PoleFace(m, false) - (nl - 1) <= j <= PoleFace(m, false)
  }

  /** The zone row on the inner-domain side of such a face, and back. */
  function ZoneRow(inner: bool, j: int): int { if inner then j else j - 1 }
  function FaceOfRow(inner: bool, jc: int): int { if inner then jc else jc + 1 }

  /** +1 at the inner pole, -1 at the outer: the step away from the pole. */
  function Away(inner: bool): int { if inner then 1 else -1 }

  function Level(m: Mesh, nl: int, inner: bool, j: int): (l: int)
    ensures Row(m, nl, inner, j) ==> 0 <= l < nl
  {
    if inner then PoleFace(m, true) + (nl - 1) - j else j - (PoleFace(m, false) - (nl - 1))
  }

  /** Half the number of zones in the coarse cells of a row. */
  function Half(m: Mesh, nl: int, inner: bool, j: int): nat
    requires Row(m, nl, inner, j)
  {
    Pow2(Level(m, nl, inner, j))
  }

  /** Position of zone or face `k` in its coarse cell of `len` zones. */
  function Fine(m: Mesh, k: int, len: int): int
    requires len > 0
  {
    (k - m.ng) % len
  }

  /** Field times face area. */
  function Weighted(s: Scalar, a: real): Scalar {
    (k, j, i) => s(k, j, i) * a
  }

  /** Sum over `n` zones from `k0` along X3. */
  function Total(s: Scalar, k0: int, n: nat, j: int, i: int): real {
    Sum(Line(s, 3, 0, j, i), k0, n)
  }

  // -- What the averaging kernels compute, for the X2 face row `j`

  function Mean1(m: Mesh, nl: int, inner: bool, b: Field, k: int, j: int, i: int): real
    requires Row(m, nl, inner, j)
  {
    var len := 2 * Half(m, nl, inner, j);
    Total(Weighted(b.x1, m.A1()), k - Fine(m, k, len), len, ZoneRow(inner, j), i) / len as real
  }

  function Mean2(m: Mesh, nl: int, inner: bool, allow: bool, b: Field, k: int, j: int, i: int): real
    requires Row(m, nl, inner, j)
  {
    var len := 2 * Half(m, nl, inner, j);
    if !allow && j == PoleFace(m, inner) then 0.0
    else Total(Weighted(b.x2, m.A2()), k - Fine(m, k, len), len, j, i) / len as real
  }

  /** X3 flux at position `t` of a coarse cell with end fluxes `bs`, `be` and central flux `bc`. */
  function Interpolate(t: int, half: nat, bs: real, bc: real, be: real): real
    requires half > 0
  {
    if t == 0 then bs
    else if t == half then bc
    else if t < half then ((half - t) as real * bs + t as real * bc) / half as real
    else ((t - half) as real * be + (2 * half - t) as real * bc) / half as real
  }

  /** The central X3 flux, from the end fluxes and the X2 fluxes entering either half. */
  function Central(s: int, bs: real, be: real, left: real, right: real): real {
    (bs + be + s as real * (right - left)) / 2.0
  }

  function Inner3(m: Mesh, nl: int, inner: bool, b: Field, k: int, j: int, i: int): real
    requires Row(m, nl, inner, j)
  {
    var half := Half(m, nl, inner, j);
    var t := Fine(m, k, 2 * half);
    var w2, w3 := Weighted(b.x2, m.A2()), Weighted(b.x3, m.A3());
    var bs, be := w3(k - t, ZoneRow(inner, j), i), w3(k - t + 2 * half, ZoneRow(inner, j), i);
    var left, right := Total(w2, k - t, half, j + Away(inner), i), Total(w2, k - t + half, half, j + Away(inner), i);
    Interpolate(t, half, bs, Central(Away(inner), bs, be, left, right), be)
  }

  // -- What the write kernels leave

  function New1(m: Mesh, nl: int, inner: bool, b: Field, k: int, j: int, i: int): real
    requires m.Ok()
  {
    if Row(m, nl, inner, FaceOfRow(inner, j)) && m.Ks() <= k <= m.Ke() && m.Is() <= i <= m.Ie() + 1
    then Mean1(m, nl, inner, b, k, FaceOfRow(inner, j), i) / m.A1() else b.x1(k, j, i)
  }

  function New2(m: Mesh, nl: int, inner: bool, allow: bool, b: Field, k: int, j: int, i: int): real
    requires m.Ok()
  {
    if Row(m, nl, inner, j) && m.Ks() <= k <= m.Ke() && m.Is() <= i <= m.Ie()
    then Mean2(m, nl, inner, allow, b, k, j, i) / m.A2() else b.x2(k, j, i)
  }

  function New3(m: Mesh, nl: int, inner: bool, b: Field, k: int, j: int, i: int): real
    requires m.Ok()
  {
    if Row(m, nl, inner, FaceOfRow(inner, j)) && m.Ks() <= k <= m.Ke() + 1 && m.Is() <= i <= m.Ie()
    then Inner3(m, nl, inner, b, k, FaceOfRow(inner, j), i) / m.A3() else b.x3(k, j, i)
  }

  /** The field after derefinement at one pole. */
  function Derefined(m: Mesh, nl: int, inner: bool, allow: bool, b: Field): Field
    requires m.Ok()
  {
    Field((k, j, i) => New1(m, nl, inner, b, k, j, i),
          (k, j, i) => New2(m, nl, inner, allow, b, k, j, i),
          (k, j, i) => New3(m, nl, inner, b, k, j, i))
  }

  /** The field after DerefinePoles on a block that touches the poles given. */
  function DerefinedPoles(m: Mesh, nl: int, atInner: bool, atOuter: bool, allowInner: bool, allowOuter: bool,
                          b: Field): Field
    requires m.Ok()
  {
    var b' := if atInner then Derefined(m, nl, true, allowInner, b) else b;
    if atOuter then Derefined(m, nl, false, allowOuter, b') else b'
  }

  // -- Coarse cells

  lemma {:induction false} SmallerCellsTile(n: int, big: nat, small: nat)
    requires small <= big && n % Pow2(big) == 0
    ensures n % Pow2(small) == 0
    decreases big
  {
    if small < big {
      HalfDivides(n, Pow2(big - 1));
      SmallerCellsTile(n, big - 1, small);
    }
  }

  /** The coarse cell of an interior zone lies in the interior; the next face is the next position
      of the cell or the first of the next; and the cell splits in two cells of half the size. */
  lemma CoarseCell(m: Mesh, nl: int, inner: bool, j: int, k: int)
    requires Fits(m, nl) && Row(m, nl, inner, j) && m.Ks() <= k <= m.Ke()
    ensures var half := Half(m, nl, inner, j); var t := Fine(m, k, 2 * half);
            && 0 <= t < 2 * half && m.Ks() <= k - t && k - t + 2 * half <= m.Ke() + 1
            && Fine(m, k + 1, 2 * half) == (if t + 1 < 2 * half then t + 1 else 0)
            && Fine(m, k, half) == (if t < half then t else t - half)
  {
    SmallerCellsTile(m.n3, nl, Level(m, nl, inner, j) + 1);
    CellOf(k - m.ng, m.n3, Half(m, nl, inner, j));
  }

  /** A step along X3 inside a coarse cell changes the X3 flux by the same amount throughout a half. */
  lemma InterpolationStep(t: int, half: nat, bs: real, bc: real, be: real)
    requires half > 0 && 0 <= t < 2 * half
    ensures (if t + 1 < 2 * half then Interpolate(t + 1, half, bs, bc, be) else be) - Interpolate(t, half, bs, bc, be)
         == (if t < half then bc - bs else be - bc) / half as real
  {
  }

  // -- The theorem

  function NetLine(m: Mesh, b: Field, j: int, i: int): int -> real {
    k => Net(m, b, k, j, i)
  }

  /** Mean net flux of the zones of the coarse cell of zone (k, jc, i). */
  function CellMeanNet(m: Mesh, nl: int, inner: bool, b: Field, k: int, jc: int, i: int): real
    requires Row(m, nl, inner, FaceOfRow(inner, jc))
  {
    var len := 2 * Half(m, nl, inner, FaceOfRow(inner, jc));
    Sum(NetLine(m, b, jc, i), k - Fine(m, k, len), len) / len as real
  }

  /** Mean flux through the polar face of that coarse cell which the routine discards. */
  function Discarded(m: Mesh, nl: int, inner: bool, allow: bool, b: Field, k: int, jc: int, i: int): real
    requires Row(m, nl, inner, FaceOfRow(inner, jc))
  {
    var j := FaceOfRow(inner, jc);
    var len := 2 * Half(m, nl, inner, j);
    if allow || j != PoleFace(m, inner) then 0.0
    else Total(Weighted(b.x2, m.A2()), k - Fine(m, k, len), len, j, i) / len as real
  }

  /** Sums of the weighted fluxes over a run of zones make up the sum of their net fluxes. */
  lemma {:induction false} SumOfNet(m: Mesh, b: Field, j: int, i: int, k0: int, n: nat)
    requires m.ndim == 3
    ensures var w1, w2, w3 := Weighted(b.x1, m.A1()), Weighted(b.x2, m.A2()), Weighted(b.x3, m.A3());
            Sum(NetLine(m, b, j, i), k0, n)
            == Total(w1, k0, n, j, i + 1) - Total(w1, k0, n, j, i)
               + Total(w2, k0, n, j + 1, i) - Total(w2, k0, n, j, i)
               + w3(k0 + n, j, i) - w3(k0, j, i)
  {
    if n > 0 {
      SumOfNet(m, b, j, i, k0, n - 1);
      var k := k0 + n - 1;
      assert NetLine(m, b, j, i)(k) == Net(m, b, k, j, i);
      NetOfWeighted(m, b, k, j, i);
    }
  }

  lemma NetOfWeighted(m: Mesh, b: Field, k: int, j: int, i: int)
    requires m.ndim == 3
    ensures var w1, w2, w3 := Weighted(b.x1, m.A1()), Weighted(b.x2, m.A2()), Weighted(b.x3, m.A3());
            Net(m, b, k, j, i)
                == w1(k, j, i + 1) - w1(k, j, i) + w2(k, j + 1, i) - w2(k, j, i) + w3(k + 1, j, i) - w3(k, j, i)
  {
  }

  /** The X2 flux on the inner-domain side of a derefined row, which is already uniform over each
      half of the coarse cell: the mean over the half `k` lies in. */
  lemma InnerSideFlux(m: Mesh, nl: int, inner: bool, allow: bool, b: Field, k: int, j: int, i: int)
    requires Fits(m, nl) && Row(m, nl, inner, j) && m.Ks() <= k <= m.Ke() && m.Is() <= i <= m.Ie()
    ensures var half := Half(m, nl, inner, j); var t := Fine(m, k, 2 * half);
            New2(m, nl, inner, allow, b, k, j + Away(inner), i) * m.A2()
            == Total(Weighted(b.x2, m.A2()), if t < half then k - t else k - t + half, half,
                     j + Away(inner), i) / half as real
  {
    hide Weighted, Total, Mean2, New2, Fine;
    CoarseCell(m, nl, inner, j, k);
    var half, j' := Half(m, nl, inner, j), j + Away(inner);
    var w2, t := Weighted(b.x2, m.A2()), Fine(m, k, 2 * half);
    var k0 := if t < half then k - t else k - t + half;
    assert k0 == k - Fine(m, k, half);
    if Level(m, nl, inner, j) == 0 {
      assert half == 1 && k0 == k;
      TotalOfOne(w2, k, j', i);
      UntouchedFlux2(m, nl, inner, allow, b, k, j', i);
    } else {
      assert Level(m, nl, inner, j') == Level(m, nl, inner, j) - 1;
      assert 2 * Half(m, nl, inner, j') == half;
      RowFlux2(m, nl, inner, allow, b, k, j', i);
    }
  }

  lemma UntouchedFlux2(m: Mesh, nl: int, inner: bool, allow: bool, b: Field, k: int, j: int, i: int)
    requires m.Ok() && !Row(m, nl, inner, j)
    ensures New2(m, nl, inner, allow, b, k, j, i) * m.A2() == Weighted(b.x2, m.A2())(k, j, i)
  {
  }

  lemma RowFlux2(m: Mesh, nl: int, inner: bool, allow: bool, b: Field, k: int, j: int, i: int)
    requires m.Ok() && Row(m, nl, inner, j) && m.Ks() <= k <= m.Ke() && m.Is() <= i <= m.Ie() && j != PoleFace(m, inner)
    ensures var len := 2 * Half(m, nl, inner, j);
            New2(m, nl, inner, allow, b, k, j, i) * m.A2()
            == Total(Weighted(b.x2, m.A2()), k - Fine(m, k, len), len, j, i) / len as real
  {
  }

  lemma TotalOfOne(s: Scalar, k: int, j: int, i: int)
    ensures Total(s, k, 1, j, i) == s(k, j, i)
  {
    SumOne(Line(s, 3, 0, j, i), k);
  }

  lemma TimesOver(x: real, a: real)
    requires a != 0.0
    ensures (x / a) * a == x && (x * a) / a == x
  {
  }

  lemma NewFlux1(m: Mesh, nl: int, inner: bool, allow: bool, b: Field, k: int, jc: int, i: int)
    requires m.Ok() && Row(m, nl, inner, FaceOfRow(inner, jc)) && m.Ks() <= k <= m.Ke() && m.Is() <= i <= m.Ie() + 1
    ensures Weighted(Derefined(m, nl, inner, allow, b).x1, m.A1())(k, jc, i)
         == Mean1(m, nl, inner, b, k, FaceOfRow(inner, jc), i)
  {
  }

  lemma NewFlux2(m: Mesh, nl: int, inner: bool, allow: bool, b: Field, k: int, j: int, i: int)
    requires m.Ok() && Row(m, nl, inner, j) && m.Ks() <= k <= m.Ke() && m.Is() <= i <= m.Ie()
    ensures Weighted(Derefined(m, nl, inner, allow, b).x2, m.A2())(k, j, i) == Mean2(m, nl, inner, allow, b, k, j, i)
  {
  }

  lemma NewFlux3(m: Mesh, nl: int, inner: bool, allow: bool, b: Field, k: int, jc: int, i: int)
    requires m.Ok() && Row(m, nl, inner, FaceOfRow(inner, jc)) && m.Ks() <= k <= m.Ke() + 1 && m.Is() <= i <= m.Ie()
    ensures Weighted(Derefined(m, nl, inner, allow, b).x3, m.A3())(k, jc, i)
         == Inner3(m, nl, inner, b, k, FaceOfRow(inner, jc), i)
  {
    hide Inner3;
    assert Derefined(m, nl, inner, allow, b).x3(k, jc, i) == New3(m, nl, inner, b, k, jc, i);
    TimesOver(Inner3(m, nl, inner, b, k, FaceOfRow(inner, jc), i), m.A3());
  }

  /** The two X3 fluxes of a derefined zone differ by the same amount throughout a half cell. */
  lemma StepOfFlux3(m: Mesh, nl: int, inner: bool, b: Field, k: int, j: int, i: int)
    requires Fits(m, nl) && Row(m, nl, inner, j) && m.Ks() <= k <= m.Ke()
    ensures var half, jc := Half(m, nl, inner, j), ZoneRow(inner, j); var t := Fine(m, k, 2 * half);
            var w2, w3 := Weighted(b.x2, m.A2()), Weighted(b.x3, m.A3());
            var bs, be := w3(k - t, jc, i), w3(k - t + 2 * half, jc, i);
            var left, right :=
                Total(w2, k - t, half, j + Away(inner), i), Total(w2, k - t + half, half, j + Away(inner), i);
            var bc := Central(Away(inner), bs, be, left, right);
            Inner3(m, nl, inner, b, k + 1, j, i) - Inner3(m, nl, inner, b, k, j, i)
            == (if t < half then bc - bs else be - bc) / half as real
  {
    hide Interpolate, Central, Total, Weighted;
    CoarseCell(m, nl, inner, j, k);
    var half, jc := Half(m, nl, inner, j), ZoneRow(inner, j);
    var t := Fine(m, k, 2 * half);
    var w2, w3 := Weighted(b.x2, m.A2()), Weighted(b.x3, m.A3());
    var bs, be := w3(k - t, jc, i), w3(k - t + 2 * half, jc, i);
    var left, right := Total(w2, k - t, half, j + Away(inner), i), Total(w2, k - t + half, half, j + Away(inner), i);
    var bc := Central(Away(inner), bs, be, left, right);
    InterpolationStep(t, half, bs, bc, be);
    if t + 1 < 2 * half {
      assert k + 1 - (t + 1) == k - t;
    } else {
      assert k - t + 2 * half == k + 1;
      CellStartKeepsFlux3(m, nl, inner, b, k + 1, j, i);
    }
  }

  lemma CellStartKeepsFlux3(m: Mesh, nl: int, inner: bool, b: Field, k: int, j: int, i: int)
    requires Row(m, nl, inner, j) && Fine(m, k, 2 * Half(m, nl, inner, j)) == 0
    ensures Inner3(m, nl, inner, b, k, j, i) == Weighted(b.x3, m.A3())(k, ZoneRow(inner, j), i)
  {
  }

  /** Net flux of a derefined zone in terms of the sums over its coarse cell. */
  function Spread(s: int, h: real, len: real, t1p: real, t1: real, left: real, right: real, p': real,
                  bs: real, be: real, inLeft: bool): real
    requires h > 0.0 && len > 0.0
  {
    var bc := Central(s, bs, be, left, right);
    t1p / len - t1 / len + s as real * ((if inLeft then left else right) / h - p' / len)
    + (if inLeft then bc - bs else be - bc) / h
  }

  lemma Assemble(s: int, h: real, len: real, t1p: real, t1: real, left: real, right: real, p: real, p': real,
                 bs: real, be: real, inLeft: bool)
    requires h > 0.0 && len == 2.0 * h && (s == 1 || s == -1)
    ensures Spread(s, h, len, t1p, t1, left, right, p', bs, be, inLeft)
            == (t1p - t1 + s as real * ((left + right) - p) + be - bs) / len + s as real * (p / len - p' / len)
  {
  }

  lemma NetOfDerefined(m: Mesh, nl: int, inner: bool, allow: bool, b: Field, k: int, jc: int, i: int)
    requires Fits(m, nl) && m.Interior(k, jc, i) && Row(m, nl, inner, FaceOfRow(inner, jc))
    ensures var j := FaceOfRow(inner, jc);
            Net(m, Derefined(m, nl, inner, allow, b), k, jc, i)
            == Mean1(m, nl, inner, b, k, j, i + 1) - Mean1(m, nl, inner, b, k, j, i)
               + Away(inner) as real * (New2(m, nl, inner, allow, b, k, j + Away(inner), i) * m.A2()
                                        - Mean2(m, nl, inner, allow, b, k, j, i))
               + Inner3(m, nl, inner, b, k + 1, j, i) - Inner3(m, nl, inner, b, k, j, i)
  {
    hide Weighted, Derefined, Mean1, Mean2, Inner3, New2, Net;
    var d, j := Derefined(m, nl, inner, allow, b), FaceOfRow(inner, jc);
    NetOfWeighted(m, d, k, jc, i);
    NewFlux1(m, nl, inner, allow, b, k, jc, i);
    NewFlux1(m, nl, inner, allow, b, k, jc, i + 1);
    NewFlux2(m, nl, inner, allow, b, k, j, i);
    DerefinedAt(m, nl, inner, allow, b, k, j + Away(inner), i);
    NewFlux3(m, nl, inner, allow, b, k, jc, i);
    NewFlux3(m, nl, inner, allow, b, k + 1, jc, i);
  }

  lemma MeanNetOfCell(m: Mesh, nl: int, inner: bool, b: Field, k: int, jc: int, i: int)
    requires Fits(m, nl) && m.Interior(k, jc, i) && Row(m, nl, inner, FaceOfRow(inner, jc))
    ensures var j := FaceOfRow(inner, jc); var jo, half := j + Away(inner), Half(m, nl, inner, j);
            var k0 := k - Fine(m, k, 2 * half);
            var w1, w2, w3 := Weighted(b.x1, m.A1()), Weighted(b.x2, m.A2()), Weighted(b.x3, m.A3());
            CellMeanNet(m, nl, inner, b, k, jc, i)
            == (Total(w1, k0, 2 * half, jc, i + 1) - Total(w1, k0, 2 * half, jc, i)
                + Away(inner) as real * ((Total(w2, k0, half, jo, i) + Total(w2, k0 + half, half, jo, i))
                                         - Total(w2, k0, 2 * half, j, i))
                + w3(k0 + 2 * half, jc, i) - w3(k0, jc, i)) / (2 * half) as real
  {
    hide Weighted, Total, NetLine;
    var j := FaceOfRow(inner, jc);
    var half := Half(m, nl, inner, j);
    var k0 := k - Fine(m, k, 2 * half);
    SumOfNet(m, b, jc, i, k0, 2 * half);
    TotalSplits(Weighted(b.x2, m.A2()), k0, half, half, j + Away(inner), i);
  }

  lemma NetInTotals(m: Mesh, nl: int, inner: bool, allow: bool, b: Field, k: int, jc: int, i: int)
    requires Fits(m, nl) && m.Interior(k, jc, i) && Row(m, nl, inner, FaceOfRow(inner, jc))
    ensures var j := FaceOfRow(inner, jc); var jo, half := j + Away(inner), Half(m, nl, inner, j);
            var t := Fine(m, k, 2 * half); var k0 := k - t;
            var w1, w2, w3 := Weighted(b.x1, m.A1()), Weighted(b.x2, m.A2()), Weighted(b.x3, m.A3());
            Net(m, Derefined(m, nl, inner, allow, b), k, jc, i)
            == Spread(Away(inner), half as real, (2 * half) as real,
                      Total(w1, k0, 2 * half, jc, i + 1), Total(w1, k0, 2 * half, jc, i),
                      Total(w2, k0, half, jo, i), Total(w2, k0 + half, half, jo, i),
                      if !allow && j == PoleFace(m, inner) then 0.0 else Total(w2, k0, 2 * half, j, i),
                      w3(k0, jc, i), w3(k0 + 2 * half, jc, i), t < half)
  {
    hide Weighted, Derefined, Inner3, Total, New2, Central, Net, Fine;
    var j := FaceOfRow(inner, jc);
    NetOfDerefined(m, nl, inner, allow, b, k, jc, i);
    InnerSideFlux(m, nl, inner, allow, b, k, j, i);
    StepOfFlux3(m, nl, inner, b, k, j, i);
  }

  /** Derefinement gives every zone of a coarse cell the mean net flux of the cell, but for the
      polar flux it discards. */
  lemma DerefinedNetIsMean(m: Mesh, nl: int, inner: bool, allow: bool, b: Field, k: int, jc: int, i: int)
    requires Fits(m, nl) && m.Interior(k, jc, i) && Row(m, nl, inner, FaceOfRow(inner, jc))
    ensures Net(m, Derefined(m, nl, inner, allow, b), k, jc, i)
         == CellMeanNet(m, nl, inner, b, k, jc, i) + Away(inner) as real * Discarded(m, nl, inner, allow, b, k, jc, i)
  {
    hide Weighted, Derefined, Total, Spread, Net, CellMeanNet, Fine;
    var j := FaceOfRow(inner, jc);
    var jo, half := j + Away(inner), Half(m, nl, inner, j);
    var t := Fine(m, k, 2 * half);
    var k0 := k - t;
    var w1, w2, w3 := Weighted(b.x1, m.A1()), Weighted(b.x2, m.A2()), Weighted(b.x3, m.A3());
    NetInTotals(m, nl, inner, allow, b, k, jc, i);
    MeanNetOfCell(m, nl, inner, b, k, jc, i);
    Assemble(Away(inner), half as real, (2 * half) as real,
             Total(w1, k0, 2 * half, jc, i + 1), Total(w1, k0, 2 * half, jc, i),
             Total(w2, k0, half, jo, i), Total(w2, k0 + half, half, jo, i),
             Total(w2, k0, 2 * half, j, i),
             if !allow && j == PoleFace(m, inner) then 0.0 else Total(w2, k0, 2 * half, j, i),
             w3(k0, jc, i), w3(k0 + 2 * half, jc, i), t < half);
  }

  lemma DerefinedAt(m: Mesh, nl: int, inner: bool, allow: bool, b: Field, k: int, j: int, i: int)
    requires m.Ok()
    ensures Weighted(Derefined(m, nl, inner, allow, b).x2, m.A2())(k, j, i)
            == New2(m, nl, inner, allow, b, k, j, i) * m.A2()
  {
  }

  lemma TotalSplits(s: Scalar, k0: int, n: nat, p: nat, j: int, i: int)
    ensures Total(s, k0, n + p, j, i) == Total(s, k0, n, j, i) + Total(s, k0 + n, p, j, i)
  {
    SumSplit(Line(s, 3, 0, j, i), k0, n, p);
  }

  /** Zones outside the derefined rows keep their net flux. */
  lemma OtherZonesKeepNet(m: Mesh, nl: int, inner: bool, allow: bool, b: Field, k: int, jc: int, i: int)
    requires Fits(m, nl) && m.Interior(k, jc, i) && !Row(m, nl, inner, FaceOfRow(inner, jc))
    ensures Net(m, Derefined(m, nl, inner, allow, b), k, jc, i) == Net(m, b, k, jc, i)
  {
  }

  /** No flux through the interior part of a polar face. */
  ghost predicate PoleClosed(m: Mesh, inner: bool, b: Field) {
    forall k, i | m.Ks() <= k <= m.Ke() && m.Is() <= i <= m.Ie() :: b.x2(k, PoleFace(m, inner), i) == 0.0
  }

  /** The mean polar flux of every coarse cell at the pole is zero or kept. */
  ghost predicate NothingDiscarded(m: Mesh, nl: int, inner: bool, allow: bool, b: Field)
    requires Fits(m, nl)
  {
    forall k, i | m.Ks() <= k <= m.Ke() && m.Is() <= i <= m.Ie() ::
      Discarded(m, nl, inner, allow, b, k, ZoneRow(inner, PoleFace(m, inner)), i) == 0.0
  }

  lemma MeanOfDivFree(m: Mesh, nl: int, inner: bool, b: Field, k: int, jc: int, i: int)
    requires Fits(m, nl) && m.Interior(k, jc, i) && Row(m, nl, inner, FaceOfRow(inner, jc)) && DivFree(m, b)
    ensures CellMeanNet(m, nl, inner, b, k, jc, i) == 0.0
  {
    var j := FaceOfRow(inner, jc);
    var len := 2 * Half(m, nl, inner, j);
    CoarseCell(m, nl, inner, j, k);
    var k0 := k - Fine(m, k, len);
    forall x | k0 <= x < k0 + len ensures NetLine(m, b, jc, i)(x) == 0.0 {
      assert m.Interior(x, jc, i);
      NetIsDiv(m, b, x, jc, i);
    }
    SumConst(NetLine(m, b, jc, i), 0.0, k0, len);
  }

  lemma NetAfterDerefine(m: Mesh, nl: int, inner: bool, allow: bool, b: Field, k: int, j: int, i: int)
    requires Fits(m, nl) && DivFree(m, b) && m.Interior(k, j, i)
    ensures FaceDiv(m, Derefined(m, nl, inner, allow, b), k, j, i) == 0.0 <==>
            (Row(m, nl, inner, FaceOfRow(inner, j)) ==> Discarded(m, nl, inner, allow, b, k, j, i) == 0.0)
  {
    hide Derefined, Discarded, Net, FaceDiv;
    NetIsDiv(m, Derefined(m, nl, inner, allow, b), k, j, i);
    if Row(m, nl, inner, FaceOfRow(inner, j)) {
      DerefinedNetIsMean(m, nl, inner, allow, b, k, j, i);
      MeanOfDivFree(m, nl, inner, b, k, j, i);
    } else {
      OtherZonesKeepNet(m, nl, inner, allow, b, k, j, i);
      assert FaceDiv(m, b, k, j, i) == 0.0;
      NetIsDiv(m, b, k, j, i);
    }
  }

  /** Derefinement of a divergence-free field is divergence-free exactly when it discards no polar
      flux of any coarse cell. */
  lemma DerefineDivFreeIff(m: Mesh, nl: int, inner: bool, allow: bool, b: Field)
    requires Fits(m, nl) && DivFree(m, b)
    ensures DivFree(m, Derefined(m, nl, inner, allow, b)) <==> NothingDiscarded(m, nl, inner, allow, b)
  {
    hide Derefined, FaceDiv;
    var d, jp := Derefined(m, nl, inner, allow, b), ZoneRow(inner, PoleFace(m, inner));
    forall k, j, i | m.Interior(k, j, i)
      ensures FaceDiv(m, d, k, j, i) == 0.0 <==>
              (Row(m, nl, inner, FaceOfRow(inner, j)) ==> Discarded(m, nl, inner, allow, b, k, j, i) == 0.0)
    {
      NetAfterDerefine(m, nl, inner, allow, b, k, j, i);
    }
    assert forall k, i | m.Ks() <= k <= m.Ke() && m.Is() <= i <= m.Ie() :: m.Interior(k, jp, i);
  }

  lemma ClosedPoleDiscardsNothing(m: Mesh, nl: int, inner: bool, allow: bool, b: Field)
    requires Fits(m, nl) && (allow || PoleClosed(m, inner, b))
    ensures NothingDiscarded(m, nl, inner, allow, b)
  {
    var j := PoleFace(m, inner);
    forall k, i | m.Ks() <= k <= m.Ke() && m.Is() <= i <= m.Ie()
      ensures Discarded(m, nl, inner, allow, b, k, ZoneRow(inner, j), i) == 0.0
    {
      if !allow {
        var len := 2 * Half(m, nl, inner, j);
        CoarseCell(m, nl, inner, j, k);
        SumConst(Line(Weighted(b.x2, m.A2()), 3, 0, j, i), 0.0, k - Fine(m, k, len), len);
      }
    }
  }

  /** A closed pole stays closed, at this pole and at the other. */
  lemma DerefineKeepsPolesClosed(m: Mesh, nl: int, inner: bool, allow: bool, b: Field, pole: bool)
    requires Fits(m, nl) && PoleClosed(m, pole, b)
    ensures PoleClosed(m, pole, Derefined(m, nl, inner, allow, b))
  {
    hide Mean2;
    var d, j := Derefined(m, nl, inner, allow, b), PoleFace(m, pole);
    forall k, i | m.Ks() <= k <= m.Ke() && m.Is() <= i <= m.Ie() ensures d.x2(k, j, i) == 0.0 {
      assert d.x2(k, j, i) == New2(m, nl, inner, allow, b, k, j, i);
      if pole == inner {
        ClosedPoleMeanIsZero(m, nl, inner, allow, b, k, i);
      }
    }
  }

  lemma ClosedPoleMeanIsZero(m: Mesh, nl: int, inner: bool, allow: bool, b: Field, k: int, i: int)
    requires Fits(m, nl) && PoleClosed(m, inner, b) && m.Ks() <= k <= m.Ke() && m.Is() <= i <= m.Ie()
    ensures Mean2(m, nl, inner, allow, b, k, PoleFace(m, inner), i) == 0.0
  {
    var j := PoleFace(m, inner);
    var len := 2 * Half(m, nl, inner, j);
    CoarseCell(m, nl, inner, j, k);
    SumConst(Line(Weighted(b.x2, m.A2()), 3, 0, j, i), 0.0, k - Fine(m, k, len), len);
  }

  /** Derefinement at both poles keeps the field divergence-free and its closed poles closed. */
  lemma DerefinePolesKeepsDivFree(m: Mesh, nl: int, atInner: bool, atOuter: bool, allowInner: bool, allowOuter: bool,
                                  b: Field)
    requires Fits(m, nl) && DivFree(m, b)
    requires atInner ==> allowInner || PoleClosed(m, true, b)
    requires atOuter ==> allowOuter || PoleClosed(m, false, b)
    ensures var d := DerefinedPoles(m, nl, atInner, atOuter, allowInner, allowOuter, b);
            && DivFree(m, d)
            && (PoleClosed(m, true, b) ==> PoleClosed(m, true, d))
            && (PoleClosed(m, false, b) ==> PoleClosed(m, false, d))
  {
    hide Derefined, PoleClosed, DivFree;
    var b' := if atInner then Derefined(m, nl, true, allowInner, b) else b;
    if atInner { DerefineKeeps(m, nl, true, allowInner, b); }
    if atOuter { DerefineKeeps(m, nl, false, allowOuter, b'); }
  }

  lemma DerefineKeeps(m: Mesh, nl: int, inner: bool, allow: bool, b: Field)
    requires Fits(m, nl) && DivFree(m, b) && (allow || PoleClosed(m, inner, b))
    ensures var d := Derefined(m, nl, inner, allow, b);
            && DivFree(m, d)
            && (PoleClosed(m, true, b) ==> PoleClosed(m, true, d))
            && (PoleClosed(m, false, b) ==> PoleClosed(m, false, d))
  {
    hide Derefined, PoleClosed, DivFree;
    ClosedPoleDiscardsNothing(m, nl, inner, allow, b);
    DerefineDivFreeIff(m, nl, inner, allow, b);
    if PoleClosed(m, true, b) { DerefineKeepsPolesClosed(m, nl, inner, allow, b, true); }
    if PoleClosed(m, false, b) { DerefineKeepsPolesClosed(m, nl, inner, allow, b, false); }
  }

  // -- Conservation and idempotence

  lemma PositionInCell(m: Mesh, len: int, k0: int, x: int)
    requires len > 0 && Fine(m, k0, len) == 0 && k0 <= x < k0 + len
    ensures Fine(m, x, len) == x - k0
  {
    DivMod(k0 - m.ng, len);
    RemainderIs(x - m.ng, len, (k0 - m.ng) / len, x - k0);
  }

  lemma LenTimesMean(x: real, len: nat)
    requires len > 0
    ensures len as real * (x / len as real) == x
  {
  }

  /** The X1 flux through every coarse face of a derefined row is conserved. */
  lemma CoarseFlux1Conserved(m: Mesh, nl: int, inner: bool, allow: bool, b: Field, k: int, jc: int, i: int)
    requires Fits(m, nl) && Row(m, nl, inner, FaceOfRow(inner, jc)) && m.Ks() <= k <= m.Ke()
             && m.Is() <= i <= m.Ie() + 1
    requires Fine(m, k, 2 * Half(m, nl, inner, FaceOfRow(inner, jc))) == 0
    ensures var len := 2 * Half(m, nl, inner, FaceOfRow(inner, jc));
            Total(Weighted(Derefined(m, nl, inner, allow, b).x1, m.A1()), k, len, jc, i)
            == Total(Weighted(b.x1, m.A1()), k, len, jc, i)
  {
    hide Weighted, Derefined;
    var j := FaceOfRow(inner, jc);
    var len, w, d :=
        2 * Half(m, nl, inner, j), Weighted(b.x1, m.A1()), Weighted(Derefined(m, nl, inner, allow, b).x1, m.A1());
    CoarseCell(m, nl, inner, j, k);
    var mean := Total(w, k, len, jc, i) / len as real;
    forall x | k <= x < k + len ensures Line(d, 3, 0, jc, i)(x) == mean {
      PositionInCell(m, len, k, x);
      NewFlux1(m, nl, inner, allow, b, x, jc, i);
    }
    SumConst(Line(d, 3, 0, jc, i), mean, k, len);
    LenTimesMean(Total(w, k, len, jc, i), len);
  }

  /** So is the X2 flux, wherever it is not discarded. */
  lemma CoarseFlux2Conserved(m: Mesh, nl: int, inner: bool, allow: bool, b: Field, k: int, j: int, i: int)
    requires Fits(m, nl) && Row(m, nl, inner, j) && m.Ks() <= k <= m.Ke() && m.Is() <= i <= m.Ie()
    requires Fine(m, k, 2 * Half(m, nl, inner, j)) == 0 && (allow || j != PoleFace(m, inner))
    ensures var len := 2 * Half(m, nl, inner, j);
            Total(Weighted(Derefined(m, nl, inner, allow, b).x2, m.A2()), k, len, j, i)
            == Total(Weighted(b.x2, m.A2()), k, len, j, i)
  {
    hide Weighted, Derefined;
    var len, w, d :=
        2 * Half(m, nl, inner, j), Weighted(b.x2, m.A2()), Weighted(Derefined(m, nl, inner, allow, b).x2, m.A2());
    CoarseCell(m, nl, inner, j, k);
    var mean := Total(w, k, len, j, i) / len as real;
    forall x | k <= x < k + len ensures Line(d, 3, 0, j, i)(x) == mean {
      PositionInCell(m, len, k, x);
      NewFlux2(m, nl, inner, allow, b, x, j, i);
    }
    SumConst(Line(d, 3, 0, j, i), mean, k, len);
    LenTimesMean(Total(w, k, len, j, i), len);
  }

  /** And the X3 flux through the end faces of a coarse cell does not change. */
  lemma CoarseFlux3Kept(m: Mesh, nl: int, inner: bool, allow: bool, b: Field, k: int, jc: int, i: int)
    requires Fits(m, nl) && Row(m, nl, inner, FaceOfRow(inner, jc))
    requires Fine(m, k, 2 * Half(m, nl, inner, FaceOfRow(inner, jc))) == 0
    ensures Derefined(m, nl, inner, allow, b).x3(k, jc, i) == b.x3(k, jc, i)
  {
    assert Derefined(m, nl, inner, allow, b).x3(k, jc, i) == New3(m, nl, inner, b, k, jc, i);
    CellStartKeepsFlux3(m, nl, inner, b, k, FaceOfRow(inner, jc), i);
    TimesOver(b.x3(k, jc, i), m.A3());
  }

  lemma CellStart(m: Mesh, len: int, k: int)
    requires len > 0
    ensures Fine(m, k - Fine(m, k, len), len) == 0
  {
    DivMod(k - m.ng, len);
    RemainderIs(k - Fine(m, k, len) - m.ng, len, (k - m.ng) / len, 0);
  }

  /** The X2 fluxes beside a half cell, which fix the central X3 flux, are conserved too. */
  lemma HalfCellFluxConserved(m: Mesh, nl: int, inner: bool, allow: bool, b: Field, k: int, j: int, i: int)
    requires Fits(m, nl) && Row(m, nl, inner, j) && m.Ks() <= k <= m.Ke() && m.Is() <= i <= m.Ie()
    requires Fine(m, k, Half(m, nl, inner, j)) == 0
    ensures var half := Half(m, nl, inner, j);
            Total(Weighted(Derefined(m, nl, inner, allow, b).x2, m.A2()), k, half, j + Away(inner), i)
            == Total(Weighted(b.x2, m.A2()), k, half, j + Away(inner), i)
  {
    var half, jo := Half(m, nl, inner, j), j + Away(inner);
    if Level(m, nl, inner, j) == 0 {
      TotalOfOne(Weighted(b.x2, m.A2()), k, jo, i);
      TotalOfOne(Weighted(Derefined(m, nl, inner, allow, b).x2, m.A2()), k, jo, i);
      DerefinedAt(m, nl, inner, allow, b, k, jo, i);
      UntouchedFlux2(m, nl, inner, allow, b, k, jo, i);
    } else {
      assert Level(m, nl, inner, jo) == Level(m, nl, inner, j) - 1;
      assert 2 * Half(m, nl, inner, jo) == half;
      CoarseFlux2Conserved(m, nl, inner, allow, b, k, jo, i);
    }
  }

  /** Derefining twice is derefining once. */
  lemma DerefineIsProjection(m: Mesh, nl: int, inner: bool, allow: bool, b: Field, k: int, j: int, i: int)
    requires Fits(m, nl)
    ensures var d := Derefined(m, nl, inner, allow, b); var dd := Derefined(m, nl, inner, allow, d);
            dd.x1(k, j, i) == d.x1(k, j, i) && dd.x2(k, j, i) == d.x2(k, j, i) && dd.x3(k, j, i) == d.x3(k, j, i)
  {
    var d := Derefined(m, nl, inner, allow, b);
    Projection1(m, nl, inner, allow, b, k, j, i);
    Projection2(m, nl, inner, allow, b, k, j, i);
    Projection3(m, nl, inner, allow, b, k, j, i);
  }

  lemma Projection1(m: Mesh, nl: int, inner: bool, allow: bool, b: Field, k: int, jc: int, i: int)
    requires Fits(m, nl)
    ensures var d := Derefined(m, nl, inner, allow, b);
            New1(m, nl, inner, d, k, jc, i) == New1(m, nl, inner, b, k, jc, i)
            && d.x1(k, jc, i) == New1(m, nl, inner, b, k, jc, i)
  {
    hide Weighted, Total;
    var d, j := Derefined(m, nl, inner, allow, b), FaceOfRow(inner, jc);
    assert d.x1(k, jc, i) == New1(m, nl, inner, b, k, jc, i);
    if Row(m, nl, inner, j) && m.Ks() <= k <= m.Ke() && m.Is() <= i <= m.Ie() + 1 {
      var len := 2 * Half(m, nl, inner, j);
      CoarseCell(m, nl, inner, j, k);
      CellStart(m, len, k);
      CoarseFlux1Conserved(m, nl, inner, allow, b, k - Fine(m, k, len), jc, i);
    }
  }

  lemma Projection2(m: Mesh, nl: int, inner: bool, allow: bool, b: Field, k: int, j: int, i: int)
    requires Fits(m, nl)
    ensures var d := Derefined(m, nl, inner, allow, b);
            New2(m, nl, inner, allow, d, k, j, i) == New2(m, nl, inner, allow, b, k, j, i)
            && d.x2(k, j, i) == New2(m, nl, inner, allow, b, k, j, i)
  {
    hide Weighted, Total;
    var d := Derefined(m, nl, inner, allow, b);
    assert d.x2(k, j, i) == New2(m, nl, inner, allow, b, k, j, i);
    if Row(m, nl, inner, j) && m.Ks() <= k <= m.Ke() && m.Is() <= i <= m.Ie() && (allow || j != PoleFace(m, inner)) {
      var len := 2 * Half(m, nl, inner, j);
      CoarseCell(m, nl, inner, j, k);
      CellStart(m, len, k);
      CoarseFlux2Conserved(m, nl, inner, allow, b, k - Fine(m, k, len), j, i);
    }
  }

  lemma Projection3(m: Mesh, nl: int, inner: bool, allow: bool, b: Field, k: int, jc: int, i: int)
    requires Fits(m, nl)
    ensures var d := Derefined(m, nl, inner, allow, b);
            New3(m, nl, inner, d, k, jc, i) == New3(m, nl, inner, b, k, jc, i)
            && d.x3(k, jc, i) == New3(m, nl, inner, b, k, jc, i)
  {
    hide Inner3;
    var d, j := Derefined(m, nl, inner, allow, b), FaceOfRow(inner, jc);
    assert d.x3(k, jc, i) == New3(m, nl, inner, b, k, jc, i);
    if Row(m, nl, inner, j) && m.Ks() <= k <= m.Ke() + 1 && m.Is() <= i <= m.Ie() {
      var half := Half(m, nl, inner, j);
      var t := Fine(m, k, 2 * half);
      CellStart(m, 2 * half, k);
      CoarseFlux3Kept(m, nl, inner, allow, b, k - t, jc, i);
      if t == 0 {
        CellStartKeepsFlux3(m, nl, inner, b, k, j, i);
        CellStartKeepsFlux3(m, nl, inner, d, k, j, i);
        assert ZoneRow(inner, j) == jc;
      } else {
        InsideCell(m, nl, inner, allow, b, k, j, i);
      }
    }
  }

  lemma InsideCell(m: Mesh, nl: int, inner: bool, allow: bool, b: Field, k: int, j: int, i: int)
    requires Fits(m, nl) && Row(m, nl, inner, j) && m.Ks() <= k <= m.Ke() + 1 && m.Is() <= i <= m.Ie()
    requires Fine(m, k, 2 * Half(m, nl, inner, j)) != 0
    ensures Inner3(m, nl, inner, Derefined(m, nl, inner, allow, b), k, j, i) == Inner3(m, nl, inner, b, k, j, i)
  {
    hide Total, Interpolate, Central, Derefined, Fine;
    var half, jc := Half(m, nl, inner, j), ZoneRow(inner, j);
    var t := Fine(m, k, 2 * half);
    LastFaceStartsCell(m, nl, inner, j);
    CoarseCell(m, nl, inner, j, k);
    CellLandmarks(m, half, k);
    HalfCellFluxConserved(m, nl, inner, allow, b, k - t, j, i);
    HalfCellFluxConserved(m, nl, inner, allow, b, k - t + half, j, i);
    CoarseFlux3Kept(m, nl, inner, allow, b, k - t, jc, i);
    CoarseFlux3Kept(m, nl, inner, allow, b, k - t + 2 * half, jc, i);
    var d := Derefined(m, nl, inner, allow, b);
    var w3, v3 := Weighted(b.x3, m.A3()), Weighted(d.x3, m.A3());
    assert v3(k - t, jc, i) == w3(k - t, jc, i);
    assert v3(k - t + 2 * half, jc, i) == w3(k - t + 2 * half, jc, i);
  }

  /** The start of a cell starts its left half, its middle starts its right half, its end the next cell. */
  lemma CellLandmarks(m: Mesh, half: int, k: int)
    requires half > 0
    ensures var k0 := k - Fine(m, k, 2 * half);
            && Fine(m, k0, 2 * half) == 0 && Fine(m, k0, half) == 0
            && Fine(m, k0 + half, half) == 0 && Fine(m, k0 + 2 * half, 2 * half) == 0
  {
    var len, q, k0 := 2 * half, (k - m.ng) / (2 * half), k - Fine(m, k, 2 * half);
    DivMod(k - m.ng, len);
    assert k0 - m.ng == q * len;
    assert q * len == (2 * q) * half && (2 * q + 1) * half == (2 * q) * half + half && (q + 1) * len == q * len + len;
    RemainderIs(k0 - m.ng, len, q, 0);
    RemainderIs(k0 - m.ng, half, 2 * q, 0);
    RemainderIs(k0 + half - m.ng, half, 2 * q + 1, 0);
    RemainderIs(k0 + len - m.ng, len, q + 1, 0);
  }

  lemma LastFaceStartsCell(m: Mesh, nl: int, inner: bool, j: int)
    requires Fits(m, nl) && Row(m, nl, inner, j)
    ensures Fine(m, m.Ke() + 1, 2 * Half(m, nl, inner, j)) == 0
  {
    SmallerCellsTile(m.n3, nl, Level(m, nl, inner, j) + 1);
  }
}
