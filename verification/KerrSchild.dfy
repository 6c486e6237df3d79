/** Boyer-Lindquist and Kerr-Schild coordinates of a spinning black hole, and the pipeline that takes
    a velocity from the one to the code's own coordinates (coordinate_systems, coordinate_embedding). */
module KerrSchild {
  import opened Matrix

  /** A place outside the axis and the horizons: radius, spin, and the squares of cosine and sine. */
  datatype Place = Place(r: real, a: real, c2: real, s2: real)

  function Rho2(p: Place): real { p.r * p.r + p.a * p.a * p.c2 }
  function Delta(p: Place): real { p.r * p.r - 2.0 * p.r + p.a * p.a }

  predicate Regular(p: Place) {
    p.r != 0.0 && p.c2 + p.s2 == 1.0 && Rho2(p) != 0.0 && Delta(p) != 0.0
  }

  /** Places where the metric is defined. */
  type Outside = p: Place | Rho2(p) != 0.0 witness Place(1.0, 0.0, 0.0, 1.0)

  /** gcov_embed of SphKSCoords. */
  function MetricKS(p: Place): Mat
    requires Rho2(p) != 0.0
  {
    KSFrom(2.0 * p.r / Rho2(p), p.a, p.s2, Rho2(p), -2.0 * p.a * p.r * p.s2 / Rho2(p))
  }

  function KSFrom(h: real, a: real, s2: real, rho2: real, g03: real): Mat {
    Sparse(-1.0 + h, h, g03, 1.0 + h, KS13(a, s2, h), rho2, KS33(a, s2, rho2, h))
  }
  function KS13(a: real, s2: real, h: real): real { -a * s2 * (1.0 + h) }
  function KS33(a: real, s2: real, rho2: real, h: real): real { s2 * (rho2 + a * a * s2 * (1.0 + h)) }

  /** A symmetric metric with the zeros both have in common. */
  function Sparse(g00: real, g01: real, g03: real, g11: real, g13: real, g22: real, g33: real): Mat {
    Mat(Vec(g00, g01, 0.0, g03), Vec(g01, g11, 0.0, g13), Vec(0.0, 0.0, g22, 0.0), Vec(g03, g13, 0.0, g33))
  }

  /** gcov_embed of SphBLCoords. */
  function MetricBL(p: Place): Mat
    requires Regular(p)
  {
    MuNonZero(p);
    LapseNonZero(p);
    BLFrom(p.a, p.s2, Squared(p.r), Squared(p.a), Mu(p), RMu(p), Lapse(p))
  }

  function Squared(x: real): real { x * x }

  function RMu(p: Place): real
    requires p.r != 0.0
  {
    p.r * Mu(p)
  }

  function Mu(p: Place): real
    requires p.r != 0.0
  {
    SquareNonZero(p.r);
    1.0 + p.a * p.a * p.c2 / (p.r * p.r)
  }

  function Lapse(p: Place): real
    requires p.r != 0.0
  {
    SquareNonZero(p.r);
    1.0 - 2.0 / p.r + p.a * p.a / (p.r * p.r)
  }

  function BLFrom(a: real, s2: real, r2: real, a2: real, mmu: real, d: real, lapse: real): Mat
    requires d != 0.0 && lapse != 0.0
  {
    Mat(Vec(BLTime(d), 0.0, 0.0, BLCross(a, s2, d)), Vec(0.0, mmu / lapse, 0.0, 0.0),
        Vec(0.0, 0.0, r2 * mmu, 0.0), Vec(BLCross(a, s2, d), 0.0, 0.0, BLAngle(s2, r2, a2, d)))
  }

  function BLTime(d: real): real
    requires d != 0.0
  {
    -(1.0 - 2.0 / d)
  }
  function BLCross(a: real, s2: real, d: real): real
    requires d != 0.0
  {
    -2.0 * a * s2 / d
  }
  function BLAngle(s2: real, r2: real, a2: real, d: real): real
    requires d != 0.0
  {
    s2 * (r2 + a2 + 2.0 * a2 * s2 / d)
  }

  lemma SquareNonZero(r: real)
    requires r != 0.0
    ensures r * r != 0.0
  {
  }

  lemma MuNonZero(p: Place)
    requires p.r != 0.0 && Rho2(p) != 0.0
    ensures RMu(p) != 0.0 && Squared(p.r) * Mu(p) == Rho2(p)
    ensures 2.0 / RMu(p) == 2.0 * p.r / Rho2(p)
  {
  }

  lemma LapseNonZero(p: Place)
    requires p.r != 0.0 && Delta(p) != 0.0
    ensures Lapse(p) != 0.0 && Squared(p.r) * Lapse(p) == Delta(p)
  {
  }

  /** The matrix of vec_from_bl. */
  function FromBL(p: Place): Mat
    requires Delta(p) != 0.0
  {
    Shear(2.0 * p.r / Delta(p), p.a / Delta(p))
  }

  function Shear(t0: real, t3: real): Mat {
    Mat(Vec(1.0, t0, 0.0, 0.0), Vec(0.0, 1.0, 0.0, 0.0), Vec(0.0, 0.0, 1.0, 0.0), Vec(0.0, t3, 0.0, 1.0))
  }

  /** The inner product of two vectors in a metric. */
  function Form(g: Mat, v: Vec, w: Vec): real { Dot(v, Apply(g, w)) }

  // -- The Boyer-Lindquist metric is the Kerr-Schild one in sheared coordinates

  /** The same entries in terms of h = 2 r / rho^2. */
  function BLShort(h: real, a: real, s2: real, r2: real, rho2: real, ratio: real): Mat {
    Sparse(-1.0 + h, 0.0, Cross(a, s2, h), ratio, 0.0, rho2, BL33(a, s2, r2, h))
  }
  function Cross(a: real, s2: real, h: real): real { -a * s2 * h }
  function BL33(a: real, s2: real, r2: real, h: real): real { s2 * (r2 + a * a + a * a * s2 * h) }

  lemma BLEntries(p: Place)
    requires Regular(p)
    ensures MetricBL(p) == BLShort(2.0 * p.r / Rho2(p), p.a, p.s2, Squared(p.r), Rho2(p), Rho2(p) / Delta(p))
  {
    hide BLFrom, BLShort, Mu, RMu, Lapse, Rho2, Delta;
    MuNonZero(p);
    LapseNonZero(p);
    assert Squared(p.a) == p.a * p.a;
    hide Squared;
    BLFromIsShort(p.a, p.s2, Squared(p.r), Squared(p.a), Mu(p), RMu(p), Lapse(p), 2.0 * p.r / Rho2(p), Rho2(p),
                  Delta(p));
  }

  lemma BLFromIsShort(a: real, s2: real, r2: real, a2: real, mmu: real, d: real, lapse: real, h: real, rho2: real,
                      delta: real)
    requires a2 == a * a && d != 0.0 && lapse != 0.0 && delta != 0.0 && 2.0 / d == h && r2 * mmu == rho2
             && r2 * lapse == delta
    ensures BLFrom(a, s2, r2, a2, mmu, d, lapse) == BLShort(h, a, s2, r2, rho2, rho2 / delta)
  {
  }

  lemma KSEntries(p: Place)
    requires Rho2(p) != 0.0
    ensures var h := 2.0 * p.r / Rho2(p);
            MetricKS(p) == KSFrom(h, p.a, p.s2, Rho2(p), Cross(p.a, p.s2, h))
  {
    TimesOver(2.0 * p.r, Rho2(p), -p.a * p.s2);
    assert -2.0 * p.a * p.r * p.s2 == -p.a * p.s2 * (2.0 * p.r);
  }

  lemma TimesOver(x: real, d: real, c: real)
    requires d != 0.0
    ensures c * x / d == c * (x / d)
  {
  }

  // Shearing such a metric: the entries that change.

  function X01(g00: real, g01: real, g03: real, t0: real, t3: real): real { g00 * t0 + g01 + g03 * t3 }
  function X13(g03: real, g13: real, g33: real, t0: real, t3: real): real { g03 * t0 + g13 + g33 * t3 }
  function X11(g00: real, g01: real, g03: real, g11: real, g13: real, g33: real, t0: real, t3: real): real {
    g00 * t0 * t0 + g11 + g33 * t3 * t3 + 2.0 * (g01 * t0 + g03 * t0 * t3 + g13 * t3)
  }

  function SparseForm(g00: real, g01: real, g03: real, g11: real, g13: real, g22: real, g33: real,
                      v0: real, v1: real, v2: real, v3: real, w0: real, w1: real, w2: real, w3: real): real {
    v0 * (g00 * w0 + g01 * w1 + g03 * w3) + v1 * (g01 * w0 + g11 * w1 + g13 * w3) + v2 * (g22 * w2)
        + v3 * (g03 * w0 + g13 * w1 + g33 * w3)
  }

  lemma FormOfSparse(g00: real, g01: real, g03: real, g11: real, g13: real, g22: real, g33: real, v: Vec, w: Vec)
    ensures Form(Sparse(g00, g01, g03, g11, g13, g22, g33), v, w)
         == SparseForm(g00, g01, g03, g11, g13, g22, g33, v.x0, v.x1, v.x2, v.x3, w.x0, w.x1, w.x2, w.x3)
  {
  }

  lemma ShearedForm(g00: real, g01: real, g03: real, g11: real, g13: real, g22: real, g33: real, t0: real, t3: real,
                    v0: real, v1: real, v2: real, v3: real, w0: real, w1: real, w2: real, w3: real)
    ensures SparseForm(g00, g01, g03, g11, g13, g22, g33, v0 + t0 * v1, v1, v2, v3 + t3 * v1, w0 + t0 * w1, w1, w2,
                       w3 + t3 * w1)
         == SparseForm(g00, X01(g00, g01, g03, t0, t3), g03, X11(g00, g01, g03, g11, g13, g33, t0, t3),
                       X13(g03, g13, g33, t0, t3), g22, g33,
                       v0, v1, v2, v3, w0, w1, w2, w3)
  {
  }

  lemma ApplyShear(t0: real, t3: real, v: Vec)
    ensures Apply(Shear(t0, t3), v) == Vec(v.x0 + t0 * v.x1, v.x1, v.x2, v.x3 + t3 * v.x1)
  {
  }

  lemma ShearedMetric(g00: real, g01: real, g03: real, g11: real, g13: real, g22: real, g33: real, t0: real, t3: real,
                      v: Vec, w: Vec)
    ensures Form(Sparse(g00, g01, g03, g11, g13, g22, g33), Apply(Shear(t0, t3), v), Apply(Shear(t0, t3), w))
         == Form(Sparse(g00, X01(g00, g01, g03, t0, t3), g03, X11(g00, g01, g03, g11, g13, g33, t0, t3),
                        X13(g03, g13, g33, t0, t3), g22, g33), v, w)
  {
    hide SparseForm, Form, Sparse, Apply, Shear, X01, X11, X13;
    ApplyShear(t0, t3, v);
    ApplyShear(t0, t3, w);
    FormOfSparse(g00, g01, g03, g11, g13, g22, g33, Apply(Shear(t0, t3), v), Apply(Shear(t0, t3), w));
    FormOfSparse(g00, X01(g00, g01, g03, t0, t3), g03, X11(g00, g01, g03, g11, g13, g33, t0, t3),
                 X13(g03, g13, g33, t0, t3), g22, g33, v, w);
    ShearedForm(g00, g01, g03, g11, g13, g22, g33, t0, t3, v.x0, v.x1, v.x2, v.x3, w.x0, w.x1, w.x2, w.x3);
  }

  // What the shear does to each entry (h rho^2 = 2 r, t0 Delta = 2 r, t3 Delta = a).

  lemma Sheared01(r: real, a: real, s2: real, rho2: real, d: real, h: real, t0: real, t3: real)
    requires d != 0.0 && d == r * r - 2.0 * r + a * a && rho2 == r * r + a * a - a * a * s2
    requires h * rho2 == 2.0 * r && t0 * d == 2.0 * r && t3 * d == a
    ensures X01(-1.0 + h, h, Cross(a, s2, h), t0, t3) == 0.0
  {
    var x := (-1.0 + h) * t0 + h + (-a * s2 * h) * t3;
    assert x * d == (-1.0 + h) * (t0 * d) + h * d - a * s2 * h * (t3 * d);
    assert x * d == (-1.0 + h) * (2.0 * r) + h * d - a * s2 * h * a;
    assert d + 2.0 * r - a * a * s2 == rho2;
    assert x * d == h * (d + 2.0 * r - a * a * s2) - 2.0 * r;
    ZeroOver(x, d);
  }

  lemma ZeroOver(x: real, d: real)
    requires d != 0.0 && x * d == 0.0
    ensures x == 0.0
  {
  }

  lemma Sheared13(r: real, a: real, s2: real, rho2: real, d: real, h: real, t0: real, t3: real)
    requires d != 0.0 && d == r * r - 2.0 * r + a * a && rho2 == r * r + a * a - a * a * s2
    requires h * rho2 == 2.0 * r && t0 * d == 2.0 * r && t3 * d == a
    ensures X13(Cross(a, s2, h), KS13(a, s2, h), KS33(a, s2, rho2, h), t0, t3) == 0.0
  {
    var x := (-a * s2 * h) * t0 - a * s2 * (1.0 + h) + s2 * (rho2 + a * a * s2 * (1.0 + h)) * t3;
    assert x * d == (-a * s2 * h) * (t0 * d) - a * s2 * (1.0 + h) * d + s2 * (rho2 + a * a * s2 * (1.0 + h)) * (t3 * d);
    assert x * d == (-a * s2 * h) * (2.0 * r) - a * s2 * (1.0 + h) * d + s2 * (rho2 + a * a * s2 * (1.0 + h)) * a;
    Bracket(r, a, s2, rho2, d, h);
    ZeroOver(x, d);
  }

  lemma Bracket(r: real, a: real, s2: real, rho2: real, d: real, h: real)
    requires d == rho2 - 2.0 * r + a * a * s2 && h * rho2 == 2.0 * r
    ensures (-a * s2 * h) * (2.0 * r) - a * s2 * (1.0 + h) * d + s2 * (rho2 + a * a * s2 * (1.0 + h)) * a == 0.0
  {
  }

  lemma Sheared11(r: real, a: real, s2: real, rho2: real, d: real, h: real, t0: real, t3: real)
    requires d != 0.0 && d == r * r - 2.0 * r + a * a && rho2 == r * r + a * a - a * a * s2
    requires h * rho2 == 2.0 * r && t0 * d == 2.0 * r && t3 * d == a
    ensures X11(-1.0 + h, h, Cross(a, s2, h), 1.0 + h, KS13(a, s2, h), KS33(a, s2, rho2, h), t0, t3) == rho2 / d
  {
    Sheared01(r, a, s2, rho2, d, h, t0, t3);
    Sheared13(r, a, s2, rho2, d, h, t0, t3);
    ContractTwice(-1.0 + h, h, Cross(a, s2, h), 1.0 + h, KS13(a, s2, h), KS33(a, s2, rho2, h), t0, t3);
    Remainder(r, a, s2, rho2, d, h, t0, t3);
  }

  /** The corner entry by way of the two that vanish. */
  lemma ContractTwice(g00: real, g01: real, g03: real, g11: real, g13: real, g33: real, t0: real, t3: real)
    requires X01(g00, g01, g03, t0, t3) == 0.0 && X13(g03, g13, g33, t0, t3) == 0.0
    ensures X11(g00, g01, g03, g11, g13, g33, t0, t3) == g01 * t0 + g11 + g13 * t3
  {
  }

  lemma Remainder(r: real, a: real, s2: real, rho2: real, d: real, h: real, t0: real, t3: real)
    requires d != 0.0 && d == r * r - 2.0 * r + a * a && rho2 == r * r + a * a - a * a * s2
    requires h * rho2 == 2.0 * r && t0 * d == 2.0 * r && t3 * d == a
    ensures h * t0 + (1.0 + h) + KS13(a, s2, h) * t3 == rho2 / d
  {
    var x := h * t0 + (1.0 + h) - a * s2 * (1.0 + h) * t3;
    assert x * d == h * (t0 * d) + (1.0 + h) * d - a * s2 * (1.0 + h) * (t3 * d);
    assert x * d == h * (2.0 * r) + (1.0 + h) * (d - a * a * s2);
    assert d - a * a * s2 == rho2 - 2.0 * r;
    assert (1.0 + h) * (rho2 - 2.0 * r) == rho2 + 2.0 * r - 2.0 * r - h * (2.0 * r);
    assert x * d == rho2;
    QuotientIs(x, d, rho2);
  }

  lemma QuotientIs(x: real, d: real, y: real)
    requires d != 0.0 && x * d == y
    ensures x == y / d
  {
  }

  /** The quantities the metrics are made of. */
  lemma Relations(p: Place)
    requires Regular(p)
    ensures Delta(p) == Squared(p.r) - 2.0 * p.r + Squared(p.a)
            && Rho2(p) == Squared(p.r) + Squared(p.a) - Squared(p.a) * p.s2
    ensures (2.0 * p.r / Rho2(p)) * Rho2(p) == 2.0 * p.r && (2.0 * p.r / Delta(p)) * Delta(p) == 2.0 * p.r
            && (p.a / Delta(p)) * Delta(p) == p.a
  {
  }

  lemma FullCircle(r2: real, a: real, s2: real, rho2: real, h: real)
    requires rho2 == r2 + a * a - a * a * s2
    ensures KS33(a, s2, rho2, h) == BL33(a, s2, r2, h)
  {
  }

  /** vec_from_bl is an isometry: it carries the Boyer-Lindquist inner product to the Kerr-Schild one. */
  lemma FromBLIsIsometry(p: Place, v: Vec, w: Vec)
    requires Regular(p)
    ensures Form(MetricKS(p), Apply(FromBL(p), v), Apply(FromBL(p), w)) == Form(MetricBL(p), v, w)
  {
    hide Form, MetricKS, MetricBL, Rho2, Delta, Apply, Squared, Cross;
    var h, t0, t3, rho2, d := 2.0 * p.r / Rho2(p), 2.0 * p.r / Delta(p), p.a / Delta(p), Rho2(p), Delta(p);
    KSEntries(p);
    BLEntries(p);
    Relations(p);
    hide KSFrom, BLShort, Shear;
    IsometryOf(p.r, p.a, p.s2, rho2, d, h, t0, t3, v, w);
  }

  lemma IsometryOf(r: real, a: real, s2: real, rho2: real, d: real, h: real, t0: real, t3: real, v: Vec, w: Vec)
    requires d != 0.0 && d == Squared(r) - 2.0 * r + Squared(a) && rho2 == Squared(r) + Squared(a) - Squared(a) * s2
    requires h * rho2 == 2.0 * r && t0 * d == 2.0 * r && t3 * d == a
    ensures Form(KSFrom(h, a, s2, rho2, Cross(a, s2, h)), Apply(Shear(t0, t3), v), Apply(Shear(t0, t3), w))
         == Form(BLShort(h, a, s2, Squared(r), rho2, rho2 / d), v, w)
  {
    Sheared01(r, a, s2, rho2, d, h, t0, t3);
    Sheared13(r, a, s2, rho2, d, h, t0, t3);
    Sheared11(r, a, s2, rho2, d, h, t0, t3);
    FullCircle(r * r, a, s2, rho2, h);
    hide Form, Apply, Shear, Sparse, X01, X11, X13, KS13, KS33, BL33, Cross;
    ShearedMetric(-1.0 + h, h, Cross(a, s2, h), 1.0 + h, KS13(a, s2, h), rho2, KS33(a, s2, rho2, h), t0, t3, v, w);
  }

  /** vec_to_bl, by inverting the same matrix. */
  function ToBL(p: Place): Mat
    requires Delta(p) != 0.0
  {
    ShearHasUnitDeterminant(2.0 * p.r / Delta(p), p.a / Delta(p));
    Inverse(FromBL(p))
  }

  lemma ShearHasUnitDeterminant(t0: real, t3: real)
    ensures Determinant(Shear(t0, t3)) == 1.0
  {
  }

  /** Off the horizons the two conversions undo one another, both ways. */
  lemma RoundTripBL(p: Place, v: Vec)
    requires Delta(p) != 0.0
    ensures Apply(ToBL(p), Apply(FromBL(p), v)) == v && Apply(FromBL(p), Apply(ToBL(p), v)) == v
  {
    hide Apply, Determinant, Inverse;
    ShearHasUnitDeterminant(2.0 * p.r / Delta(p), p.a / Delta(p));
    InverseUndoes(FromBL(p), v);
  }

  // -- The time component of a four-velocity

  predicate Symmetric(g: Mat) {
    forall i, j | 0 <= i < j < 4 :: At(g, i, j) == At(g, j, i)
  }

  lemma FormIsSymmetric(g: Mat, v: Vec, w: Vec)
    requires Symmetric(g)
    ensures Form(g, v, w) == Form(g, w, v)
  {
    assert At(g, 0, 1) == At(g, 1, 0) && At(g, 0, 2) == At(g, 2, 0) && At(g, 0, 3) == At(g, 3, 0);
    assert At(g, 1, 2) == At(g, 2, 1) && At(g, 1, 3) == At(g, 3, 1) && At(g, 2, 3) == At(g, 3, 2);
  }

  /** set_ut: coefficients of the quadratic for u^t, its discriminant, and the vector with the root
      taken (`root` is the square root of the discriminant). */
  function QuadA(g: Mat): real { g.r0.x0 }
  function QuadB(g: Mat, u: Vec): real { 2.0 * (g.r0.x1 * u.x1 + g.r0.x2 * u.x2 + g.r0.x3 * u.x3) }
  function QuadC(g: Mat, u: Vec): real {
    1.0 + g.r1.x1 * u.x1 * u.x1 + g.r2.x2 * u.x2 * u.x2 + g.r3.x3 * u.x3 * u.x3
    + 2.0 * (g.r1.x2 * u.x1 * u.x2 + g.r1.x3 * u.x1 * u.x3 + g.r2.x3 * u.x2 * u.x3)
  }
  function Discriminant(g: Mat, u: Vec): real { QuadB(g, u) * QuadB(g, u) - 4.0 * QuadA(g) * QuadC(g, u) }

  function WithTime(g: Mat, u: Vec, root: real): Vec
    requires QuadA(g) != 0.0
  {
    u.(x0 := (-QuadB(g, u) - root) / (2.0 * QuadA(g)))
  }

  function Quadratic(a: real, b: real, c: real, t: real): real { a * t * t + b * t + c }

  lemma RootSolves(a: real, b: real, c: real, root: real, t: real)
    requires a != 0.0 && root * root == b * b - 4.0 * a * c && t == (-b - root) / (2.0 * a)
    ensures Quadratic(a, b, c, t) == 0.0
  {
  }

  lemma NormIsQuadratic(g: Mat, t: real, u1: real, u2: real, u3: real)
    requires Symmetric(g)
    ensures var u := Vec(t, u1, u2, u3);
            Form(g, u, u) == Quadratic(QuadA(g), QuadB(g, u), QuadC(g, u), t) - 1.0
  {
    assert At(g, 0, 1) == At(g, 1, 0) && At(g, 0, 2) == At(g, 2, 0) && At(g, 0, 3) == At(g, 3, 0);
    assert At(g, 1, 2) == At(g, 2, 1) && At(g, 1, 3) == At(g, 3, 1) && At(g, 2, 3) == At(g, 3, 2);
    NormOfSymmetric(g.r0.x0, g.r0.x1, g.r0.x2, g.r0.x3, g.r1.x1, g.r1.x2, g.r1.x3, g.r2.x2, g.r2.x3, g.r3.x3, t, u1, u2,
                    u3);
  }

  lemma NormOfSymmetric(a: real, b: real, c: real, d: real, e: real, f: real, g: real, h: real, i: real, j: real,
                        t: real, u: real, v: real, w: real)
    ensures t * (a * t + b * u + c * v + d * w) + u * (b * t + e * u + f * v + g * w)
            + v * (c * t + f * u + h * v + i * w) + w * (d * t + g * u + i * v + j * w)
         == a * t * t + 2.0 * (b * u + c * v + d * w) * t
            + (1.0 + e * u * u + h * v * v + j * w * w + 2.0 * (f * u * v + g * u * w + i * v * w)) - 1.0
  {
  }

  /** The completed vector is a four-velocity: its norm is -1. */
  lemma CompletedNorm(g: Mat, u: Vec, root: real)
    requires Symmetric(g) && QuadA(g) != 0.0 && root * root == Discriminant(g, u)
    ensures Form(g, WithTime(g, u, root), WithTime(g, u, root)) == -1.0
  {
    hide Form, Symmetric, QuadA, Quadratic;
    var t := WithTime(g, u, root).x0;
    RootSolves(QuadA(g), QuadB(g, u), QuadC(g, u), root, t);
    NormIsQuadratic(g, t, u.x1, u.x2, u.x3);
    SameQuadratic(g, u, t);
    hide QuadB, QuadC;
  }

  lemma SameQuadratic(g: Mat, u: Vec, t: real)
    ensures QuadB(g, u.(x0 := t)) == QuadB(g, u) && QuadC(g, u.(x0 := t)) == QuadC(g, u)
  {
  }

  function Spatial(u: Vec): Vec { u.(x0 := 0.0) }

  lemma SpatialNorm(g: Mat, u: Vec)
    requires Symmetric(g)
    ensures Form(g, Spatial(u), Spatial(u)) == QuadC(g, u) - 1.0
  {
    hide Form, Symmetric;
    NormIsQuadratic(g, 0.0, u.x1, u.x2, u.x3);
    SameQuadratic(g, u, 0.0);
    AtZero(QuadA(g), QuadB(g, u), QuadC(g, u));
    hide QuadA, QuadB, QuadC, Quadratic;
  }

  lemma AtZero(a: real, b: real, c: real)
    ensures Quadratic(a, b, c, 0.0) == c
  {
  }

  /** Where t is a time (g_tt < 0) the time component taken is the latest that gives norm -1, and it is
      positive for any velocity whose spatial part has norm above -1, as a spacelike one has. */
  lemma FutureRoot(g: Mat, u: Vec, root: real, t: real)
    requires Symmetric(g) && QuadA(g) < 0.0 && root >= 0.0 && root * root == Discriminant(g, u)
    ensures Form(g, u.(x0 := t), u.(x0 := t)) == -1.0 ==> t <= WithTime(g, u, root).x0
    ensures Form(g, Spatial(u), Spatial(u)) > -1.0 ==> WithTime(g, u, root).x0 > 0.0
  {
    hide Form, Symmetric, QuadA, Quadratic;
    var a, b, c := QuadA(g), QuadB(g, u), QuadC(g, u);
    SpatialNorm(g, u);
    NormIsQuadratic(g, t, u.x1, u.x2, u.x3);
    SameQuadratic(g, u, t);
    assert WithTime(g, u, root).x0 == (-b - root) / (2.0 * a);
    hide QuadB, QuadC, WithTime, Spatial;
    if Quadratic(a, b, c, t) == 0.0 { LaterRoot(a, b, c, root, t); }
    if c > 0.0 { PositiveRoot(a, b, c, root); }
  }

  lemma LaterRoot(a: real, b: real, c: real, root: real, t: real)
    requires a < 0.0 && root >= 0.0 && root * root == b * b - 4.0 * a * c && Quadratic(a, b, c, t) == 0.0
    ensures t <= (-b - root) / (2.0 * a)
  {
    var y := 2.0 * a * t + b;
    assert y * y == root * root by {
      assert y * y == 4.0 * a * (a * t * t + b * t + c) + b * b - 4.0 * a * c;
    }
    assert (y - root) * (y + root) == 0.0;
    assert y == root || y == -root;
    DivideByNegative(2.0 * a, t, -b - root);
  }

  lemma DivideByNegative(a: real, t: real, x: real)
    requires a < 0.0 && a * t >= x
    ensures t <= x / a
  {
    assert x == a * (x / a);
  }

  lemma PositiveRoot(a: real, b: real, c: real, root: real)
    requires a < 0.0 && c > 0.0 && root >= 0.0 && root * root == b * b - 4.0 * a * c
    ensures (-b - root) / (2.0 * a) > 0.0
  {
    assert -4.0 * a * c > 0.0;
    assert root > -b;
  }

  // -- Metrics that are not singular

  lemma DeterminantKS(p: Place)
    requires Rho2(p) != 0.0 && p.c2 + p.s2 == 1.0
    ensures Determinant(MetricKS(p)) == -(Rho2(p) * Rho2(p) * p.s2)
  {
    var h, rho2 := 2.0 * p.r / Rho2(p), Rho2(p);
    KSEntries(p);
    SparseDeterminant(-1.0 + h, h, Cross(p.a, p.s2, h), 1.0 + h, KS13(p.a, p.s2, h), rho2, KS33(p.a, p.s2, rho2, h));
    ThreeKS(h, p.a, p.s2, rho2);
  }

  /** The determinant without the row and column of the angle. */
  function Block(g00: real, g01: real, g03: real, g11: real, g13: real, g33: real): real {
    g00 * (g11 * g33 - g13 * g13) - g01 * (g01 * g33 - g13 * g03) + g03 * (g01 * g13 - g11 * g03)
  }

  lemma SparseDeterminant(g00: real, g01: real, g03: real, g11: real, g13: real, g22: real, g33: real)
    ensures Determinant(Sparse(g00, g01, g03, g11, g13, g22, g33)) == g22 * Block(g00, g01, g03, g11, g13, g33)
  {
  }

  lemma ThreeKS(h: real, a: real, s2: real, rho2: real)
    ensures Block(-1.0 + h, h, Cross(a, s2, h), 1.0 + h, KS13(a, s2, h), KS33(a, s2, rho2, h)) == -(rho2 * s2)
  {
    var g03, g13, g33 := Cross(a, s2, h), KS13(a, s2, h), KS33(a, s2, rho2, h);
    assert (1.0 + h) * g33 - g13 * g13 == s2 * (1.0 + h) * rho2;
    assert h * g33 - g13 * g03 == h * s2 * rho2;
    assert h * g13 - (1.0 + h) * g03 == 0.0;
  }
}
