/** The same black hole with an external potential Phi_g, which the code evaluates with a real power of
    the radius and which is given here (SphKSExtG and SphBLExtG). */
module ExternalGravity {
  import opened Matrix
  import opened KerrSchild

  /** 1 - 2 / r + 2 Phi_g, the divisor in both coordinate systems. */
  function Gap(p: Place, phi: real): real
    requires p.r != 0.0
  {
    1.0 - 2.0 / p.r + 2.0 * phi
  }

  predicate RegularExtG(p: Place, phi: real) { Regular(p) && Gap(p, phi) != 0.0 }

  /** gcov_embed of SphKSExtG: the potential enters the time and radius block only. */
  function MetricKSExtG(p: Place, phi: real): Mat
    requires Rho2(p) != 0.0
  {
    var h := 2.0 * p.r / Rho2(p);
    Sparse(-1.0 + h - 2.0 * phi, h - 2.0 * phi, -2.0 * p.a * p.r * p.s2 / Rho2(p), 1.0 + h - 2.0 * phi,
           KS13(p.a, p.s2, h),
           Rho2(p), KS33(p.a, p.s2, Rho2(p), h))
  }

  /** gcov_embed of SphBLExtG. */
  function MetricBLExtG(p: Place, phi: real): Mat
    requires RegularExtG(p, phi)
  {
    MuNonZero(p);
    var d := RMu(p);
    Sparse(BLTime(d) - 2.0 * phi, 0.0, BLCross(p.a, p.s2, d), Mu(p) / Gap(p, phi), 0.0, Squared(p.r) * Mu(p),
           BLAngle(p.s2, Squared(p.r), Squared(p.a), d))
  }

  /** The matrix of vec_from_bl of SphKSExtG. */
  function FromBLExtG(p: Place, phi: real): Mat
    requires RegularExtG(p, phi)
  {
    Shear((2.0 / p.r - 2.0 * phi) / Gap(p, phi), p.a / Delta(p))
  }

  /** The entries by the short names: h = 2 r / rho^2. */
  lemma EntriesExtG(p: Place, phi: real)
    requires RegularExtG(p, phi)
    ensures var h := 2.0 * p.r / Rho2(p);
            && MetricKSExtG(p, phi)
            == Sparse(-1.0 + h - 2.0 * phi, h - 2.0 * phi, Cross(p.a, p.s2, h), 1.0 + h - 2.0 * phi,
                                              KS13(p.a, p.s2, h), Rho2(p), KS33(p.a, p.s2, Rho2(p), h))
            && MetricBLExtG(p, phi)
            == Sparse(-1.0 + h - 2.0 * phi, 0.0, Cross(p.a, p.s2, h), Mu(p) / Gap(p, phi), 0.0, Rho2(p),
                                              BL33(p.a, p.s2, Squared(p.r), h))
  {
    hide Rho2, Mu, RMu, KS13, KS33, BL33, Cross, Gap, BLTime, BLCross, BLAngle;
    MuNonZero(p);
    KSEntries(p);
    assert Squared(p.a) == p.a * p.a;
    hide Squared;
    ByQuotient(p.a, p.s2, Squared(p.r), Squared(p.a), RMu(p), 2.0 * p.r / Rho2(p));
  }

  lemma ByQuotient(a: real, s2: real, r2: real, a2: real, d: real, h: real)
    requires d != 0.0 && 2.0 / d == h && a2 == a * a
    ensures BLTime(d) == -1.0 + h && BLCross(a, s2, d) == Cross(a, s2, h)
            && BLAngle(s2, r2, a2, d) == BL33(a, s2, r2, h)
  {
  }

  /** Unit vector along a coordinate. */
  function Axis(i: int): Vec {
    Vec(if i == 0 then 1.0 else 0.0, if i == 1 then 1.0 else 0.0, if i == 2 then 1.0 else 0.0,
        if i == 3 then 1.0 else 0.0)
  }

  /** vec_from_bl carries the one metric to the other. */
  ghost predicate IsIsometry(p: Place, phi: real)
    requires RegularExtG(p, phi)
  {
    forall v, w ::
        Form(MetricKSExtG(p, phi), Apply(FromBLExtG(p, phi), v), Apply(FromBLExtG(p, phi), w))
        == Form(MetricBLExtG(p, phi), v, w)
  }

  /** With external gravity vec_from_bl is an isometry exactly when the black hole does not spin. */
  lemma IsometryExtGIff(p: Place, phi: real)
    requires RegularExtG(p, phi)
    ensures IsIsometry(p, phi) <==> p.a == 0.0
  {
    hide Form, MetricKSExtG, MetricBLExtG, FromBLExtG, Apply;
    if p.a == 0.0 {
      forall v, w
        ensures Form(MetricKSExtG(p, phi), Apply(FromBLExtG(p, phi), v), Apply(FromBLExtG(p, phi), w))
                == Form(MetricBLExtG(p, phi), v, w)
      {
        NoSpinKeepsForm(p, phi, v, w);
      }
    }
    if IsIsometry(p, phi) {
      Conditions(p, phi);
      OnlyWithoutSpin(p, phi);
    }
  }

  lemma NoSpinKeepsForm(p: Place, phi: real, v: Vec, w: Vec)
    requires RegularExtG(p, phi) && p.a == 0.0
    ensures Form(MetricKSExtG(p, phi), Apply(FromBLExtG(p, phi), v), Apply(FromBLExtG(p, phi), w))
            == Form(MetricBLExtG(p, phi), v, w)
  {
    var h, rho2, t0 := 2.0 * p.r / Rho2(p), Rho2(p), (2.0 / p.r - 2.0 * phi) / Gap(p, phi);
    EntriesExtG(p, phi);
    NoSpin(p, phi);
    var g00, g01, g03, g11 := -1.0 + h - 2.0 * phi, h - 2.0 * phi, Cross(p.a, p.s2, h), 1.0 + h - 2.0 * phi;
    var g13, g33 := KS13(p.a, p.s2, h), KS33(p.a, p.s2, rho2, h);
    hide Form, MetricKSExtG, MetricBLExtG, Apply, X01, X11, X13, Sparse, Cross, KS13, KS33, BL33, Rho2, Mu, Gap, Delta;
    ShearedMetric(g00, g01, g03, g11, g13, rho2, g33, t0, p.a / Delta(p), v, w);
  }

  /** Without spin the entries agree. */
  lemma NoSpin(p: Place, phi: real)
    requires RegularExtG(p, phi) && p.a == 0.0
    ensures var h, rho2, t0, t3 := 2.0 * p.r / Rho2(p), Rho2(p), (2.0 / p.r - 2.0 * phi) / Gap(p, phi), p.a / Delta(p);
            && X01(-1.0 + h - 2.0 * phi, h - 2.0 * phi, Cross(p.a, p.s2, h), t0, t3) == 0.0
            && X13(Cross(p.a, p.s2, h), KS13(p.a, p.s2, h), KS33(p.a, p.s2, rho2, h), t0, t3) == 0.0
            && X11(-1.0 + h - 2.0 * phi, h - 2.0 * phi, Cross(p.a, p.s2, h), 1.0 + h - 2.0 * phi, KS13(p.a, p.s2, h),
                   KS33(p.a, p.s2, rho2, h), t0, t3) == Mu(p) / Gap(p, phi)
            && KS33(p.a, p.s2, rho2, h) == BL33(p.a, p.s2, Squared(p.r), h)
  {
    var h, t0 := 2.0 * p.r / Rho2(p), (2.0 / p.r - 2.0 * phi) / Gap(p, phi);
    assert Rho2(p) == p.r * p.r;
    assert h == 2.0 / p.r by { OverSquare(p.r); }
    var g := h - 2.0 * phi;
    assert Gap(p, phi) == 1.0 - g;
    assert t0 * (1.0 - g) == g;
    assert Mu(p) == 1.0;
    assert p.a / Delta(p) == 0.0;
    RadialEntry(g, t0);
  }

  lemma OverSquare(r: real)
    requires r != 0.0
    ensures r * r != 0.0 && 2.0 * r / (r * r) == 2.0 / r
  {
  }

  lemma RadialEntry(g: real, t: real)
    requires g != 1.0 && t * (1.0 - g) == g
    ensures (-1.0 + g) * t + g == 0.0
    ensures (-1.0 + g) * t * t + (1.0 + g) + 2.0 * (g * t) == 1.0 / (1.0 - g)
  {
    assert (-1.0 + g) * t * t == -g * t;
    assert (1.0 + g + g * t) * (1.0 - g) == 1.0;
  }

  /** What vec_from_bl adds to the norm of a vector. */
  function Offset(p: Place, phi: real, v: Vec): real
    requires RegularExtG(p, phi)
  {
    var h, rho2, t0, t3 := 2.0 * p.r / Rho2(p), Rho2(p), (2.0 / p.r - 2.0 * phi) / Gap(p, phi), p.a / Delta(p);
    var x01 := X01(-1.0 + h - 2.0 * phi, h - 2.0 * phi, Cross(p.a, p.s2, h), t0, t3);
    var x13 := X13(Cross(p.a, p.s2, h), KS13(p.a, p.s2, h), KS33(p.a, p.s2, rho2, h), t0, t3);
    var x11 := X11(-1.0 + h - 2.0 * phi, h - 2.0 * phi, Cross(p.a, p.s2, h), 1.0 + h - 2.0 * phi, KS13(p.a, p.s2, h),
                   KS33(p.a, p.s2, rho2, h), t0, t3);
    Excess(x01, x13, x11 - Mu(p) / Gap(p, phi), v)
  }

  /** The difference of two metrics that differ in these entries only. */
  function Excess(e01: real, e13: real, e11: real, v: Vec): real {
    v.x1 * (2.0 * (e01 * v.x0 + e13 * v.x3) + e11 * v.x1)
  }

  lemma NormShift(p: Place, phi: real, v: Vec)
    requires RegularExtG(p, phi)
    ensures Form(MetricKSExtG(p, phi), Apply(FromBLExtG(p, phi), v), Apply(FromBLExtG(p, phi), v))
         == Form(MetricBLExtG(p, phi), v, v) + Offset(p, phi, v)
  {
    var h, rho2, t0, t3 := 2.0 * p.r / Rho2(p), Rho2(p), (2.0 / p.r - 2.0 * phi) / Gap(p, phi), p.a / Delta(p);
    EntriesExtG(p, phi);
    Relations(p);
    FullCircle(Squared(p.r), p.a, p.s2, rho2, h);
    hide Form, Apply, MetricKSExtG, MetricBLExtG, X01, X11, X13, Cross, KS13, KS33, BL33, Mu, Gap, Rho2, Delta, Sparse,
        Shear, Squared, Excess;
    var g00, g01, g03, g11 := -1.0 + h - 2.0 * phi, h - 2.0 * phi, Cross(p.a, p.s2, h), 1.0 + h - 2.0 * phi;
    var g13, g33 := KS13(p.a, p.s2, h), KS33(p.a, p.s2, rho2, h);
    ShearedMetric(g00, g01, g03, g11, g13, rho2, g33, t0, t3, v, v);
    DifferentEntries(g00, g03, rho2, g33, X01(g00, g01, g03, t0, t3), X11(g00, g01, g03, g11, g13, g33, t0, t3),
                     X13(g03, g13, g33, t0, t3), Mu(p) / Gap(p, phi), v);
  }

  lemma DifferentEntries(g00: real, g03: real, g22: real, g33: real, x01: real, x11: real, x13: real, g11: real, v: Vec)
    ensures Form(Sparse(g00, x01, g03, x11, x13, g22, g33), v, v)
         == Form(Sparse(g00, 0.0, g03, g11, 0.0, g22, g33), v, v) + Excess(x01, x13, x11 - g11, v)
  {
    hide Form, Sparse;
    FormOfSparse(g00, x01, g03, x11, x13, g22, g33, v, v);
    FormOfSparse(g00, 0.0, g03, g11, 0.0, g22, g33, v, v);
  }

  /** It adds nothing without spin, or to a vector without radial part. */
  lemma NoOffset(p: Place, phi: real, v: Vec)
    requires RegularExtG(p, phi) && (p.a == 0.0 || v.x1 == 0.0)
    ensures Offset(p, phi, v) == 0.0
  {
    hide X01, X11, X13, Cross, KS13, KS33, BL33, Mu, Gap, Rho2, Delta;
    if p.a == 0.0 { NoSpin(p, phi); }
  }

  /** What an isometry asks of the two entries that must vanish. */
  lemma Conditions(p: Place, phi: real)
    requires RegularExtG(p, phi) && IsIsometry(p, phi)
    ensures var h, rho2, t0, t3 := 2.0 * p.r / Rho2(p), Rho2(p), (2.0 / p.r - 2.0 * phi) / Gap(p, phi), p.a / Delta(p);
            && X01(-1.0 + h - 2.0 * phi, h - 2.0 * phi, Cross(p.a, p.s2, h), t0, t3) == 0.0
            && X13(Cross(p.a, p.s2, h), KS13(p.a, p.s2, h), KS33(p.a, p.s2, rho2, h), t0, t3) == 0.0
  {
    hide Form, Apply, X01, X11, X13, Cross, KS13, KS33, BL33, Rho2, Mu, Gap, Delta;
    var h, rho2, t0, t3 := 2.0 * p.r / Rho2(p), Rho2(p), (2.0 / p.r - 2.0 * phi) / Gap(p, phi), p.a / Delta(p);
    EntriesExtG(p, phi);
    hide MetricKSExtG, MetricBLExtG;
    var g00, g01, g03, g11 := -1.0 + h - 2.0 * phi, h - 2.0 * phi, Cross(p.a, p.s2, h), 1.0 + h - 2.0 * phi;
    var g13, g33 := KS13(p.a, p.s2, h), KS33(p.a, p.s2, rho2, h);
    ShearedMetric(g00, g01, g03, g11, g13, rho2, g33, t0, t3, Axis(0), Axis(1));
    ShearedMetric(g00, g01, g03, g11, g13, rho2, g33, t0, t3, Axis(1), Axis(3));
    assert Form(MetricKSExtG(p, phi), Apply(FromBLExtG(p, phi), Axis(0)), Apply(FromBLExtG(p, phi), Axis(1)))
           == Form(MetricBLExtG(p, phi), Axis(0), Axis(1));
    assert Form(MetricKSExtG(p, phi), Apply(FromBLExtG(p, phi), Axis(1)), Apply(FromBLExtG(p, phi), Axis(3)))
           == Form(MetricBLExtG(p, phi), Axis(1), Axis(3));
    SparseEntries(g00, X01(g00, g01, g03, t0, t3), g03, X11(g00, g01, g03, g11, g13, g33, t0, t3),
                  X13(g03, g13, g33, t0, t3), rho2, g33);
    SparseEntries(g00, 0.0, g03, Mu(p) / Gap(p, phi), 0.0, rho2, BL33(p.a, p.s2, Squared(p.r), h));
  }

  lemma SparseEntries(g00: real, g01: real, g03: real, g11: real, g13: real, g22: real, g33: real)
    ensures Form(Sparse(g00, g01, g03, g11, g13, g22, g33), Axis(0), Axis(1)) == g01
    ensures Form(Sparse(g00, g01, g03, g11, g13, g22, g33), Axis(1), Axis(3)) == g13
  {
  }

  /** They cannot both vanish when the black hole spins. */
  lemma OnlyWithoutSpin(p: Place, phi: real)
    requires RegularExtG(p, phi)
    requires var h, rho2, t0, t3 := 2.0 * p.r / Rho2(p), Rho2(p), (2.0 / p.r - 2.0 * phi) / Gap(p, phi), p.a / Delta(p);
             && X01(-1.0 + h - 2.0 * phi, h - 2.0 * phi, Cross(p.a, p.s2, h), t0, t3) == 0.0
             && X13(Cross(p.a, p.s2, h), KS13(p.a, p.s2, h), KS33(p.a, p.s2, rho2, h), t0, t3) == 0.0
    ensures p.a == 0.0
  {
    hide X01, X13, Cross, KS13, KS33;
    var e := 2.0 / p.r - 2.0 * phi;
    Relations(p);
    assert e * p.r == 2.0 - 2.0 * phi * p.r;
    SpinVanishes(p.r, p.a, p.s2, Rho2(p), Delta(p), 2.0 * p.r / Rho2(p), phi, e, e / Gap(p, phi), p.a / Delta(p));
  }

  lemma SpinVanishes(r: real, a: real, s2: real, rho2: real, d: real, h: real, phi: real, e: real, t0: real, t3: real)
    requires r != 0.0 && d != 0.0 && d == r * r - 2.0 * r + a * a && rho2 == r * r + a * a - a * a * s2
    requires h * rho2 == 2.0 * r && e * r == 2.0 - 2.0 * phi * r && t0 * (1.0 - e) == e && t3 * d == a
    requires X01(-1.0 + h - 2.0 * phi, h - 2.0 * phi, Cross(a, s2, h), t0, t3) == 0.0
    requires X13(Cross(a, s2, h), KS13(a, s2, h), KS33(a, s2, rho2, h), t0, t3) == 0.0
    ensures a == 0.0
  {
    var t := 2.0 * r / d;
    assert t * d == 2.0 * r;
    Sheared01(r, a, s2, rho2, d, h, t, t3);
    Sheared13(r, a, s2, rho2, d, h, t, t3);
    Same13(Cross(a, s2, h), KS13(a, s2, h), KS33(a, s2, rho2, h), t0, t, t3);
    Same01(-1.0 + h, h, phi, Cross(a, s2, h), t0, t, t3);
    hide X01, X13, KS13, KS33;
    assert h != 0.0;
    OnePlus(e, t0);
    if t0 == t {
      SameShear(r, a, d, phi, e, t0);
    } else {
      NoCross(a, s2, h);
      OnTheAxis(r, a, s2, rho2, h, phi, e, t0, t, d);
    }
  }

  lemma Same13(g03: real, g13: real, g33: real, t0: real, t: real, t3: real)
    requires X13(g03, g13, g33, t0, t3) == 0.0 && X13(g03, g13, g33, t, t3) == 0.0
    ensures t0 == t || g03 == 0.0
  {
    ZeroFactors(g03, t0 - t);
  }

  lemma Same01(g00: real, g01: real, phi: real, g03: real, t0: real, t: real, t3: real)
    requires X01(g00 - 2.0 * phi, g01 - 2.0 * phi, g03, t0, t3) == 0.0 && X01(g00, g01, g03, t, t3) == 0.0
    ensures (g00 - 2.0 * phi) * t0 + (g01 - 2.0 * phi) - (g00 * t + g01) == 0.0
  {
  }

  lemma OnePlus(e: real, t: real)
    requires t * (1.0 - e) == e
    ensures (1.0 + t) * (1.0 - e) == 1.0
  {
  }

  lemma NoCross(a: real, s2: real, h: real)
    requires h != 0.0 && Cross(a, s2, h) == 0.0
    ensures a * s2 == 0.0
  {
    ZeroFactors(a * s2, h);
  }

  lemma ZeroFactors(x: real, y: real)
    requires x * y == 0.0
    ensures x == 0.0 || y == 0.0
  {
  }

  /** If the shear were that of the black hole alone. */
  lemma SameShear(r: real, a: real, d: real, phi: real, e: real, t: real)
    requires r != 0.0 && d != 0.0 && d == r * r - 2.0 * r + a * a && t * d == 2.0 * r
    requires e * r == 2.0 - 2.0 * phi * r && t * (1.0 - e) == e && (1.0 + t) * (1.0 - e) == 1.0
    requires -2.0 * phi * (t + 1.0) == 0.0
    ensures a == 0.0
  {
    assert t + 1.0 != 0.0;
    assert phi == 0.0;
    assert e * r == 2.0;
    assert t * (r - 2.0) == 2.0 by { assert t * (1.0 - e) * r == e * r; }
    assert (r - 2.0) * d == r * (r - 2.0) * (r - 2.0) + a * a * (r - 2.0);
    assert 2.0 * d == 2.0 * r * (r - 2.0) by { assert t * d * (r - 2.0) == 2.0 * r * (r - 2.0); }
    assert a * a == 0.0;
    ZeroFactors(a, a);
  }

  /** On the axis, where the cross terms vanish by themselves. */
  lemma OnTheAxis(r: real, a: real, s2: real, rho2: real, h: real, phi: real, e: real, t0: real, t: real, d: real)
    requires r != 0.0 && a * s2 == 0.0 && rho2 == r * r + a * a - a * a * s2 && h * rho2 == 2.0 * r
    requires e * r == 2.0 - 2.0 * phi * r && t0 * (1.0 - e) == e && (1.0 + t0) * (1.0 - e) == 1.0
    requires d != 0.0 && d == r * r - 2.0 * r + a * a && t * d == 2.0 * r
    requires (-1.0 + h - 2.0 * phi) * t0 + (h - 2.0 * phi) - ((-1.0 + h) * t + h) == 0.0
    ensures a == 0.0
  {
    assert a * a * s2 == 0.0;
    assert rho2 == d + 2.0 * r;
    assert ((-1.0 + h) * t + h) * d == 0.0;
    assert (-1.0 + h) * t + h == 0.0;
    var g := h - 2.0 * phi;
    assert (g - e) * (1.0 + t0) == 0.0;
    assert g == e;
    assert h * r == 2.0;
    assert a * a == rho2 - r * r;
    assert rho2 == r * r by { assert h * r * rho2 == 2.0 * r * r; }
    ZeroFactors(a, a);
  }

  /** With spin not all of these shifts vanish: of two opposite radial vectors with one time component,
      and of one with an angular part. */
  lemma SpinShifts(p: Place, phi: real, t: real, t': real, x: real, w: real)
    requires RegularExtG(p, phi) && p.a != 0.0 && t != 0.0 && x != 0.0 && w != 0.0
    ensures || Offset(p, phi, Vec(t, x, 0.0, 0.0)) != 0.0 || Offset(p, phi, Vec(t, -x, 0.0, 0.0)) != 0.0
            || Offset(p, phi, Vec(t', x, 0.0, w)) != 0.0
  {
    hide X01, X11, X13, Cross, KS13, KS33, Mu, Gap, Rho2, Delta, Excess;
    var h, rho2, t0, t3 := 2.0 * p.r / Rho2(p), Rho2(p), (2.0 / p.r - 2.0 * phi) / Gap(p, phi), p.a / Delta(p);
    var x01 := X01(-1.0 + h - 2.0 * phi, h - 2.0 * phi, Cross(p.a, p.s2, h), t0, t3);
    var x13 := X13(Cross(p.a, p.s2, h), KS13(p.a, p.s2, h), KS33(p.a, p.s2, rho2, h), t0, t3);
    var x11 := X11(-1.0 + h - 2.0 * phi, h - 2.0 * phi, Cross(p.a, p.s2, h), 1.0 + h - 2.0 * phi, KS13(p.a, p.s2, h),
                   KS33(p.a, p.s2, rho2, h), t0, t3);
    var e11 := x11 - Mu(p) / Gap(p, phi);
    if Excess(x01, x13, e11, Vec(t, x, 0.0, 0.0)) == 0.0 && Excess(x01, x13, e11, Vec(t, -x, 0.0, 0.0)) == 0.0
       && Excess(x01, x13, e11, Vec(t', x, 0.0, w)) == 0.0 {
      NoExcess(x01, x13, e11, t, t', x, w);
      OnlyWithoutSpin(p, phi);
    }
  }

  lemma NoExcess(e01: real, e13: real, e11: real, t: real, t': real, x: real, w: real)
    requires t != 0.0 && x != 0.0 && w != 0.0
    requires Excess(e01, e13, e11, Vec(t, x, 0.0, 0.0)) == 0.0 && Excess(e01, e13, e11, Vec(t, -x, 0.0, 0.0)) == 0.0
             && Excess(e01, e13, e11, Vec(t', x, 0.0, w)) == 0.0
    ensures e01 == 0.0 && e13 == 0.0
  {
    assert 2.0 * (e01 * t) + e11 * x == 0.0 && 2.0 * (e01 * t) - e11 * x == 0.0;
    assert e01 * t == 0.0;
    assert e01 == 0.0 && e11 == 0.0;
    assert e13 * w == 0.0;
  }
}
