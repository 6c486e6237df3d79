/** The four-vectors of a zone from its primitive velocity and field (calc_4vecs). */
module FourVectors {
  import opened Matrix
  import opened KerrSchild
  import opened Embedding

  /** The metric, its inverse, the root of minus its determinant and the root of minus g^tt. */
  datatype Geometry = Geometry(gcov: Mat, gcon: Mat, gdet: real, root: real)

  /** A zone: geometry, primitive velocity and field (time components unused), and the root of
      1 + q^2. */
  datatype RawZone = RawZone(geo: Geometry, u: Vec, b: Vec, gamma: real) {
    /** The metric is symmetric and inverted by gcon, and the roots are the positive roots. */
    predicate Ok() {
      && Symmetric(geo.gcov) && Times(geo.gcon, geo.gcov) == Diagonal(1.0)
      && gamma > 0.0 && gamma * gamma == QuadC(geo.gcov, u)
      && geo.gcon.r0.x0 < 0.0 && geo.root > 0.0 && geo.root * geo.root == -geo.gcon.r0.x0
    }
  }

  const REST := RawZone(Geometry(Flat(), Flat(), 1.0, 1.0), Vec(0.0, 0.0, 0.0, 0.0), Vec(0.0, 0.0, 0.0, 0.0), 1.0)

  function Flat(): Mat {
    Mat(Vec(-1.0, 0.0, 0.0, 0.0), Vec(0.0, 1.0, 0.0, 0.0), Vec(0.0, 0.0, 1.0, 0.0), Vec(0.0, 0.0, 0.0, 1.0))
  }

  lemma DotFlat(v: Vec)
    ensures Dot(Flat().r0, v) == -v.x0 && Dot(Flat().r1, v) == v.x1 && Dot(Flat().r2, v) == v.x2
            && Dot(Flat().r3, v) == v.x3
  {
  }

  lemma RestIsOk()
    ensures REST.Ok()
  {
    DotFlat(Col(Flat(), 0)); DotFlat(Col(Flat(), 1)); DotFlat(Col(Flat(), 2)); DotFlat(Col(Flat(), 3));
    hide Dot;
  }

  type Zone = z: RawZone | z.Ok() witness (RestIsOk(); REST)

  /** gamma times alpha. */
  function Drift(z: Zone): real { z.gamma * (1.0 / z.geo.root) }

  function UCon(z: Zone): (u: Vec)
    ensures u.x0 == z.gamma * z.geo.root && u.x0 > 0.0
  {
    var alpha := 1.0 / z.geo.root;
    LapseTimesRoot(alpha, z.gamma, z.geo.root);
    Vec(z.gamma / alpha, z.u.x1 - Product(Drift(z), z.geo.gcon.r0.x1), z.u.x2 - Product(Drift(z), z.geo.gcon.r0.x2),
        z.u.x3 - Product(Drift(z), z.geo.gcon.r0.x3))
  }

  function UCov(z: Zone): Vec { Apply(z.geo.gcov, UCon(z)) }

  function BTime(z: Zone): real { z.b.x1 * UCov(z).x1 + z.b.x2 * UCov(z).x2 + z.b.x3 * UCov(z).x3 }

  function BCon(z: Zone): Vec {
    var u, b0 := UCon(z), BTime(z);
    Vec(b0, (z.b.x1 + b0 * u.x1) / u.x0, (z.b.x2 + b0 * u.x2) / u.x0, (z.b.x3 + b0 * u.x3) / u.x0)
  }

  lemma LapseTimesRoot(alpha: real, gamma: real, root: real)
    requires root > 0.0 && alpha == 1.0 / root && gamma > 0.0
    ensures alpha > 0.0 && alpha * root == 1.0 && gamma / alpha == gamma * root && gamma * root > 0.0
  {
    assert alpha * root == 1.0;
    assert gamma * root * alpha == gamma;
  }

  // -- Algebra of combinations

  function Along(v: Vec, c: real, w: Vec): Vec {
    Vec(v.x0 + Product(c, w.x0), v.x1 + Product(c, w.x1), v.x2 + Product(c, w.x2), v.x3 + Product(c, w.x3))
  }

  lemma DotAlong(r: Vec, v: Vec, c: real, w: Vec)
    ensures Dot(r, Along(v, c, w)) == Dot(r, v) + Product(c, Dot(r, w))
  {
  }

  lemma ApplyAlong(g: Mat, v: Vec, c: real, w: Vec)
    ensures Apply(g, Along(v, c, w)) == Along(Apply(g, v), c, Apply(g, w))
  {
    hide Dot, Product;
    DotAlong(g.r0, v, c, w); DotAlong(g.r1, v, c, w); DotAlong(g.r2, v, c, w); DotAlong(g.r3, v, c, w);
  }

  lemma FormAlong(g: Mat, v: Vec, c: real, w: Vec, y: Vec)
    ensures Form(g, y, Along(v, c, w)) == Form(g, y, v) + Product(c, Form(g, y, w))
  {
    hide Dot, Apply, Product;
    ApplyAlong(g, v, c, w);
    DotAlong(y, Apply(g, v), c, Apply(g, w));
  }

  /** The form of a combination with itself. */
  lemma FormOfAlong(g: Mat, v: Vec, c: real, w: Vec)
    requires Symmetric(g)
    ensures Form(g, Along(v, c, w), Along(v, c, w))
            == Form(g, v, v) + 2.0 * Product(c, Form(g, v, w)) + Product(c, Product(c, Form(g, w, w)))
  {
    hide Form, Along;
    var y := Along(v, c, w);
    FormAlong(g, v, c, w, y);
    FormIsSymmetric(g, y, v); FormIsSymmetric(g, y, w);
    FormAlong(g, v, c, w, v); FormAlong(g, v, c, w, w);
    FormIsSymmetric(g, w, v);
  }

  // -- The normal

  /** Lowering the first row of the inverse gives the time axis. */
  lemma NormalLowered(z: Zone)
    ensures Apply(z.geo.gcov, z.geo.gcon.r0) == Vec(1.0, 0.0, 0.0, 0.0)
  {
    var g, n := z.geo.gcov, z.geo.gcon.r0;
    assert At(g, 0, 1) == At(g, 1, 0) && At(g, 0, 2) == At(g, 2, 0) && At(g, 0, 3) == At(g, 3, 0);
    assert At(g, 1, 2) == At(g, 2, 1) && At(g, 1, 3) == At(g, 3, 1) && At(g, 2, 3) == At(g, 3, 2);
    assert Times(z.geo.gcon, g).r0 == RowTimes(n, g) == Vec(1.0, 0.0, 0.0, 0.0);
    assert Col(g, 0) == g.r0 && Col(g, 1) == g.r1 && Col(g, 2) == g.r2 && Col(g, 3) == g.r3;
    hide Dot, Times;
    DotCommutes(n, g.r0); DotCommutes(n, g.r1); DotCommutes(n, g.r2); DotCommutes(n, g.r3);
  }

  lemma FormOfNormal(z: Zone, v: Vec)
    ensures Form(z.geo.gcov, v, z.geo.gcon.r0) == v.x0
  {
    NormalLowered(z);
    hide Apply;
  }

  /** How far along the normal a vector with time component `t` lies. */
  function Lift(z: Zone, t: real): real { SquareIsPositive(z.geo.root); -t / Squared(z.geo.root) }

  lemma LiftTimes(z: Zone, t: real)
    ensures Product(Lift(z, t), z.geo.gcon.r0.x0) == t
  {
    SquareIsPositive(z.geo.root);
    Quotient(Lift(z, t), t, Squared(z.geo.root), z.geo.gcon.r0.x0);
  }

  lemma SquareIsPositive(x: real)
    requires x > 0.0
    ensures Squared(x) > 0.0
  {
    PositiveTimes(x, x, Squared(x));
  }

  lemma PositiveTimes(x: real, y: real, z: real)
    requires x > 0.0 && y > 0.0 && z == x * y
    ensures z > 0.0
  {
  }

  lemma Quotient(q: real, t: real, s: real, g: real)
    requires s != 0.0 && q == -t / s && g == -s
    ensures Product(q, g) == t
  {
    assert q * s == -t;
  }

  /** The velocity, as the primitive one completed along the normal. */
  lemma UConIsAlong(z: Zone)
    ensures UCon(z) == Along(Spatial(z.u), Lift(z, UCon(z).x0), z.geo.gcon.r0)
  {
    hide Product, Symmetric, Times, QuadC, Squared;
    LiftTimes(z, UCon(z).x0);
    LiftOfVelocity(z.gamma, z.geo.root, 1.0 / z.geo.root);
    var n := z.geo.gcon.r0;
    assert Lift(z, UCon(z).x0) == -Drift(z);
    hide Lift, Drift;
    NegatesFirst(Drift(z), n.x1); NegatesFirst(Drift(z), n.x2); NegatesFirst(Drift(z), n.x3);
  }

  lemma LiftOfVelocity(gamma: real, root: real, alpha: real)
    requires root > 0.0 && alpha == 1.0 / root
    ensures Squared(root) > 0.0 && -(gamma * root) / Squared(root) == -(gamma * alpha)
  {
    SquareIsPositive(root);
    assert alpha * root == 1.0;
    assert gamma * alpha * Squared(root) == gamma * root;
  }

  /** The norm of any vector whose primitive velocity is `z.u`. */
  lemma NormOfLifted(z: Zone, t: real)
    ensures var v := Along(Spatial(z.u), Lift(z, t), z.geo.gcon.r0);
            Form(z.geo.gcov, v, v) == QuadC(z.geo.gcov, z.u) - 1.0 + Product(Lift(z, t), t)
  {
    hide Form, QuadC, Symmetric, Product;
    var w, n := Spatial(z.u), z.geo.gcon.r0;
    FormOfAlong(z.geo.gcov, w, Lift(z, t), n);
    SpatialNorm(z.geo.gcov, z.u);
    FormOfNormal(z, w); FormOfNormal(z, n);
    LiftTimes(z, t);
    assert Product(Lift(z, t), 0.0) == 0.0 by { ByZero(Lift(z, t)); }
  }

  lemma ByZero(c: real)
    ensures Product(c, 0.0) == 0.0
  {
  }

  lemma SquareOfTime(gamma: real, root: real, t: real, s: real, c: real)
    requires gamma > 0.0 && s == Squared(root) && s > 0.0 && c == -t / s
    ensures Squared(gamma) - 1.0 + Product(c, t) == -1.0 <==> Squared(t) == Squared(gamma * root)
  {
    assert c * s == -t;
    assert s * Product(c, t) == -Squared(t);
    assert s * -Squared(gamma) == -Squared(gamma * root);
    Cancel(s, Product(c, t), -Squared(gamma));
  }

  /** fourvel_to_prim: the part of a four-velocity across the normal. */
  function FourvelToPrim(gcon: Mat, v: Vec): Vec
    requires gcon.r0.x0 != 0.0
  {
    var alpha2 := -1.0 / gcon.r0.x0;
    Vec(0.0, v.x1 + Product(Product(v.x0, alpha2), gcon.r0.x1), v.x2 + Product(Product(v.x0, alpha2), gcon.r0.x2),
        v.x3 + Product(Product(v.x0, alpha2), gcon.r0.x3))
  }

  /** It is what is left of the vector once its part along the normal is taken off. */
  lemma PrimIsAcross(z: Zone, v: Vec)
    ensures FourvelToPrim(z.geo.gcon, v) == Spatial(z.u) <==> v == Along(Spatial(z.u), Lift(z, v.x0), z.geo.gcon.r0)
  {
    var n, c := z.geo.gcon.r0, Product(v.x0, -1.0 / z.geo.gcon.r0.x0);
    LiftTimes(z, v.x0);
    SquareIsPositive(z.geo.root);
    assert n.x0 == -Squared(z.geo.root);
    OverNegative(v.x0, Squared(z.geo.root), n.x0);
    NegatesFirst(c, n.x1); NegatesFirst(c, n.x2); NegatesFirst(c, n.x3);
    hide Product, Symmetric, Times, QuadC, Squared;
  }

  lemma OverNegative(t: real, s: real, g: real)
    requires s > 0.0 && g == -s
    ensures -t / s == -Product(t, -1.0 / g)
  {
  }

  /** The velocity is the one future four-velocity of norm -1 that fourvel_to_prim takes back to the
      primitive velocity: each undoes the other. */
  lemma OnlyVelocity(z: Zone, v: Vec)
    ensures v == UCon(z)
       <==> Form(z.geo.gcov, v, v) == -1.0 && v.x0 > 0.0 && FourvelToPrim(z.geo.gcon, v) == Spatial(z.u)
  {
    UConIsAlong(z);
    PrimIsAcross(z, v);
    hide UCon, Form, Along, Lift, FourvelToPrim;
    if v == Along(Spatial(z.u), Lift(z, v.x0), z.geo.gcon.r0) && v.x0 > 0.0 {
      NormFixesTime(z, v.x0);
    }
  }

  /** From a velocity in Boyer-Lindquist coordinates through bl_fourvel_to_native and fourvel_to_prim:
      the velocity the zone evolves is the one asked for. */
  lemma PrimitivesHoldVelocity(z: Zone, base: Base, p: Place, dxdX: Mat, dXdx: Mat, u: Vec, root: real)
    requires RegularAt(base, p) && QuadA(GivenIn(base, p)) != 0.0 && root * root == Discriminant(GivenIn(base, p), u)
    requires Times(dxdX, dXdx) == Diagonal(1.0) && z.geo.gcov == Pullback(MetricOf(base, p), dxdX)
    requires var n := NativeVelocity(base, p, dXdx, u, root); n.x0 > 0.0 && Spatial(z.u) == FourvelToPrim(z.geo.gcon, n)
    ensures UCon(z) == NativeVelocity(base, p, dXdx, u, root)
       <==> NormKept(base, p, WithTime(GivenIn(base, p), u, root))
  {
    hide UCon, Form, FourvelToPrim, NativeVelocity, NormKept, WithTime, GivenIn, MetricOf, Pullback, Times,
        Discriminant, QuadA;
    PipelineNorm(base, p, dxdX, dXdx, u, root);
    OnlyVelocity(z, NativeVelocity(base, p, dXdx, u, root));
  }

  lemma NormFixesTime(z: Zone, t: real)
    requires t > 0.0
    ensures var v := Along(Spatial(z.u), Lift(z, t), z.geo.gcon.r0);
            Form(z.geo.gcov, v, v) == -1.0 <==> t == UCon(z).x0
  {
    NormOfLifted(z, t);
    TimeOfVelocity(z, t);
    hide Form, Along, Lift, QuadC, Product, UCon;
  }

  lemma TimeOfVelocity(z: Zone, t: real)
    requires t > 0.0
    ensures QuadC(z.geo.gcov, z.u) - 1.0 + Product(Lift(z, t), t) == -1.0 <==> t == UCon(z).x0
  {
    hide QuadC, Symmetric, Times, UCon;
    SquareIsPositive(z.geo.root);
    SquareOfTime(z.gamma, z.geo.root, t, Squared(z.geo.root), Lift(z, t));
    if Squared(t) == Squared(z.gamma * z.geo.root) { SameSquare(t, UCon(z).x0); }
  }

  lemma SameSquare(x: real, y: real)
    requires x > 0.0 && y > 0.0 && Squared(x) == Squared(y)
    ensures x == y
  {
    assert (x - y) * (x + y) == 0.0;
  }

  // -- The field

  /** bcon is the primitive field completed along the velocity. */
  lemma BConTimes(z: Zone)
    ensures var u, b := UCon(z), BCon(z);
            && Product(u.x0, b.x1) == z.b.x1 + Product(b.x0, u.x1)
            && Product(u.x0, b.x2) == z.b.x2 + Product(b.x0, u.x2)
            && Product(u.x0, b.x3) == z.b.x3 + Product(b.x0, u.x3)
  {
    hide UCon, UCov;
    var u, b := UCon(z), BCon(z);
    Undivide(u.x0, z.b.x1, b.x0, u.x1); Undivide(u.x0, z.b.x2, b.x0, u.x2); Undivide(u.x0, z.b.x3, b.x0, u.x3);
  }

  lemma Undivide(d: real, x: real, b0: real, y: real)
    requires d != 0.0
    ensures Product(d, (x + b0 * y) / d) == x + Product(b0, y)
  {
  }

  lemma NormOfVelocity(z: Zone)
    ensures Form(z.geo.gcov, UCon(z), UCon(z)) == -1.0
  {
    OnlyVelocity(z, UCon(z));
  }

  /** The dual of the field tensor, which fluxes and centred EMFs are made of. */
  function Dual(b: Vec, u: Vec, i: int, j: int): real { Product(Get(b, i), Get(u, j)) - Product(Get(b, j), Get(u, i)) }

  /** Of a vector `b` across the four-velocity, the primitive field determines everything. */
  lemma Orthogonal(u0: real, u1: real, u2: real, u3: real, l0: real, l1: real, l2: real, l3: real,
                   b0: real, b1: real, b2: real, b3: real, p1: real, p2: real, p3: real)
    requires u0 > 0.0 && u0 * l0 + u1 * l1 + u2 * l2 + u3 * l3 == -1.0
    requires u0 * b1 == p1 + b0 * u1 && u0 * b2 == p2 + b0 * u2 && u0 * b3 == p3 + b0 * u3
    ensures b0 * l0 + b1 * l1 + b2 * l2 + b3 * l3 == 0.0 <==> b0 == p1 * l1 + p2 * l2 + p3 * l3
  {
    var x := b0 * l0 + b1 * l1 + b2 * l2 + b3 * l3;
    assert u0 * x == b0 * (u0 * l0) + (p1 + b0 * u1) * l1 + (p2 + b0 * u2) * l2 + (p3 + b0 * u3) * l3 by {
      assert u0 * b1 * l1 == (p1 + b0 * u1) * l1 && u0 * b2 * l2 == (p2 + b0 * u2) * l2
             && u0 * b3 * l3 == (p3 + b0 * u3) * l3;
    }
    assert u0 * x == p1 * l1 + p2 * l2 + p3 * l3 + b0 * (u0 * l0 + u1 * l1 + u2 * l2 + u3 * l3);
    assert u0 * x == p1 * l1 + p2 * l2 + p3 * l3 - b0;
    if x == 0.0 { assert u0 * x == 0.0; } else if u0 * x == 0.0 { assert false; }
  }

  /** `b` is orthogonal to the velocity and gives back the primitive field. */
  predicate Completes(z: Zone, b: Vec) {
    && Form(z.geo.gcov, b, UCon(z)) == 0.0
    && Dual(b, UCon(z), 1, 0) == z.b.x1 && Dual(b, UCon(z), 2, 0) == z.b.x2 && Dual(b, UCon(z), 3, 0) == z.b.x3
  }

  /** The field is the one vector that does. */
  lemma OnlyField(z: Zone, b: Vec)
    ensures b == BCon(z) <==> Completes(z, b)
  {
    BConGivesBack(z);
    hide UCon, BCon, BTime, Form, Dual;
    var u, c := UCon(z), BCon(z);
    if Completes(z, b) {
      TimeOfField(z, b);
      SameSpace(u, b, c);
    } else if b == c {
      TimeOfField(z, c);
    }
  }

  lemma BConGivesBack(z: Zone)
    ensures var u, b := UCon(z), BCon(z);
            b.x0 == BTime(z) && Dual(b, u, 1, 0) == z.b.x1 && Dual(b, u, 2, 0) == z.b.x2 && Dual(b, u, 3, 0) == z.b.x3
  {
    hide UCon, UCov;
    BConTimes(z);
  }

  lemma SameSpace(u: Vec, b: Vec, c: Vec)
    requires u.x0 > 0.0 && b.x0 == c.x0
    requires Dual(b, u, 1, 0) == Dual(c, u, 1, 0) && Dual(b, u, 2, 0) == Dual(c, u, 2, 0)
             && Dual(b, u, 3, 0) == Dual(c, u, 3, 0)
    ensures b == c
  {
    Cancel(u.x0, b.x1, c.x1); Cancel(u.x0, b.x2, c.x2); Cancel(u.x0, b.x3, c.x3);
  }

  lemma OrthogonalVec(u: Vec, l: Vec, b: Vec, p: Vec)
    requires u.x0 > 0.0 && Dot(u, l) == -1.0
    requires Dual(b, u, 1, 0) == p.x1 && Dual(b, u, 2, 0) == p.x2 && Dual(b, u, 3, 0) == p.x3
    ensures Dot(b, l) == 0.0 <==> b.x0 == p.x1 * l.x1 + p.x2 * l.x2 + p.x3 * l.x3
  {
    Orthogonal(u.x0, u.x1, u.x2, u.x3, l.x0, l.x1, l.x2, l.x3, b.x0, b.x1, b.x2, b.x3, p.x1, p.x2, p.x3);
  }

  lemma TimeOfField(z: Zone, b: Vec)
    requires Dual(b, UCon(z), 1, 0) == z.b.x1 && Dual(b, UCon(z), 2, 0) == z.b.x2 && Dual(b, UCon(z), 3, 0) == z.b.x3
    ensures Form(z.geo.gcov, b, UCon(z)) == 0.0 <==> b.x0 == BTime(z)
  {
    hide UCon, Dual, Dot, Apply;
    NormOfVelocity(z);
    OrthogonalVec(UCon(z), UCov(z), b, z.b);
  }

  lemma Cancel(d: real, x: real, y: real)
    requires d > 0.0
    ensures d * x == d * y ==> x == y
  {
    if d * x == d * y { assert d * (x - y) == 0.0; }
  }

  /** The primitive field completed along the velocity. */
  lemma FieldIsAlong(z: Zone)
    ensures ScaledVec(BCon(z), UCon(z).x0) == Along(Spatial(z.b), BTime(z), UCon(z))
  {
    BConTimes(z);
    hide UCon, UCov, BTime;
  }

  lemma FormOfScaled(g: Mat, v: Vec, s: real)
    ensures Form(g, ScaledVec(v, s), ScaledVec(v, s)) == Product(s, Product(s, Form(g, v, v)))
  {
    hide Dot;
    var a, w := Apply(g, v), ScaledVec(v, s);
    DotScaled(g.r0, v, s); DotScaled(g.r1, v, s); DotScaled(g.r2, v, s); DotScaled(g.r3, v, s);
    assert Apply(g, w) == ScaledVec(a, s);
    hide Apply;
    DotScaled(w, a, s);
    DotCommutes(w, a); DotScaled(a, v, s); DotCommutes(a, v);
  }

  lemma DotSpatial(b: Vec, w: Vec)
    ensures Dot(Spatial(b), w) == b.x1 * w.x1 + b.x2 * w.x2 + b.x3 * w.x3
  {
  }

  /** Twice the magnetic pressure: what the primitive field has, and its part along the velocity. */
  lemma FieldStrength(z: Zone)
    ensures var u0, b0, g := UCon(z).x0, BCon(z).x0, z.geo.gcov;
            Product(u0, Product(u0, Form(g, BCon(z), BCon(z)))) == Form(g, Spatial(z.b), Spatial(z.b)) + Product(b0, b0)
  {
    var g, u, p, b0 := z.geo.gcov, UCon(z), Spatial(z.b), BTime(z);
    FieldIsAlong(z);
    FormOfScaled(g, BCon(z), u.x0);
    FormOfAlong(g, p, b0, u);
    NormOfVelocity(z);
    DotSpatial(z.b, UCov(z));
    assert Form(g, p, u) == b0;
    assert Product(b0, -1.0) == -b0;
    Negates(b0, b0);
    hide Form, BTime, UCon, Product;
  }

  lemma NegatesFirst(x: real, y: real)
    ensures Product(-x, y) == -Product(x, y)
  {
  }

  lemma Negates(x: real, y: real)
    ensures Product(x, -y) == -Product(x, y)
  {
  }

  // -- Fluxes and EMFs

  /** The flux of field component `v` along `d` at this zone (prim_to_flux). */
  function FieldFlux(z: Zone, d: int, v: int): real { Product(Dual(BCon(z), UCon(z), v, d), z.geo.gdet) }

  /** The EMF at the zone centre, with `a` and `b` the directions after that of the EMF. */
  function CentreEMF(z: Zone, a: int, b: int): real { Product(Dual(BCon(z), UCon(z), a, b), z.geo.gdet) }

  /** The coordinate velocity. */
  function Coordinate(z: Zone, i: int): real { Get(UCon(z), i) / UCon(z).x0 }

  /** The EMF is that of a conductor moving at the coordinate velocity: B x v, densitised. */
  lemma EMFIsMotional(z: Zone, a: int, b: int)
    requires 1 <= a <= 3 && 1 <= b <= 3
    ensures CentreEMF(z, a, b)
         == Product(Product(Get(z.b, a), Coordinate(z, b)) - Product(Get(z.b, b), Coordinate(z, a)), z.geo.gdet)
  {
    var u, f := UCon(z), BCon(z);
    BConTimesAt(z, a); BConTimesAt(z, b);
    hide UCon, BCon, Get;
    DualOfLifted(u.x0, f.x0, Get(z.b, a), Get(z.b, b), Get(f, a), Get(f, b), Get(u, a), Get(u, b),
                 Coordinate(z, a), Coordinate(z, b));
    hide Product, Coordinate;
  }

  lemma BConTimesAt(z: Zone, i: int)
    requires 1 <= i <= 3
    ensures var u, f := UCon(z), BCon(z);
            Product(u.x0, Get(f, i)) == Get(z.b, i) + Product(f.x0, Get(u, i))
  {
    BConTimes(z);
    hide UCon, BCon, Product;
  }

  lemma DualOfLifted(u0: real, b0: real, p: real, q: real, b: real, c: real, u: real, v: real, x: real, y: real)
    requires u0 > 0.0 && Product(u0, b) == p + Product(b0, u) && Product(u0, c) == q + Product(b0, v) && x == u / u0
             && y == v / u0
    ensures Product(b, v) - Product(c, u) == Product(p, y) - Product(q, x)
  {
    assert v == u0 * y && u == u0 * x;
    assert b * v == b * u0 * y == (p + b0 * u) * y;
    assert c * u == c * u0 * x == (q + b0 * v) * x;
    assert b0 * u * y == b0 * v * x;
  }

  /** The EMF times a vector. */
  function Work(z: Zone, v: Vec): real {
    Product(CentreEMF(z, 2, 3), v.x1) + Product(CentreEMF(z, 3, 1), v.x2) + Product(CentreEMF(z, 1, 2), v.x3)
  }

  /** No electric field along the flow or along the field. */
  lemma EMFIsIdeal(z: Zone)
    ensures Work(z, UCon(z)) == 0.0 && Work(z, z.b) == 0.0
  {
    BConTimes(z);
    var u, f := UCon(z), BCon(z);
    hide UCon, BCon;
    Triple(u.x1, u.x2, u.x3, f.x1, f.x2, f.x3, z.geo.gdet);
    Spread(CentreEMF(z, 2, 3), CentreEMF(z, 3, 1), CentreEMF(z, 1, 2), u.x0, f.x0, u.x1, u.x2, u.x3, f.x1, f.x2, f.x3);
    assert z.b.x1 == Product(u.x0, f.x1) - Product(f.x0, u.x1) && z.b.x2 == Product(u.x0, f.x2) - Product(f.x0, u.x2);
    assert z.b.x3 == Product(u.x0, f.x3) - Product(f.x0, u.x3);
    hide Product;
  }

  lemma Triple(u1: real, u2: real, u3: real, b1: real, b2: real, b3: real, g: real)
    ensures var x, y, w := Product(Product(b2, u3) - Product(b3, u2), g), Product(Product(b3, u1) - Product(b1, u3), g),
                           Product(Product(b1, u2) - Product(b2, u1), g);
            && Product(x, u1) + Product(y, u2) + Product(w, u3) == 0.0
            && Product(x, b1) + Product(y, b2) + Product(w, b3) == 0.0
  {
  }

  lemma Spread(x: real, y: real, w: real, u0: real, b0: real, u1: real, u2: real, u3: real, b1: real, b2: real,
               b3: real)
    requires Product(x, u1) + Product(y, u2) + Product(w, u3) == 0.0
    requires Product(x, b1) + Product(y, b2) + Product(w, b3) == 0.0
    ensures Product(x, Product(u0, b1) - Product(b0, u1)) + Product(y, Product(u0, b2) - Product(b0, u2))
            + Product(w, Product(u0, b3) - Product(b0, u3)) == 0.0
  {
    var p, q := x * b1 + y * b2 + w * b3, x * u1 + y * u2 + w * u3;
    assert x * (u0 * b1 - b0 * u1) + y * (u0 * b2 - b0 * u2) + w * (u0 * b3 - b0 * u3)
        == u0 * (x * b1 + y * b2 + w * b3) - b0 * (x * u1 + y * u2 + w * u3);
    assert u0 * p == 0.0 && b0 * q == 0.0;
  }

  // -- On storage

  /** The first `n` terms of the sum that makes bcon[0]. */
  function PartTime(z: Zone, n: nat): real {
    if n == 0 then 0.0 else PartTime(z, n - 1) + Product(Get(z.b, n), Get(UCov(z), n))
  }

  lemma WholeTime(z: Zone)
    ensures PartTime(z, 3) == BTime(z)
  {
    hide UCov;
    assert PartTime(z, 1) == Product(z.b.x1, UCov(z).x1);
    assert PartTime(z, 2) == Product(z.b.x1, UCov(z).x1) + Product(z.b.x2, UCov(z).x2);
  }

  /** The velocity with its space part filled in a loop. */
  method FillVelocity(z: Zone, ucon: array<real>)
    requires ucon.Length == 4
    modifies ucon
    ensures ReadVec(ucon) == UCon(z)
  {
    var alpha := 1.0 / z.geo.root;
    LapseTimesRoot(alpha, z.gamma, z.geo.root);
    ucon[0] := z.gamma / alpha;
    for v := 1 to 4
      invariant ucon[0] == UCon(z).x0
      invariant forall i | 1 <= i < v :: ucon[i] == Get(UCon(z), i)
    {
      ucon[v] := Get(z.u, v) - Product(Drift(z), Get(z.geo.gcon.r0, v));
    }
  }

  /** The field, its time component accumulated first. */
  method FillField(z: Zone, ucon: array<real>, ucov: array<real>, bcon: array<real>)
    requires ucon.Length == 4 && ucov.Length == 4 && bcon.Length == 4 && bcon != ucon && bcon != ucov
    requires ReadVec(ucon) == UCon(z) && ReadVec(ucov) == UCov(z)
    modifies bcon
    ensures ReadVec(bcon) == BCon(z)
  {
    hide UCon, UCov;
    bcon[0] := 0.0;
    for v := 0 to 3
      invariant bcon[0] == PartTime(z, v)
    {
      VecEntry(ucov, v + 1);
      bcon[0] := bcon[0] + Product(Get(z.b, v + 1), ucov[v + 1]);
    }
    WholeTime(z);
    for v := 1 to 4
      invariant bcon[0] == BTime(z)
      invariant forall i | 1 <= i < v :: bcon[i] == Get(BCon(z), i)
    {
      VecEntry(ucon, v);
      bcon[v] := (Get(z.b, v) + bcon[0] * ucon[v]) / ucon[0];
    }
  }

  /** calc_4vecs. */
  method Calc4Vecs(z: Zone, gcov: array<real>, ucon: array<real>, ucov: array<real>, bcon: array<real>,
                   bcov: array<real>)
    requires gcov.Length == 16 && Read(gcov) == z.geo.gcov
    requires ucon.Length == 4 && ucov.Length == 4 && bcon.Length == 4 && bcov.Length == 4
    requires ucon != ucov && ucon != bcon && ucon != bcov && ucov != bcon && ucov != bcov && bcon != bcov
    requires gcov != ucon && gcov != ucov && gcov != bcon && gcov != bcov
    modifies ucon, ucov, bcon, bcov
    ensures ReadVec(ucon) == UCon(z) && ReadVec(ucov) == UCov(z)
    ensures ReadVec(bcon) == BCon(z) && ReadVec(bcov) == Apply(z.geo.gcov, BCon(z))
    ensures Dot(ReadVec(ucon), ReadVec(ucov)) == -1.0 && Dot(ReadVec(bcon), ReadVec(ucov)) == 0.0
  {
    hide UCon, BCon, Apply, Read, Dot;
    FillVelocity(z, ucon);
    TransformVec(gcov, ucon, ucov);
    FillField(z, ucon, ucov, bcon);
    TransformVec(gcov, bcon, bcov);
    NormOfVelocity(z);
    OnlyField(z, BCon(z));
  }
}
