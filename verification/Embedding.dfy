/** Transforms between embedding and native coordinates, and the velocity pipeline built from them
    (coordinate_embedding.hpp). */
module Embedding {
  import opened Matrix
  import opened KerrSchild
  import opened ExternalGravity

  /** cov_tensor_to_native: both indices contracted with the Jacobian. */
  function Pullback(t: Mat, jac: Mat): Mat { Times(Transpose(jac), Times(t, jac)) }

  lemma DotTranspose(m: Mat, v: Vec, x: Vec)
    ensures Dot(v, Apply(Transpose(m), x)) == Dot(Apply(m, v), x)
  {
    hide SumOfProducts;
    DotOfApply(v, Transpose(m), x);
    RowsAndColumns(m);
    SumCommutes(v, m.r0); SumCommutes(v, m.r1); SumCommutes(v, m.r2); SumCommutes(v, m.r3);
  }

  lemma SumCommutes(v: Vec, w: Vec)
    ensures Dot(v, w) == Dot(w, v)
  {
  }

  /** The native metric of native vectors is the embedding metric of their images. */
  lemma PullbackForm(g: Mat, jac: Mat, v: Vec, w: Vec)
    ensures Form(Pullback(g, jac), v, w) == Form(g, Apply(jac, v), Apply(jac, w))
  {
    hide Dot, Apply, Times, Transpose;
    ApplyTimes(Transpose(jac), Times(g, jac), w);
    ApplyTimes(g, jac, w);
    DotTranspose(jac, v, Apply(g, Apply(jac, w)));
  }

  /** con_vec_to_native followed by con_vec_to_embed, with inverse Jacobians, changes no inner product. */
  lemma TransformKeepsForm(g: Mat, dxdX: Mat, dXdx: Mat, v: Vec, w: Vec)
    requires Times(dxdX, dXdx) == Diagonal(1.0)
    ensures Form(Pullback(g, dxdX), Apply(dXdx, v), Apply(dXdx, w)) == Form(g, v, w)
  {
    hide Form, Pullback, Apply, Times;
    PullbackForm(g, dxdX, Apply(dXdx, v), Apply(dXdx, w));
    ApplyTimes(dxdX, dXdx, v); ApplyIdentity(v);
    ApplyTimes(dxdX, dXdx, w); ApplyIdentity(w);
  }

  /** The base coordinates the pipeline treats, those with external gravity with the potential. */
  datatype Base = KS | BL | KSExtG(phi: real) | BLExtG(phi: real)

  predicate RegularAt(base: Base, p: Place) {
    if base.KS? || base.BL? then Regular(p) else RegularExtG(p, base.phi)
  }

  function MetricOf(base: Base, p: Place): Mat
    requires RegularAt(base, p)
  {
    match base
    case KS => MetricKS(p)
    case BL => MetricBL(p)
    case KSExtG(phi) => MetricKSExtG(p, phi)
    case BLExtG(phi) => MetricBLExtG(p, phi)
  }

  /** The Boyer-Lindquist metric velocities are given in. */
  function GivenIn(base: Base, p: Place): Mat
    requires RegularAt(base, p)
  {
    if base.KS? || base.BL? then MetricBL(p) else MetricBLExtG(p, base.phi)
  }

  /** From there to the base coordinates. */
  function ToBase(base: Base, p: Place, v: Vec): Vec
    requires RegularAt(base, p)
  {
    match base
    case KS => Apply(FromBL(p), v)
    case KSExtG(phi) => Apply(FromBLExtG(p, phi), v)
    case _ => v
  }

  /** bl_fourvel_to_native. */
  function NativeVelocity(base: Base, p: Place, dXdx: Mat, u: Vec, root: real): Vec
    requires RegularAt(base, p) && QuadA(GivenIn(base, p)) != 0.0
  {
    Apply(dXdx, ToBase(base, p, WithTime(GivenIn(base, p), u, root)))
  }

  lemma GivenInIsSymmetric(base: Base, p: Place)
    requires RegularAt(base, p)
    ensures Symmetric(GivenIn(base, p))
  {
  }

  /** The step to the base coordinates keeps the norm of this vector. */
  predicate NormKept(base: Base, p: Place, v: Vec)
    requires RegularAt(base, p)
  {
    base.KSExtG? ==> Offset(p, base.phi, v) == 0.0
  }

  lemma ToBaseKeepsNorm(base: Base, p: Place, v: Vec)
    requires RegularAt(base, p)
    ensures Form(MetricOf(base, p), ToBase(base, p, v), ToBase(base, p, v)) == Form(GivenIn(base, p), v, v)
       <==> NormKept(base, p, v)
  {
    hide Form, Apply, MetricKS, MetricBL, MetricKSExtG, MetricBLExtG, FromBL, FromBLExtG, Offset;
    match base
    case KS => FromBLIsIsometry(p, v, v);
    case KSExtG(phi) => NormShift(p, phi, v);
    case _ =>
  }

  /** With external gravity too nothing is added without spin, or to a velocity with no radial part. */
  lemma SafeVelocities(base: Base, p: Place, u: Vec, root: real)
    requires RegularAt(base, p) && QuadA(GivenIn(base, p)) != 0.0 && (p.a == 0.0 || u.x1 == 0.0)
    ensures NormKept(base, p, WithTime(GivenIn(base, p), u, root))
  {
    hide Offset, GivenIn, QuadA, QuadB;
    if base.KSExtG? { NoOffset(p, base.phi, WithTime(GivenIn(base, p), u, root)); }
  }

  /** Whatever spatial velocity goes in, a vector of norm -1 in the native metric comes out, but for
      what the step to the base coordinates adds to the norm, which is nothing without external gravity. */
  lemma PipelineNorm(base: Base, p: Place, dxdX: Mat, dXdx: Mat, u: Vec, root: real)
    requires RegularAt(base, p) && QuadA(GivenIn(base, p)) != 0.0 && root * root == Discriminant(GivenIn(base, p), u)
    requires Times(dxdX, dXdx) == Diagonal(1.0)
    ensures var n := NativeVelocity(base, p, dXdx, u, root);
            && (Form(Pullback(MetricOf(base, p), dxdX), n, n) == -1.0
                <==> NormKept(base, p, WithTime(GivenIn(base, p), u, root)))
            && (!base.KSExtG? || p.a == 0.0 || u.x1 == 0.0 ==> Form(Pullback(MetricOf(base, p), dxdX), n, n) == -1.0)
  {
    if p.a == 0.0 || u.x1 == 0.0 { SafeVelocities(base, p, u, root); }
    hide Form, Pullback, Apply, Times, MetricOf, GivenIn, ToBase, Symmetric, Discriminant, QuadA, QuadB, QuadC;
    var full := WithTime(GivenIn(base, p), u, root);
    GivenInIsSymmetric(base, p);
    CompletedNorm(GivenIn(base, p), u, root);
    ToBaseKeepsNorm(base, p, full);
    TransformKeepsForm(MetricOf(base, p), dxdX, dXdx, ToBase(base, p, full), ToBase(base, p, full));
  }

  /** What bl_fourvel_to_native returns has norm -1 in the native metric. */
  predicate ArrivesWithNorm(base: Base, p: Place, dxdX: Mat, dXdx: Mat, u: Vec, root: real)
    requires RegularAt(base, p) && QuadA(GivenIn(base, p)) != 0.0
  {
    var n := NativeVelocity(base, p, dXdx, u, root);
    Form(Pullback(MetricOf(base, p), dxdX), n, n) == -1.0
  }

  /** And does for every velocity that set_ut can complete. */
  ghost predicate AllArriveWithNorm(base: Base, p: Place, dxdX: Mat, dXdx: Mat)
    requires RegularAt(base, p) && QuadA(GivenIn(base, p)) != 0.0
  {
    forall u, root {:trigger NativeVelocity(base, p, dXdx, u, root)} |
      root >= 0.0 && root * root == Discriminant(GivenIn(base, p), u) :: ArrivesWithNorm(base, p, dxdX, dXdx, u, root)
  }

  /** A radial velocity and its opposite are completed with the same time component. */
  lemma RadialTimes(p: Place, phi: real, x: real, root: real)
    requires RegularExtG(p, phi) && QuadA(MetricBLExtG(p, phi)) != 0.0
    requires var g := MetricBLExtG(p, phi); root * root == Discriminant(g, Vec(0.0, x, 0.0, 0.0))
    ensures var g, t := MetricBLExtG(p, phi), -root / (2.0 * QuadA(MetricBLExtG(p, phi)));
            && Discriminant(g, Vec(0.0, -x, 0.0, 0.0)) == root * root
            && WithTime(g, Vec(0.0, x, 0.0, 0.0), root) == Vec(t, x, 0.0, 0.0)
            && WithTime(g, Vec(0.0, -x, 0.0, 0.0), root) == Vec(t, -x, 0.0, 0.0)
            && (QuadC(g, Vec(0.0, x, 0.0, 0.0)) != 0.0 ==> t != 0.0)
  {
    var g, u, v := MetricBLExtG(p, phi), Vec(0.0, x, 0.0, 0.0), Vec(0.0, -x, 0.0, 0.0);
    assert g.r0.x1 == 0.0;
    hide MetricBLExtG, GivenIn;
    assert QuadB(g, u) == 0.0 && QuadB(g, v) == 0.0;
    assert QuadC(g, u) == QuadC(g, v);
    hide QuadB, QuadC, QuadA;
    NonZeroTime(QuadA(g), QuadC(g, u), root, -root / (2.0 * QuadA(g)));
  }

  lemma NonZeroTime(a: real, c: real, root: real, t: real)
    requires a != 0.0 && root * root == -4.0 * a * c && t == -root / (2.0 * a)
    ensures c != 0.0 ==> t != 0.0
  {
    assert 2.0 * a * t == -root;
    if t == 0.0 { assert a * c == 0.0; }
  }

  /** With external gravity and spin, of any radial velocity, its opposite and one with an angular part
      not all arrive with norm -1, whatever the metric's native coordinates. */
  lemma SpinLosesNorm(p: Place, phi: real, dxdX: Mat, dXdx: Mat, x: real, w: real, root: real, root': real)
    requires RegularExtG(p, phi) && p.a != 0.0 && x != 0.0 && w != 0.0 && Times(dxdX, dXdx) == Diagonal(1.0)
    requires var g := MetricBLExtG(p, phi);
             && QuadA(g) != 0.0 && QuadC(g, Vec(0.0, x, 0.0, 0.0)) != 0.0
             && root * root == Discriminant(g, Vec(0.0, x, 0.0, 0.0))
             && root' * root' == Discriminant(g, Vec(0.0, x, 0.0, w))
    ensures || !ArrivesWithNorm(KSExtG(phi), p, dxdX, dXdx, Vec(0.0, x, 0.0, 0.0), root)
            || !ArrivesWithNorm(KSExtG(phi), p, dxdX, dXdx, Vec(0.0, -x, 0.0, 0.0), root)
            || !ArrivesWithNorm(KSExtG(phi), p, dxdX, dXdx, Vec(0.0, x, 0.0, w), root')
  {
    var base, g := KSExtG(phi), MetricBLExtG(p, phi);
    RadialTimes(p, phi, x, root);
    hide MetricBLExtG, Discriminant, QuadA, QuadB, QuadC, Offset, Form, Pullback, MetricOf, Times, NativeVelocity;
    SpinShifts(p, phi, -root / (2.0 * QuadA(g)), WithTime(g, Vec(0.0, x, 0.0, w), root').x0, x, w);
    PipelineNorm(base, p, dxdX, dXdx, Vec(0.0, x, 0.0, 0.0), root);
    PipelineNorm(base, p, dxdX, dXdx, Vec(0.0, -x, 0.0, 0.0), root);
    PipelineNorm(base, p, dxdX, dXdx, Vec(0.0, x, 0.0, w), root');
  }

  /** With external gravity every velocity arrives with norm -1 exactly when the black hole does not
      spin.  The roots given show that there are velocities to complete. */
  lemma AllArriveIff(p: Place, phi: real, dxdX: Mat, dXdx: Mat, x: real, w: real, root: real, root': real)
    requires RegularExtG(p, phi) && x != 0.0 && w != 0.0 && Times(dxdX, dXdx) == Diagonal(1.0)
    requires var g := MetricBLExtG(p, phi);
             && QuadA(g) != 0.0 && QuadC(g, Vec(0.0, x, 0.0, 0.0)) != 0.0
             && root >= 0.0 && root * root == Discriminant(g, Vec(0.0, x, 0.0, 0.0))
             && root' >= 0.0 && root' * root' == Discriminant(g, Vec(0.0, x, 0.0, w))
    ensures AllArriveWithNorm(KSExtG(phi), p, dxdX, dXdx) <==> p.a == 0.0
  {
    var base, g := KSExtG(phi), MetricBLExtG(p, phi);
    RadialTimes(p, phi, x, root);
    hide MetricBLExtG, Discriminant, QuadA, QuadB, QuadC, Form, Pullback, MetricOf, Times, NativeVelocity;
    if p.a == 0.0 {
      forall u, r | r >= 0.0 && r * r == Discriminant(GivenIn(base, p), u)
        ensures ArrivesWithNorm(base, p, dxdX, dXdx, u, r)
      {
        PipelineNorm(base, p, dxdX, dXdx, u, r);
      }
    } else {
      SpinLosesNorm(p, phi, dxdX, dXdx, x, w, root, root');
    }
  }

  // -- On storage

  ghost function ReadVec(a: array<real>): Vec
    requires a.Length == 4
    reads a
  {
    Vec(a[0], a[1], a[2], a[3])
  }

  /** The first `n` terms of a dot product. */
  function PartDot(v: Vec, w: Vec, n: nat): real {
    if n == 0 then 0.0 else PartDot(v, w, n - 1) + Product(Get(v, n - 1), Get(w, n - 1))
  }

  lemma WholeDot(v: Vec, w: Vec)
    ensures PartDot(v, w, 4) == Dot(v, w)
  {
    assert PartDot(v, w, 1) == Product(v.x0, w.x0);
    assert PartDot(v, w, 2) == Product(v.x0, w.x0) + Product(v.x1, w.x1);
    assert PartDot(v, w, 3) == Product(v.x0, w.x0) + Product(v.x1, w.x1) + Product(v.x2, w.x2);
  }

  lemma VecEntry(a: array<real>, i: int)
    requires a.Length == 4 && 0 <= i < 4
    ensures a[i] == Get(ReadVec(a), i)
  {
  }

  /** One component of a matrix times a vector, accumulated in place. */
  method AccumulateRow(m: array<real>, v: array<real>, out: array<real>, mu: int)
    requires m.Length == 16 && v.Length == 4 && out.Length == 4 && out != m && out != v && 0 <= mu < 4
    modifies out
    ensures out[mu] == Dot(Row(Read(m), mu), ReadVec(v))
    ensures forall i | 0 <= i < 4 && i != mu :: out[i] == old(out[i])
  {
    out[mu] := 0.0;
    ghost var r, w := Row(Read(m), mu), ReadVec(v);
    for nu := 0 to 4
      invariant out[mu] == PartDot(r, w, nu)
      invariant forall i | 0 <= i < 4 && i != mu :: out[i] == old(out[i])
      invariant Read(m) == old(Read(m)) && ReadVec(v) == old(ReadVec(v))
    {
      EntryIn(m, mu, nu);
      VecEntry(v, nu);
      out[mu] := out[mu] + Product(m[4 * mu + nu], v[nu]);
    }
    WholeDot(r, w);
  }

  /** con_vec_to_native and con_vec_to_embed: every component zeroed and accumulated. */
  method TransformVec(m: array<real>, v: array<real>, out: array<real>)
    requires m.Length == 16 && v.Length == 4 && out.Length == 4 && out != m && out != v
    modifies out
    ensures ReadVec(out) == Apply(Read(m), ReadVec(v))
  {
    hide Dot, Read;
    for mu := 0 to 4
      invariant forall i | 0 <= i < mu :: out[i] == Dot(Row(Read(m), i), ReadVec(v))
    {
      AccumulateRow(m, v, out, mu);
    }
  }

  /** The inner loop of cov_tensor_to_native: row `lam` of the tensor. */
  method AccumulateTensorRow(t: array<real>, jac: array<real>, out: array<real>, mu: int, nu: int, lam: int)
    requires t.Length == 16 && jac.Length == 16 && out.Length == 16 && out != t && out != jac
    requires 0 <= mu < 4 && 0 <= nu < 4 && 0 <= lam < 4
    modifies out
    ensures out[4 * mu + nu]
            == old(out[4 * mu + nu]) + Product(At(Read(jac), lam, mu), Dot(Row(Read(t), lam), Col(Read(jac), nu)))
    ensures forall i | 0 <= i < 16 && i != 4 * mu + nu :: out[i] == old(out[i])
  {
    hide Read, Dot;
    var c := 4 * mu + nu;
    ghost var a, r, w := At(Read(jac), lam, mu), Row(Read(t), lam), Col(Read(jac), nu);
    StartRow(a, r, w);
    for kap := 0 to 4
      invariant out[c] == old(out[c]) + Product(a, PartDot(r, w, kap))
      invariant forall i | 0 <= i < 16 && i != c :: out[i] == old(out[i])
    {
      EntryIn(t, lam, kap); EntryIn(jac, lam, mu); EntryIn(jac, kap, nu);
      ColumnEntry(Read(jac), nu, kap);
      GrowRow(a, r, w, kap, t[4 * lam + kap]);
      out[c] := out[c] + Product(Product(t[4 * lam + kap], jac[4 * lam + mu]), jac[4 * kap + nu]);
    }
    WholeDot(r, w);
  }

  lemma StartRow(a: real, r: Vec, w: Vec)
    ensures Product(a, PartDot(r, w, 0)) == 0.0
  {
  }

  lemma GrowRow(a: real, r: Vec, w: Vec, kap: nat, t: real)
    requires kap < 4 && t == Get(r, kap)
    ensures Product(a, PartDot(r, w, kap)) + Product(Product(t, a), Get(w, kap)) == Product(a, PartDot(r, w, kap + 1))
  {
  }

  lemma ColumnEntry(m: Mat, j: int, i: int)
    requires 0 <= j < 4 && 0 <= i < 4
    ensures Get(Col(m, j), i) == At(m, i, j)
  {
  }

  /** What is left of the tensor once its second index is contracted. */
  function HalfPulled(t: Mat, jac: Mat, nu: int): Vec {
    Vec(Dot(t.r0, Col(jac, nu)), Dot(t.r1, Col(jac, nu)), Dot(t.r2, Col(jac, nu)), Dot(t.r3, Col(jac, nu)))
  }

  lemma PullbackEntry(t: Mat, jac: Mat, mu: int, nu: int)
    requires 0 <= mu < 4 && 0 <= nu < 4
    ensures At(Pullback(t, jac), mu, nu) == Dot(Col(jac, mu), HalfPulled(t, jac, nu))
  {
  }

  method PullbackOne(t: array<real>, jac: array<real>, out: array<real>, mu: int, nu: int)
    requires t.Length == 16 && jac.Length == 16 && out.Length == 16 && out != t && out != jac && 0 <= mu < 4
             && 0 <= nu < 4
    modifies out
    ensures out[4 * mu + nu] == At(Pullback(Read(t), Read(jac)), mu, nu)
    ensures forall i | 0 <= i < 16 && i != 4 * mu + nu :: out[i] == old(out[i])
  {
    hide Read, Dot, Pullback;
    var c := 4 * mu + nu;
    ghost var p, q := Col(Read(jac), mu), HalfPulled(Read(t), Read(jac), nu);
    out[c] := 0.0;
    for lam := 0 to 4
      invariant out[c] == PartDot(p, q, lam)
      invariant forall i | 0 <= i < 16 && i != c :: out[i] == old(out[i])
      invariant Read(t) == old(Read(t)) && Read(jac) == old(Read(jac))
    {
      ColumnEntry(Read(jac), mu, lam);
      AccumulateTensorRow(t, jac, out, mu, nu, lam);
    }
    WholeDot(p, q);
    PullbackEntry(Read(t), Read(jac), mu, nu);
  }

  /** cov_tensor_to_native. */
  method PullbackInto(t: array<real>, jac: array<real>, out: array<real>)
    requires t.Length == 16 && jac.Length == 16 && out.Length == 16 && out != t && out != jac
    modifies out
    ensures Read(out) == Pullback(Read(t), Read(jac))
  {
    hide Pullback;
    ghost var r := Pullback(Read(t), Read(jac));
    for mu := 0 to 4
      invariant Read(t) == old(Read(t)) && Read(jac) == old(Read(jac))
      invariant forall i, j | 0 <= i < mu && 0 <= j < 4 :: out[4 * i + j] == At(r, i, j)
    {
      for nu := 0 to 4
        invariant Read(t) == old(Read(t)) && Read(jac) == old(Read(jac))
        invariant forall i, j | 0 <= i < mu && 0 <= j < 4 :: out[4 * i + j] == At(r, i, j)
        invariant forall j | 0 <= j < nu :: out[4 * mu + j] == At(r, mu, j)
      {
        PullbackOne(t, jac, out, mu, nu);
      }
    }
    SameEntries(out, r);
  }

  lemma SameEntries(a: array<real>, r: Mat)
    requires a.Length == 16 && forall i, j | 0 <= i < 4 && 0 <= j < 4 :: a[4 * i + j] == At(r, i, j)
    ensures Read(a) == r
  {
    assert a[4 * 0 + 0] == At(r, 0, 0) && a[4 * 0 + 1] == At(r, 0, 1) && a[4 * 0 + 2] == At(r, 0, 2)
           && a[4 * 0 + 3] == At(r, 0, 3);
    assert a[4 * 1 + 0] == At(r, 1, 0) && a[4 * 1 + 1] == At(r, 1, 1) && a[4 * 1 + 2] == At(r, 1, 2)
           && a[4 * 1 + 3] == At(r, 1, 3);
    assert a[4 * 2 + 0] == At(r, 2, 0) && a[4 * 2 + 1] == At(r, 2, 1) && a[4 * 2 + 2] == At(r, 2, 2)
           && a[4 * 2 + 3] == At(r, 2, 3);
    assert a[4 * 3 + 0] == At(r, 3, 0) && a[4 * 3 + 1] == At(r, 3, 1) && a[4 * 3 + 2] == At(r, 3, 2)
           && a[4 * 3 + 3] == At(r, 3, 3);
  }

  // -- The velocity pipeline on storage

  /** set_ut: overwrites the time component.  `root` is the square root of the discriminant. */
  method SetUt(g: Mat, u: array<real>, root: real)
    requires u.Length == 4 && QuadA(g) != 0.0
    modifies u
    ensures ReadVec(u) == WithTime(g, old(ReadVec(u)), root)
  {
    var b := 2.0 * (g.r0.x1 * u[1] + g.r0.x2 * u[2] + g.r0.x3 * u[3]);
    u[0] := (-b - root) / (2.0 * g.r0.x0);
  }

  /** The identity with the two shear entries filled in. */
  method FillShear(t0: real, t3: real, trans: array<real>)
    requires trans.Length == 16
    modifies trans
    ensures Read(trans) == Shear(t0, t3)
  {
    for i := 0 to 16
      invariant forall k | 0 <= k < i :: trans[k] == if k % 5 == 0 then 1.0 else 0.0
    {
      trans[i] := if i % 5 == 0 then 1.0 else 0.0;
    }
    trans[1] := t0;
    trans[13] := t3;
  }

  method VecFromBL(p: Place, v: array<real>, out: array<real>)
    requires v.Length == 4 && out.Length == 4 && v != out && Delta(p) != 0.0
    modifies out
    ensures ReadVec(out) == Apply(FromBL(p), ReadVec(v))
  {
    var trans := new real[16];
    FillShear(2.0 * p.r / Delta(p), p.a / Delta(p), trans);
    TransformVec(trans, v, out);
  }

  method VecFromBLExtG(p: Place, phi: real, v: array<real>, out: array<real>)
    requires v.Length == 4 && out.Length == 4 && v != out && RegularExtG(p, phi)
    modifies out
    ensures ReadVec(out) == Apply(FromBLExtG(p, phi), ReadVec(v))
  {
    var trans := new real[16];
    FillShear((2.0 / p.r - 2.0 * phi) / (1.0 - 2.0 / p.r + 2.0 * phi), p.a / Delta(p), trans);
    TransformVec(trans, v, out);
  }

  /** vec_to_bl: the same matrix, inverted numerically. */
  method VecToBL(p: Place, v: array<real>, out: array<real>)
    requires v.Length == 4 && out.Length == 4 && v != out && Delta(p) != 0.0
    modifies out
    ensures ReadVec(out) == Apply(ToBL(p), ReadVec(v))
    ensures Apply(FromBL(p), ReadVec(out)) == ReadVec(v)
  {
    hide Apply, Determinant, Inverse, Read, Shear;
    var rtrans, trans := new real[16], new real[16];
    FillShear(2.0 * p.r / Delta(p), p.a / Delta(p), rtrans);
    assert Read(rtrans) == FromBL(p);
    UnitDeterminant(p);
    var det := Invert(rtrans, trans);
    TransformVec(trans, v, out);
    RoundTripBL(p, ReadVec(v));
  }

  lemma UnitDeterminant(p: Place)
    requires Delta(p) != 0.0
    ensures Determinant(FromBL(p)) == 1.0
  {
  }

  method CopyVec(v: array<real>, out: array<real>)
    requires v.Length == 4 && out.Length == 4 && v != out
    modifies out
    ensures ReadVec(out) == ReadVec(v)
  {
    for mu := 0 to 4
      invariant forall i | 0 <= i < mu :: out[i] == v[i]
    {
      out[mu] := v[mu];
    }
  }

  /** bl_fourvel_to_native: the norm of the result in the native metric is -1 exactly when the step
      to the base coordinates keeps it. */
  method BLFourvelToNative(base: Base, p: Place, dxdX: Mat, dXdx: array<real>, ucon: array<real>, root: real,
                           out: array<real>)
    requires dXdx.Length == 16 && ucon.Length == 4 && out.Length == 4 && out != ucon && out != dXdx
    requires RegularAt(base, p) && QuadA(GivenIn(base, p)) != 0.0
    requires root * root == Discriminant(GivenIn(base, p), ReadVec(ucon)) && Times(dxdX, Read(dXdx)) == Diagonal(1.0)
    modifies out
    ensures ReadVec(out) == NativeVelocity(base, p, Read(dXdx), ReadVec(ucon), root)
    ensures Form(Pullback(MetricOf(base, p), dxdX), ReadVec(out), ReadVec(out)) == -1.0
       <==> NormKept(base, p, WithTime(GivenIn(base, p), ReadVec(ucon), root))
    ensures !base.KSExtG? || p.a == 0.0 || ReadVec(ucon).x1 == 0.0
            ==> Form(Pullback(MetricOf(base, p), dxdX), ReadVec(out), ReadVec(out)) == -1.0
  {
    hide Form, Pullback, Apply, Times, MetricOf, GivenIn, FromBL, FromBLExtG, WithTime, Discriminant, QuadA, Read,
        NormKept;
    var full := new real[4];
    CopyVec(ucon, full);
    SetUt(GivenIn(base, p), full, root);
    var u := new real[4];
    match base {
      case KS => VecFromBL(p, full, u);
      case KSExtG(phi) => VecFromBLExtG(p, phi, full, u);
      case _ => CopyVec(full, u);
    }
    assert ReadVec(u) == ToBase(base, p, WithTime(GivenIn(base, p), ReadVec(ucon), root));
    TransformVec(dXdx, u, out);
    PipelineNorm(base, p, dxdX, Read(dXdx), ReadVec(ucon), root);
  }
}
