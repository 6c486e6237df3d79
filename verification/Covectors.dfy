/** Transforms of covectors and contravariant tensors, which reuse the routines of the other variance
    with the same, untransposed, Jacobian; and exactly when that is right. */
module Covectors {
  import opened Matrix
  import opened KerrSchild
  import opened ExternalGravity
  import opened Embedding
  import opened Connection
  import opened Determinants

  /** cov_vec_to_native calls con_vec_to_embed. */
  function CovVecToNative(dxdX: Mat, w: Vec): Vec { Apply(dxdX, w) }

  /** What a covector says of a vector stays what it was. */
  ghost predicate KeepsPairing(dxdX: Mat, dXdx: Mat) {
    forall w, v {:trigger CovVecToNative(dxdX, w), Apply(dXdx, v)} ::
        Dot(CovVecToNative(dxdX, w), Apply(dXdx, v)) == Dot(w, v)
  }

  /** A right inverse is a left inverse. */
  lemma OtherSide(m: Mat, n: Mat, v: Vec)
    requires Times(m, n) == Diagonal(1.0)
    ensures Apply(n, Apply(m, v)) == v
  {
    hide Apply, Times, Determinant, Diagonal, Inverse;
    InvertibleIff(m);
    var y := Apply(n, Apply(m, v));
    ApplyTimes(m, n, Apply(m, v)); ApplyIdentity(Apply(m, v));
    InverseUndoes(m, v); InverseUndoes(m, y);
  }

  /** The code's transform keeps what covectors say exactly for symmetric Jacobians. */
  lemma PairingIff(dxdX: Mat, dXdx: Mat)
    requires Times(dxdX, dXdx) == Diagonal(1.0)
    ensures KeepsPairing(dxdX, dXdx) <==> Symmetric(dxdX)
  {
    hide Dot, Apply, Times, Symmetric, Diagonal;
    if Symmetric(dxdX) {
      forall w, v ensures Dot(CovVecToNative(dxdX, w), Apply(dXdx, v)) == Dot(w, v) {
        ApplyTimes(dxdX, dXdx, v); ApplyIdentity(v);
        FormIsSymmetric(dxdX, w, Apply(dXdx, v));
        DotCommutes(Apply(dXdx, v), Apply(dxdX, w));
      }
    }
    if KeepsPairing(dxdX, dXdx) {
      forall i, j | 0 <= i < 4 && 0 <= j < 4 ensures At(dxdX, i, j) == At(dxdX, j, i) {
        PairingOfAxes(dxdX, dXdx, i, j);
      }
      SymmetricWhen(dxdX);
    }
  }

  lemma SymmetricWhen(g: Mat)
    requires forall i, j | 0 <= i < 4 && 0 <= j < 4 :: At(g, i, j) == At(g, j, i)
    ensures Symmetric(g)
  {
  }

  lemma PairingOfAxes(dxdX: Mat, dXdx: Mat, i: int, j: int)
    requires Times(dxdX, dXdx) == Diagonal(1.0) && KeepsPairing(dxdX, dXdx) && 0 <= i < 4 && 0 <= j < 4
    ensures At(dxdX, i, j) == At(dxdX, j, i)
  {
    hide Dot, Apply, Times, Diagonal, At, Axis;
    var x, y := Axis(i), Axis(j);
    OtherSide(dxdX, dXdx, y);
    assert Dot(x, Apply(dxdX, y)) == Dot(CovVecToNative(dxdX, x), y);
    DotCommutes(Apply(dxdX, x), y);
    EntryIsForm(dxdX, i, j); EntryIsForm(dxdX, j, i);
  }

  // -- Contravariant tensors

  /** con_tensor_to_native calls cov_tensor_to_embed. */
  function ConTensorToNative(dXdx: Mat, t: Mat): Mat { Pullback(t, dXdx) }

  /** The product of two vectors. */
  function Outer(v: Vec, w: Vec): Mat {
    Mat(ScaledVec(w, v.x0), ScaledVec(w, v.x1), ScaledVec(w, v.x2), ScaledVec(w, v.x3))
  }

  /** Products of vectors become the products of the transformed vectors. */
  ghost predicate CarriesProducts(k: Mat) {
    forall v, w {:trigger ConTensorToNative(k, Outer(v, w))} ::
        ConTensorToNative(k, Outer(v, w)) == Outer(Apply(k, v), Apply(k, w))
  }

  predicate Antisymmetric(g: Mat) {
    forall i, j | 0 <= i < 4 && 0 <= j < 4 :: At(g, i, j) == -At(g, j, i)
  }

  lemma FormOfOuter(v: Vec, w: Vec, x: Vec, y: Vec)
    ensures Form(Outer(v, w), x, y) == Product(Dot(x, v), Dot(w, y))
  {
    var d := Dot(w, y);
    DotScaled(w, y, v.x0); DotScaled(w, y, v.x1); DotScaled(w, y, v.x2); DotScaled(w, y, v.x3);
    assert Apply(Outer(v, w), y) == ScaledVec(v, d);
    DotScaled(x, v, d);
    hide Dot;
  }

  lemma OuterAt(v: Vec, w: Vec, i: int, j: int)
    requires 0 <= i < 4 && 0 <= j < 4
    ensures At(Outer(v, w), i, j) == Product(Get(v, i), Get(w, j))
  {
  }

  /** The entries of a transformed product of axes, and of the product of the transformed axes. */
  lemma TransformedAxes(k: Mat, a: int, b: int, i: int, j: int)
    requires 0 <= a < 4 && 0 <= b < 4 && 0 <= i < 4 && 0 <= j < 4
    ensures At(ConTensorToNative(k, Outer(Axis(a), Axis(b))), i, j) == Product(At(k, a, i), At(k, b, j))
    ensures At(Outer(Apply(k, Axis(a)), Apply(k, Axis(b))), i, j) == Product(At(k, i, a), At(k, j, b))
  {
    hide Form, Pullback, Outer, Apply, Dot, Product;
    var t := Outer(Axis(a), Axis(b));
    EntryIsForm(Pullback(t, k), i, j);
    PullbackForm(t, k, Axis(i), Axis(j));
    FormOfOuter(Axis(a), Axis(b), Apply(k, Axis(i)), Apply(k, Axis(j)));
    OuterAt(Apply(k, Axis(a)), Apply(k, Axis(b)), i, j);
    ApplyAxis(k, a, i); ApplyAxis(k, b, j); ApplyAxis(k, i, a); ApplyAxis(k, j, b);
  }

  lemma ApplyAxis(k: Mat, a: int, i: int)
    requires 0 <= a < 4 && 0 <= i < 4
    ensures Get(Apply(k, Axis(a)), i) == At(k, i, a)
    ensures Dot(Apply(k, Axis(a)), Axis(i)) == At(k, i, a) && Dot(Axis(i), Apply(k, Axis(a))) == At(k, i, a)
  {
  }

  lemma GetIsDot(v: Vec, i: int)
    requires 0 <= i < 4
    ensures Get(v, i) == Dot(Axis(i), v)
  {
  }

  lemma CarriedEntry(k: Mat, v: Vec, w: Vec, i: int, j: int)
    requires 0 <= i < 4 && 0 <= j < 4
    ensures At(ConTensorToNative(k, Outer(v, w)), i, j)
            == Product(Get(Apply(Transpose(k), v), i), Get(Apply(Transpose(k), w), j))
  {
    hide Form, Pullback, Outer, Apply, Dot, Product, Transpose, Get;
    var t := Outer(v, w);
    EntryIsForm(Pullback(t, k), i, j);
    PullbackForm(t, k, Axis(i), Axis(j));
    FormOfOuter(v, w, Apply(k, Axis(i)), Apply(k, Axis(j)));
    DotTranspose(k, Axis(i), v); DotTranspose(k, Axis(j), w); DotCommutes(w, Apply(k, Axis(j)));
    GetIsDot(Apply(Transpose(k), v), i); GetIsDot(Apply(Transpose(k), w), j);
  }

  lemma SameMatrix(p: Mat, q: Mat)
    requires forall i, j | 0 <= i < 4 && 0 <= j < 4 :: At(p, i, j) == At(q, i, j)
    ensures p == q
  {
    assert At(p, 0, 0) == At(q, 0, 0) && At(p, 0, 1) == At(q, 0, 1) && At(p, 0, 2) == At(q, 0, 2)
           && At(p, 0, 3) == At(q, 0, 3);
    assert At(p, 1, 0) == At(q, 1, 0) && At(p, 1, 1) == At(q, 1, 1) && At(p, 1, 2) == At(q, 1, 2)
           && At(p, 1, 3) == At(q, 1, 3);
    assert At(p, 2, 0) == At(q, 2, 0) && At(p, 2, 1) == At(q, 2, 1) && At(p, 2, 2) == At(q, 2, 2)
           && At(p, 2, 3) == At(q, 2, 3);
    assert At(p, 3, 0) == At(q, 3, 0) && At(p, 3, 1) == At(q, 3, 1) && At(p, 3, 2) == At(q, 3, 2)
           && At(p, 3, 3) == At(q, 3, 3);
  }

  /** The rows are the columns up to one common sign. */
  lemma TransposedVec(k: Mat, v: Vec)
    ensures Symmetric(k) ==> Apply(Transpose(k), v) == Apply(k, v)
    ensures Antisymmetric(k) ==> Apply(Transpose(k), v) == ScaledVec(Apply(k, v), -1.0)
  {
    if Symmetric(k) {
      forall i, j | 0 <= i < 4 && 0 <= j < 4 ensures At(Transpose(k), i, j) == At(k, i, j) { AtTranspose(k, i, j); }
      SameMatrix(Transpose(k), k);
    }
    if Antisymmetric(k) {
      forall i, j | 0 <= i < 4 && 0 <= j < 4 ensures At(Transpose(k), i, j) == At(Scaled(k, -1.0), i, j) {
        AtTranspose(k, i, j);
        assert At(k, j, i) == -At(k, i, j);
      }
      SameMatrix(Transpose(k), Scaled(k, -1.0));
      hide Dot;
      DotScaled(k.r0, v, -1.0); DotScaled(k.r1, v, -1.0); DotScaled(k.r2, v, -1.0); DotScaled(k.r3, v, -1.0);
    }
  }

  lemma SignsCancel(v: Vec, w: Vec, i: int, j: int)
    ensures Product(Get(ScaledVec(v, -1.0), i), Get(ScaledVec(w, -1.0), j)) == Product(Get(v, i), Get(w, j))
  {
  }

  /** An entry that is not zero fixes the sign of all the others. */
  lemma OneSign(k: Mat, a: int, i: int)
    requires CarriesProducts(k) && 0 <= a < 4 && 0 <= i < 4 && At(k, a, i) != 0.0
    ensures Symmetric(k) || Antisymmetric(k)
  {
    hide ConTensorToNative, Outer, Apply, At, Axis;
    EntriesAgree(k, a, a, i, i);
    var x, y := At(k, a, i), At(k, i, a);
    SignOf(x, y);
    forall b, j | 0 <= b < 4 && 0 <= j < 4
      ensures y == x ==> At(k, b, j) == At(k, j, b)
      ensures y == -x ==> At(k, b, j) == -At(k, j, b)
    {
      EntriesAgree(k, a, b, i, j);
      CancelSign(x, y, At(k, b, j), At(k, j, b));
    }
    if y == x { SymmetricWhen(k); }
  }

  lemma EntriesAgree(k: Mat, a: int, b: int, i: int, j: int)
    requires CarriesProducts(k) && 0 <= a < 4 && 0 <= b < 4 && 0 <= i < 4 && 0 <= j < 4
    ensures Product(At(k, a, i), At(k, b, j)) == Product(At(k, i, a), At(k, j, b))
  {
    hide ConTensorToNative, Outer, Apply, At, Axis, Product;
    TransformedAxes(k, a, b, i, j);
    assert ConTensorToNative(k, Outer(Axis(a), Axis(b))) == Outer(Apply(k, Axis(a)), Apply(k, Axis(b)));
  }

  lemma SignOf(x: real, y: real)
    requires Product(x, x) == Product(y, y)
    ensures y == x || y == -x
  {
    assert (x - y) * (x + y) == 0.0;
  }

  lemma CancelSign(x: real, y: real, p: real, q: real)
    requires x != 0.0 && Product(x, p) == Product(y, q)
    ensures y == x ==> p == q
    ensures y == -x ==> p == -q
  {
    assert y == x ==> x * (p - q) == 0.0;
    assert y == -x ==> x * (p + q) == 0.0;
  }

  /** The code's transform is that of a contravariant tensor exactly for a Jacobian that is symmetric,
      or antisymmetric. */
  lemma ProductsIff(k: Mat)
    ensures CarriesProducts(k) <==> Symmetric(k) || Antisymmetric(k)
  {
    hide ConTensorToNative, Outer, Apply, Transpose, At, Get, ScaledVec, Product;
    if Symmetric(k) || Antisymmetric(k) {
      forall v, w ensures ConTensorToNative(k, Outer(v, w)) == Outer(Apply(k, v), Apply(k, w)) {
        TransposedVec(k, v); TransposedVec(k, w);
        forall i, j | 0 <= i < 4 && 0 <= j < 4
          ensures At(ConTensorToNative(k, Outer(v, w)), i, j) == At(Outer(Apply(k, v), Apply(k, w)), i, j)
        {
          CarriedEntry(k, v, w, i, j);
          OuterAt(Apply(k, v), Apply(k, w), i, j);
          SignsCancel(Apply(k, v), Apply(k, w), i, j);
        }
        SameMatrix(ConTensorToNative(k, Outer(v, w)), Outer(Apply(k, v), Apply(k, w)));
      }
    }
    if CarriesProducts(k) {
      if a, i :| 0 <= a < 4 && 0 <= i < 4 && At(k, a, i) != 0.0 {
        OneSign(k, a, i);
      } else {
        SymmetricWhen(k);
      }
    }
  }

  // -- The Jacobians of the coordinate transformations

  /** dxdX of every transformation: diagonal but for what the polar angle of FunkyTransform takes from
      the radius, `s`, which is zero for the others. */
  function Jacobian(e: real, s: real, q: real): Mat {
    Mat(Vec(1.0, 0.0, 0.0, 0.0), Vec(0.0, e, 0.0, 0.0), Vec(0.0, s, q, 0.0), Vec(0.0, 0.0, 0.0, 1.0))
  }

  /** dXdx, its inverse. */
  function JacobianBack(e: real, s: real, q: real): Mat
    requires e != 0.0 && q != 0.0
  {
    Jacobian(1.0 / e, -s / (e * q), 1.0 / q)
  }

  lemma RowsOf(e: real, s: real, q: real, v: Vec)
    ensures var j := Jacobian(e, s, q);
            Dot(j.r0, v) == v.x0 && Dot(j.r1, v) == Product(v.x1, e) && Dot(j.r2, v) == s * v.x1 + q * v.x2
            && Dot(j.r3, v) == v.x3
  {
  }

  lemma JacobiansCancel(e: real, s: real, q: real)
    requires e != 0.0 && q != 0.0
    ensures Times(Jacobian(e, s, q), JacobianBack(e, s, q)) == Diagonal(1.0)
    ensures Times(JacobianBack(e, s, q), Jacobian(e, s, q)) == Diagonal(1.0)
  {
    var j, k := Jacobian(e, s, q), JacobianBack(e, s, q);
    Undone(e, s, q, 1.0 / e, -s / (e * q), 1.0 / q);
    ColumnsOf(e, s, q, k); ColumnsOf(1.0 / e, -s / (e * q), 1.0 / q, j);
  }

  lemma Undone(e: real, s: real, q: real, x: real, y: real, z: real)
    requires e != 0.0 && q != 0.0 && x == 1.0 / e && y == -s / (e * q) && z == 1.0 / q
    ensures e * x == 1.0 && q * z == 1.0 && s * x + q * y == 0.0 && y * e + z * s == 0.0
  {
  }

  lemma ColumnsOf(e: real, s: real, q: real, k: Mat)
    ensures Times(Jacobian(e, s, q), k)
         == Mat(k.r0, ScaledVec(k.r1, e),
                Vec(s * k.r1.x0 + q * k.r2.x0, s * k.r1.x1 + q * k.r2.x1, s * k.r1.x2 + q * k.r2.x2,
                    s * k.r1.x3 + q * k.r2.x3), k.r3)
  {
    RowsOf(e, s, q, Col(k, 0)); RowsOf(e, s, q, Col(k, 1)); RowsOf(e, s, q, Col(k, 2)); RowsOf(e, s, q, Col(k, 3));
    hide Dot, Product, Jacobian;
  }

  lemma SymmetryOfJacobian(e: real, s: real, q: real)
    ensures Symmetric(Jacobian(e, s, q)) <==> s == 0.0
    ensures !Antisymmetric(Jacobian(e, s, q))
  {
    assert At(Jacobian(e, s, q), 0, 0) == 1.0;
    assert At(Jacobian(e, s, q), 2, 1) == s && At(Jacobian(e, s, q), 1, 2) == 0.0;
  }

  /** All four routines are right for every diagonal transformation, and for FunkyTransform exactly
      where the polar angle does not depend on the radius. */
  lemma TransformsRightIff(e: real, s: real, q: real)
    requires e != 0.0 && q != 0.0
    ensures KeepsPairing(Jacobian(e, s, q), JacobianBack(e, s, q)) <==> s == 0.0
    ensures KeepsPairing(JacobianBack(e, s, q), Jacobian(e, s, q)) <==> s == 0.0
    ensures CarriesProducts(Jacobian(e, s, q)) <==> s == 0.0
    ensures CarriesProducts(JacobianBack(e, s, q)) <==> s == 0.0
  {
    hide KeepsPairing, CarriesProducts, Times, Symmetric, Antisymmetric, Jacobian, Diagonal;
    JacobiansCancel(e, s, q);
    PairingIff(Jacobian(e, s, q), JacobianBack(e, s, q));
    PairingIff(JacobianBack(e, s, q), Jacobian(e, s, q));
    ProductsIff(Jacobian(e, s, q)); ProductsIff(JacobianBack(e, s, q));
    SymmetryOfJacobian(e, s, q);
    SymmetryOfJacobian(1.0 / e, -s / (e * q), 1.0 / q);
    ZeroOverProduct(e, s, q);
  }

  lemma ZeroOverProduct(e: real, s: real, q: real)
    requires e != 0.0 && q != 0.0
    ensures -s / (e * q) == 0.0 <==> s == 0.0
  {
    var p := e * q;
    assert (-s / p) * p == -s;
  }

  /** Where it does, a pair that goes wrong: the covector dr says nothing of the vector with only an
      angular part, and s of it afterwards. */
  lemma RadialCovectorFails(e: real, s: real, q: real)
    requires e != 0.0 && q != 0.0
    ensures var j, k := Jacobian(e, s, q), JacobianBack(e, s, q);
            var v := Apply(j, Axis(2));
            Dot(Axis(1), v) == 0.0 && Dot(CovVecToNative(j, Axis(1)), Apply(k, v)) == s
  {
    var j, k := Jacobian(e, s, q), JacobianBack(e, s, q);
    JacobiansCancel(e, s, q);
    ApplyAxis(j, 2, 1); ApplyAxis(j, 1, 2);
    hide Dot, Apply, Times, JacobianBack, Axis;
    OtherSide(j, k, Axis(2));
  }

  /** And a product: time times radius has an angular part in the native coordinates, which the code
      leaves out. */
  lemma TimeRadiusProductFails(e: real, s: real, q: real)
    requires e != 0.0 && q != 0.0
    ensures var k := JacobianBack(e, s, q);
            && At(ConTensorToNative(k, Outer(Axis(0), Axis(1))), 0, 2) == 0.0
            && At(Outer(Apply(k, Axis(0)), Apply(k, Axis(1))), 0, 2) == -s / (e * q)
  {
    var k := JacobianBack(e, s, q);
    hide ConTensorToNative, Outer, Apply, Axis;
    TransformedAxes(k, 0, 1, 0, 2);
    assert At(k, 0, 0) == 1.0 && At(k, 1, 2) == 0.0 && At(k, 2, 1) == -s / (e * q);
  }
}
