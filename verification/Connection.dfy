/** The discrete connection (conn_native): centred metric differences, rearranged and raised in one
    array used for input and output. */
module Connection {
  import opened Matrix
  import opened KerrSchild
  import opened Embedding
  import opened ExternalGravity
  import opened Determinants

  /** A quantity with three indices from 0 to 3. */
  type Rank3 = (int, int, int) -> real

  function Shifted(x: Vec, nu: int, h: real): Vec {
    if nu == 0 then x.(x0 := x.x0 + h) else if nu == 1 then x.(x1 := x.x1 + h) else if nu == 2 then x.(x2 := x.x2 + h)
    else x.(x3 := x.x3 + h)
  }

  /** Centred difference of the metric along coordinate `nu`. */
  function Centred(gcov: Vec -> Mat, x: Vec, delta: real, lam: int, kap: int, nu: int): real
    requires delta != 0.0
  {
    var xh, xl := Shifted(x, nu, delta), Shifted(x, nu, -delta);
    assert Get(xh, nu) - Get(xl, nu) == 2.0 * delta;
    (At(gcov(xh), lam, kap) - At(gcov(xl), lam, kap)) / (Get(xh, nu) - Get(xl, nu))
  }

  /** The lowered connection from the differences. */
  function Rearranged(d: Rank3, lam: int, nu: int, mu: int): real {
    0.5 * (d(nu, lam, mu) + d(mu, lam, nu) - d(mu, nu, lam))
  }

  function Pillar(t: Rank3, nu: int, mu: int): Vec { Vec(t(0, nu, mu), t(1, nu, mu), t(2, nu, mu), t(3, nu, mu)) }

  /** Its first index raised. */
  function Raised(gcon: Mat, t: Rank3, lam: int, nu: int, mu: int): real {
    Dot(Row(gcon, lam), Pillar(t, nu, mu))
  }

  ghost predicate Regular(gcov: Vec -> Mat, x: Vec, delta: real) {
    delta != 0.0 && Determinant(gcov(x)) != 0.0 && forall y :: Symmetric(gcov(y))
  }

  function DifferenceField(gcov: Vec -> Mat, x: Vec, delta: real): Rank3
    requires delta != 0.0
  {
    (lam, kap, nu) => Centred(gcov, x, delta, lam, kap, nu)
  }

  function LoweredField(d: Rank3): Rank3 { (lam, nu, mu) => Rearranged(d, lam, nu, mu) }

  /** The connection conn_native returns. */
  function Conn(gcov: Vec -> Mat, x: Vec, delta: real, lam: int, nu: int, mu: int): real
    requires delta != 0.0 && Determinant(gcov(x)) != 0.0
  {
    Raised(Inverse(gcov(x)), LoweredField(DifferenceField(gcov, x, delta)), lam, nu, mu)
  }

  predicate Indices(lam: int, nu: int, mu: int) { 0 <= lam < 4 && 0 <= nu < 4 && 0 <= mu < 4 }

  lemma CentredIsSymmetric(gcov: Vec -> Mat, x: Vec, delta: real, lam: int, kap: int, nu: int)
    requires Regular(gcov, x, delta) && Indices(lam, kap, nu)
    ensures Centred(gcov, x, delta, lam, kap, nu) == Centred(gcov, x, delta, kap, lam, nu)
  {
  }

  /** The connection is symmetric in its lower indices. */
  lemma ConnIsSymmetric(gcov: Vec -> Mat, x: Vec, delta: real, lam: int, nu: int, mu: int)
    requires Regular(gcov, x, delta) && Indices(lam, nu, mu)
    ensures Conn(gcov, x, delta, lam, nu, mu) == Conn(gcov, x, delta, lam, mu, nu)
  {
  }

  /** Its first index lowered with the metric. */
  function Lowered(gcov: Vec -> Mat, x: Vec, delta: real, s: int, nu: int, mu: int): real
    requires delta != 0.0 && Determinant(gcov(x)) != 0.0
  {
    Dot(Row(gcov(x), s), Vec(Conn(gcov, x, delta, 0, nu, mu), Conn(gcov, x, delta, 1, nu, mu),
                             Conn(gcov, x, delta, 2, nu, mu), Conn(gcov, x, delta, 3, nu, mu)))
  }

  /** Lowering the connection again gives the rearranged differences exactly. */
  lemma LoweringUndoesRaising(gcov: Vec -> Mat, x: Vec, delta: real, s: int, nu: int, mu: int)
    requires delta != 0.0 && Determinant(gcov(x)) != 0.0 && Indices(s, nu, mu)
    ensures Lowered(gcov, x, delta, s, nu, mu)
         == Rearranged(DifferenceField(gcov, x, delta), s, nu, mu)
  {
    hide Centred, Inverse, Dot, Rearranged, Determinant;
    var t := LoweredField(DifferenceField(gcov, x, delta));
    InverseUndoes(gcov(x), Pillar(t, nu, mu));
    assert t(s, nu, mu) == Rearranged(DifferenceField(gcov, x, delta), s, nu, mu);
    assert Get(Pillar(t, nu, mu), s) == t(s, nu, mu);
  }

  /** Metric compatibility, with no truncation error: the lowered connection summed over the two index
      orders is the centred difference of the metric. */
  lemma ConnIsMetricCompatible(gcov: Vec -> Mat, x: Vec, delta: real, s: int, nu: int, mu: int)
    requires Regular(gcov, x, delta) && Indices(s, nu, mu)
    ensures Lowered(gcov, x, delta, s, nu, mu)
          + Lowered(gcov, x, delta, nu, s, mu)
         == Centred(gcov, x, delta, s, nu, mu)
  {
    LoweringUndoesRaising(gcov, x, delta, s, nu, mu);
    LoweringUndoesRaising(gcov, x, delta, nu, s, mu);
    CentredIsSymmetric(gcov, x, delta, s, nu, mu);
    CentredIsSymmetric(gcov, x, delta, mu, nu, s);
    CentredIsSymmetric(gcov, x, delta, mu, s, nu);
    hide Centred, Conn, Dot;
    var d := DifferenceField(gcov, x, delta);
    assert d(s, nu, mu) == Centred(gcov, x, delta, s, nu, mu) && d(nu, s, mu) == Centred(gcov, x, delta, nu, s, mu);
  }

  /** No other lowered connection is symmetric and compatible with the same differences. */
  lemma OnlyConnection(d: Rank3, l: Rank3, lam: int, nu: int, mu: int)
    requires Indices(lam, nu, mu)
    requires forall s, p, q | Indices(s, p, q) :: l(s, p, q) == l(s, q, p) && l(s, p, q) + l(p, s, q) == d(s, p, q)
    ensures l(lam, nu, mu) == Rearranged(d, lam, nu, mu)
  {
  }

  // -- The metric the code uses meets the conditions

  lemma EntryIsForm(g: Mat, i: int, j: int)
    requires 0 <= i < 4 && 0 <= j < 4
    ensures Form(g, Axis(i), Axis(j)) == At(g, i, j)
  {
  }

  /** Symmetry survives a change of coordinates. */
  lemma PullbackIsSymmetric(g: Mat, jac: Mat)
    requires Symmetric(g)
    ensures Symmetric(Pullback(g, jac))
  {
    hide Form, Pullback, At, Axis, Apply;
    forall i, j | 0 <= i < j < 4 ensures At(Pullback(g, jac), i, j) == At(Pullback(g, jac), j, i) {
      EntryIsForm(Pullback(g, jac), i, j);
      EntryIsForm(Pullback(g, jac), j, i);
      PullbackForm(g, jac, Axis(i), Axis(j));
      PullbackForm(g, jac, Axis(j), Axis(i));
      FormIsSymmetric(g, Apply(jac, Axis(i)), Apply(jac, Axis(j)));
    }
  }

  lemma DeterminantOfPullback(g: Mat, jac: Mat)
    ensures Determinant(Pullback(g, jac)) == Determinant(jac) * (Determinant(g) * Determinant(jac))
  {
    hide Determinant, Times, Transpose;
    DeterminantOfTimes(Transpose(jac), Times(g, jac));
    DeterminantOfTimes(g, jac);
    DeterminantOfTranspose(jac);
  }

  /** gcov_native over Kerr-Schild coordinates: where each native point lies, and the Jacobian there. */
  function NativeMetric(place: Vec -> Outside, dxdX: Vec -> Mat): Vec -> Mat {
    y => Pullback(MetricKS(place(y)), dxdX(y))
  }

  /** Off the axis, and where the Jacobian is not singular, the native metric is regular. */
  lemma NativeMetricIsRegular(place: Vec -> Outside, dxdX: Vec -> Mat, x: Vec, delta: real)
    requires delta != 0.0 && place(x).c2 + place(x).s2 == 1.0 && place(x).s2 != 0.0 && Determinant(dxdX(x)) != 0.0
    ensures Regular(NativeMetric(place, dxdX), x, delta)
  {
    hide Determinant, MetricKS, Pullback, Rho2, Symmetric;
    var gcov := NativeMetric(place, dxdX);
    forall y ensures Symmetric(gcov(y)) {
      KSIsSymmetric(place(y));
      PullbackIsSymmetric(MetricKS(place(y)), dxdX(y));
      assert gcov(y) == Pullback(MetricKS(place(y)), dxdX(y));
    }
    DeterminantKS(place(x));
    DeterminantOfPullback(MetricKS(place(x)), dxdX(x));
    NonZeroProduct(Rho2(place(x)), place(x).s2, Determinant(MetricKS(place(x))), Determinant(dxdX(x)),
                   Determinant(Pullback(MetricKS(place(x)), dxdX(x))));
    assert gcov(x) == Pullback(MetricKS(place(x)), dxdX(x));
  }

  lemma NonZeroProduct(rho2: real, s2: real, d: real, e: real, z: real)
    requires rho2 != 0.0 && s2 != 0.0 && e != 0.0 && d == -(rho2 * rho2 * s2) && z == e * (d * e)
    ensures z != 0.0
  {
    var q, c := rho2 * rho2, d * e;
    NonZero(rho2, rho2, q);
    NonZero(q, s2, -d);
    NonZero(d, e, c);
    NonZero(e, c, z);
  }

  lemma NonZero(x: real, y: real, z: real)
    requires x != 0.0 && y != 0.0 && z == x * y
    ensures z != 0.0
  {
  }

  lemma KSIsSymmetric(p: Outside)
    ensures Symmetric(MetricKS(p))
  {
  }

  /** So there the connection of the native metric is symmetric and compatible with it. */
  lemma NativeConnection(place: Vec -> Outside, dxdX: Vec -> Mat, x: Vec, delta: real, s: int, nu: int, mu: int)
    requires delta != 0.0 && place(x).c2 + place(x).s2 == 1.0 && place(x).s2 != 0.0 && Determinant(dxdX(x)) != 0.0
    requires Indices(s, nu, mu)
    ensures var gcov := NativeMetric(place, dxdX);
            && Regular(gcov, x, delta)
            && Conn(gcov, x, delta, s, nu, mu) == Conn(gcov, x, delta, s, mu, nu)
            && Lowered(gcov, x, delta, s, nu, mu) + Lowered(gcov, x, delta, nu, s, mu)
            == Centred(gcov, x, delta, s, nu, mu)
  {
    hide Conn, Centred, Lowered, NativeMetric, Determinant;
    NativeMetricIsRegular(place, dxdX, x, delta);
    ConnIsSymmetric(NativeMetric(place, dxdX), x, delta, s, nu, mu);
    ConnIsMetricCompatible(NativeMetric(place, dxdX), x, delta, s, nu, mu);
  }

  // -- On storage

  ghost predicate Cubic(a: array3<real>) { a.Length0 == 4 && a.Length1 == 4 && a.Length2 == 4 }

  ghost predicate Holds(a: array3<real>, f: Rank3)
    requires Cubic(a)
    reads a
  {
    forall i, j, k | Indices(i, j, k) :: a[i, j, k] == f(i, j, k)
  }

  /** (i, j, k) comes before (i0, j0, k0) in loop order. */
  predicate Before(i: int, j: int, k: int, i0: int, j0: int, k0: int) {
    i < i0 || (i == i0 && (j < j0 || (j == j0 && k < k0)))
  }

  /** The first loop: one direction at a time, every entry of the difference. */
  method FillDifferences(gcov: Vec -> Mat, x: Vec, delta: real, conn: array3<real>)
    requires delta != 0.0 && Cubic(conn)
    modifies conn
    ensures Holds(conn, DifferenceField(gcov, x, delta))
  {
    hide Centred;
    ghost var f := DifferenceField(gcov, x, delta);
    for nu := 0 to 4
      invariant forall i, j, k | Indices(i, j, k) && Before(k, i, j, nu, 0, 0) :: conn[i, j, k] == f(i, j, k)
    {
      for lam := 0 to 4
        invariant forall i, j, k | Indices(i, j, k) && Before(k, i, j, nu, lam, 0) :: conn[i, j, k] == f(i, j, k)
      {
        for kap := 0 to 4
          invariant forall i, j, k | Indices(i, j, k) && Before(k, i, j, nu, lam, kap) :: conn[i, j, k] == f(i, j, k)
        {
          conn[lam, kap, nu] := Centred(gcov, x, delta, lam, kap, nu);
        }
      }
    }
  }

  /** The second loop: into the temporary. */
  method Rearrange(conn: array3<real>, tmp: array3<real>, ghost d: Rank3)
    requires Cubic(conn) && Cubic(tmp) && conn != tmp && Holds(conn, d)
    modifies tmp
    ensures Holds(tmp, LoweredField(d))
  {
    ghost var f := LoweredField(d);
    for lam := 0 to 4
      invariant forall i, j, k | Indices(i, j, k) && Before(i, j, k, lam, 0, 0) :: tmp[i, j, k] == f(i, j, k)
    {
      for nu := 0 to 4
        invariant forall i, j, k | Indices(i, j, k) && Before(i, j, k, lam, nu, 0) :: tmp[i, j, k] == f(i, j, k)
      {
        for mu := 0 to 4
          invariant forall i, j, k | Indices(i, j, k) && Before(i, j, k, lam, nu, mu) :: tmp[i, j, k] == f(i, j, k)
        {
          assert conn[nu, lam, mu] == d(nu, lam, mu) && conn[mu, lam, nu] == d(mu, lam, nu)
                 && conn[mu, nu, lam] == d(mu, nu, lam);
          assert f(lam, nu, mu) == Rearranged(d, lam, nu, mu);
          tmp[lam, nu, mu] := 0.5 * (conn[nu, lam, mu] + conn[mu, lam, nu] - conn[mu, nu, lam]);
        }
      }
    }
  }

  /** The innermost loop of the third: one raised entry, accumulated where the differences were. */
  method RaiseOne(gcon: Mat, tmp: array3<real>, conn: array3<real>, lam: int, nu: int, mu: int, ghost t: Rank3)
    requires Cubic(conn) && Cubic(tmp) && conn != tmp && Holds(tmp, t) && Indices(lam, nu, mu)
    modifies conn
    ensures conn[lam, nu, mu] == Raised(gcon, t, lam, nu, mu)
    ensures forall i, j, k | Indices(i, j, k) && (i, j, k) != (lam, nu, mu) :: conn[i, j, k] == old(conn[i, j, k])
  {
    ghost var r, w := Row(gcon, lam), Pillar(t, nu, mu);
    conn[lam, nu, mu] := 0.0;
    for kap := 0 to 4
      invariant conn[lam, nu, mu] == PartDot(r, w, kap)
      invariant forall i, j, k | Indices(i, j, k) && (i, j, k) != (lam, nu, mu) :: conn[i, j, k] == old(conn[i, j, k])
    {
      assert Indices(kap, nu, mu) && tmp[kap, nu, mu] == Get(w, kap);
      conn[lam, nu, mu] := conn[lam, nu, mu] + Product(At(gcon, lam, kap), tmp[kap, nu, mu]);
    }
    WholeDot(r, w);
  }

  method RaiseAll(gcon: Mat, tmp: array3<real>, conn: array3<real>, ghost t: Rank3)
    requires Cubic(conn) && Cubic(tmp) && conn != tmp && Holds(tmp, t)
    modifies conn
    ensures forall i, j, k | Indices(i, j, k) :: conn[i, j, k] == Raised(gcon, t, i, j, k)
  {
    hide Raised;
    for lam := 0 to 4
      invariant forall i, j, k | Indices(i, j, k) && Before(i, j, k, lam, 0, 0) ::
                conn[i, j, k] == Raised(gcon, t, i, j, k)
    {
      for nu := 0 to 4
        invariant forall i, j, k | Indices(i, j, k) && Before(i, j, k, lam, nu, 0) ::
                  conn[i, j, k] == Raised(gcon, t, i, j, k)
      {
        for mu := 0 to 4
          invariant forall i, j, k | Indices(i, j, k) && Before(i, j, k, lam, nu, mu) ::
                    conn[i, j, k] == Raised(gcon, t, i, j, k)
        {
          RaiseOne(gcon, tmp, conn, lam, nu, mu, t);
        }
      }
    }
  }

  /** conn_native: the array holds differences, then, overwritten, the connection. */
  method ConnNative(gcov: Vec -> Mat, x: Vec, delta: real, conn: array3<real>)
    requires delta != 0.0 && Determinant(gcov(x)) != 0.0 && Cubic(conn)
    modifies conn
    ensures forall i, j, k | Indices(i, j, k) :: conn[i, j, k] == Conn(gcov, x, delta, i, j, k)
  {
    hide Centred, Raised, Holds, Inverse, Determinant;
    var tmp := new real[4, 4, 4];
    FillDifferences(gcov, x, delta, conn);
    Rearrange(conn, tmp, DifferenceField(gcov, x, delta));
    var gcon := Inverse(gcov(x));
    RaiseAll(gcon, tmp, conn, LoweredField(DifferenceField(gcov, x, delta)));
  }
}
