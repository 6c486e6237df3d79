/** The entries of the discrete connection where they are known in closed form: what the centred difference is
    of a metric that is a polynomial along a coordinate, and the Christoffel symbols it gives. */
module Christoffel {
  import opened Matrix
  import opened Connection

  function Abs(x: real): real { if x < 0.0 then -x else x }

  /** `y` lies on the coordinate line through `x` along `nu`, within `delta` of it. */
  ghost predicate OnStencil(x: Vec, y: Vec, nu: int, delta: real) {
    Abs(Get(y, nu) - Get(x, nu)) <= Abs(delta) && forall i | 0 <= i < 4 && i != nu :: Get(y, i) == Get(x, i)
  }

  function Parabola(c: real, l: real, q: real, t: real): real { c + l * t + q * (t * t) }

  /** For a metric entry that is a quadratic polynomial along the coordinate, the centred difference is its derivative
      at `x`, whatever the step. */
  lemma CentredOfQuadratic(gcov: Vec -> Mat, x: Vec, delta: real, lam: int, kap: int, nu: int, c: real, l: real,
                          q: real)
    requires delta != 0.0 && 0 <= nu < 4
    requires forall y | OnStencil(x, y, nu, delta) :: At(gcov(y), lam, kap) == Parabola(c, l, q, Get(y, nu))
    ensures Centred(gcov, x, delta, lam, kap, nu) == l + 2.0 * q * Get(x, nu)
  {
    hide Parabola;
    var xh, xl, t := Shifted(x, nu, delta), Shifted(x, nu, -delta), Get(x, nu);
    EndsOnStencil(x, nu, delta);
    var u, v := At(gcov(xh), lam, kap), At(gcov(xl), lam, kap);
    assert u == Parabola(c, l, q, Get(xh, nu)) && v == Parabola(c, l, q, Get(xl, nu));
    hide *;
    Secant(t, delta, c, l, q, u, v);
  }

  lemma EndsOnStencil(x: Vec, nu: int, delta: real)
    requires 0 <= nu < 4
    ensures OnStencil(x, Shifted(x, nu, delta), nu, delta) && OnStencil(x, Shifted(x, nu, -delta), nu, delta)
    ensures Get(Shifted(x, nu, delta), nu) == Get(x, nu) + delta
            && Get(Shifted(x, nu, -delta), nu) == Get(x, nu) - delta
  {
  }

  lemma Secant(t: real, h: real, c: real, l: real, q: real, u: real, v: real)
    requires h != 0.0 && u == Parabola(c, l, q, t + h) && v == Parabola(c, l, q, t - h)
    ensures (u - v) / (t + h - (t - h)) == l + 2.0 * q * t
  {
    assert u - v == (l + 2.0 * q * t) * (2.0 * h);
    Quotient(u - v, l + 2.0 * q * t, 2.0 * h);
  }

  lemma Quotient(x: real, y: real, z: real)
    requires z != 0.0 && x == y * z
    ensures x / z == y
  {
  }

  /** For one affine in all four coordinates it is the slope in `nu`, and takes nothing from the others. */
  lemma CentredOfAffine(gcov: Vec -> Mat, x: Vec, delta: real, lam: int, kap: int, nu: int, c: real, slope: Vec)
    requires delta != 0.0 && 0 <= nu < 4
    requires forall y :: At(gcov(y), lam, kap) == c + Dot(slope, y)
    ensures Centred(gcov, x, delta, lam, kap, nu) == Get(slope, nu)
  {
    hide Dot;
    var xh, xl, s := Shifted(x, nu, delta), Shifted(x, nu, -delta), Get(slope, nu);
    assert Get(xh, nu) - Get(xl, nu) == 2.0 * delta;
    Steps(slope, x, delta, nu);
    Quotient(Dot(slope, xh) - Dot(slope, xl), s, 2.0 * delta);
  }

  lemma Steps(s: Vec, x: Vec, h: real, nu: int)
    requires 0 <= nu < 4
    ensures Dot(s, Shifted(x, nu, h)) - Dot(s, Shifted(x, nu, -h)) == Get(s, nu) * (2.0 * h)
  {
  }

  // -- A metric that depends on one coordinate

  ghost predicate DependsOnlyOn(gcov: Vec -> Mat, n: int) {
    forall y, z | Get(y, n) == Get(z, n) :: gcov(y) == gcov(z)
  }

  /** Nothing changes along any other coordinate. */
  lemma FlatAlongOthers(gcov: Vec -> Mat, x: Vec, delta: real, n: int, lam: int, kap: int, nu: int)
    requires delta != 0.0 && 0 <= n < 4 && 0 <= nu < 4 && nu != n && DependsOnlyOn(gcov, n)
    ensures Centred(gcov, x, delta, lam, kap, nu) == 0.0
  {
    var xh, xl := Shifted(x, nu, delta), Shifted(x, nu, -delta);
    assert Get(xh, n) == Get(xl, n);
    assert Get(xh, nu) - Get(xl, nu) == 2.0 * delta;
  }

  /** The metric's differences along `n`, one row. */
  function Gradient(gcov: Vec -> Mat, x: Vec, delta: real, n: int, nu: int): Vec
    requires delta != 0.0
  {
    Vec(Centred(gcov, x, delta, nu, 0, n), Centred(gcov, x, delta, nu, 1, n), Centred(gcov, x, delta, nu, 2, n),
        Centred(gcov, x, delta, nu, 3, n))
  }

  /** Twice the connection: what either lower index contributes where it is `n`, less the part raised from `n`. */
  lemma ConnOfOneCoordinate(gcov: Vec -> Mat, x: Vec, delta: real, n: int, lam: int, nu: int, mu: int)
    requires delta != 0.0 && Determinant(gcov(x)) != 0.0 && 0 <= n < 4 && Indices(lam, nu, mu) && DependsOnlyOn(gcov, n)
    ensures var inv := Row(Inverse(gcov(x)), lam);
            2.0 * Conn(gcov, x, delta, lam, nu, mu)
            == (if mu == n then Dot(inv, Gradient(gcov, x, delta, n, nu)) else 0.0)
               + (if nu == n then Dot(inv, Gradient(gcov, x, delta, n, mu)) else 0.0)
               - Product(Get(inv, n), Centred(gcov, x, delta, mu, nu, n))
  {
    hide Centred, Inverse, Determinant;
    var inv, t := Row(Inverse(gcov(x)), lam), LoweredField(DifferenceField(gcov, x, delta));
    forall kap | 0 <= kap < 4
      ensures 2.0 * t(kap, nu, mu)
           == (if mu == n then Centred(gcov, x, delta, nu, kap, n) else 0.0)
              + (if nu == n then Centred(gcov, x, delta, mu, kap, n) else 0.0)
              - (if kap == n then Centred(gcov, x, delta, mu, nu, n) else 0.0)
    {
      if mu != n { FlatAlongOthers(gcov, x, delta, n, nu, kap, mu); }
      if nu != n { FlatAlongOthers(gcov, x, delta, n, mu, kap, nu); }
      if kap != n { FlatAlongOthers(gcov, x, delta, n, mu, nu, kap); }
      assert t(kap, nu, mu) == Rearranged(DifferenceField(gcov, x, delta), kap, nu, mu);
    }
    var c := Centred(gcov, x, delta, mu, nu, n);
    Combine(inv, Pillar(t, nu, mu), if mu == n then Gradient(gcov, x, delta, n, nu) else Vec(0.0, 0.0, 0.0, 0.0),
            if nu == n then Gradient(gcov, x, delta, n, mu) else Vec(0.0, 0.0, 0.0, 0.0), n, c);
  }

  lemma Combine(v: Vec, t: Vec, p: Vec, q: Vec, n: int, c: real)
    requires 0 <= n < 4
    requires forall i | 0 <= i < 4 :: 2.0 * Get(t, i) == Get(p, i) + Get(q, i) - (if i == n then c else 0.0)
    ensures 2.0 * Dot(v, t) == Dot(v, p) + Dot(v, q) - Product(Get(v, n), c)
    ensures Dot(v, Vec(0.0, 0.0, 0.0, 0.0)) == 0.0
  {
    assert 2.0 * Get(t, 0) == Get(p, 0) + Get(q, 0) - (if 0 == n then c else 0.0);
    assert 2.0 * Get(t, 1) == Get(p, 1) + Get(q, 1) - (if 1 == n then c else 0.0);
    assert 2.0 * Get(t, 2) == Get(p, 2) + Get(q, 2) - (if 2 == n then c else 0.0);
    assert 2.0 * Get(t, 3) == Get(p, 3) + Get(q, 3) - (if 3 == n then c else 0.0);
  }

  // -- A diagonal one

  ghost predicate DiagonalOnly(g: Mat) {
    forall i, j | 0 <= i < 4 && 0 <= j < 4 && i != j :: At(g, i, j) == 0.0
  }

  /** The inverse of a diagonal matrix is diagonal, with the reciprocals. */
  lemma InverseOfDiagonal(g: Mat, i: int, j: int)
    requires DiagonalOnly(g) && Determinant(g) != 0.0 && 0 <= i < 4 && 0 <= j < 4
    ensures Product(At(Inverse(g), i, j), At(g, j, j)) == if i == j then 1.0 else 0.0
  {
    hide Determinant, Inverse, Adjoint;
    InverseWorks(g);
    var v := Row(Inverse(g), i);
    assert At(Times(Inverse(g), g), i, j) == Dot(v, Col(g, j));
    assert At(Diagonal(1.0), i, j) == if i == j then 1.0 else 0.0;
    ColumnOfDiagonal(g, v, j);
  }

  lemma ColumnOfDiagonal(g: Mat, v: Vec, j: int)
    requires DiagonalOnly(g) && 0 <= j < 4
    ensures Dot(v, Col(g, j)) == Product(Get(v, j), At(g, j, j))
  {
    assert j == 0 || At(g, 0, j) == 0.0;
    assert j == 1 || At(g, 1, j) == 0.0;
    assert j == 2 || At(g, 2, j) == 0.0;
    assert j == 3 || At(g, 3, j) == 0.0;
  }

  /** A dot product with a row of it keeps one term. */
  lemma RowOfInverse(g: Mat, lam: int, v: Vec)
    requires DiagonalOnly(g) && Determinant(g) != 0.0 && 0 <= lam < 4
    ensures var inv := Row(Inverse(g), lam);
            && Dot(inv, v) == Product(Get(inv, lam), Get(v, lam)) && Product(Get(inv, lam), At(g, lam, lam)) == 1.0
            && forall i | 0 <= i < 4 && i != lam :: Get(inv, i) == 0.0
  {
    hide Inverse, Determinant;
    var inv := Row(Inverse(g), lam);
    forall i | 0 <= i < 4 && i != lam ensures Get(inv, i) == 0.0 {
      InverseOfDiagonal(g, lam, i);
      InverseOfDiagonal(g, i, i);
      Cancel(At(Inverse(g), lam, i), At(Inverse(g), i, i), At(g, i, i));
    }
    InverseOfDiagonal(g, lam, lam);
    assert lam == 0 || Get(inv, 0) == 0.0;
    assert lam == 1 || Get(inv, 1) == 0.0;
    assert lam == 2 || Get(inv, 2) == 0.0;
    assert lam == 3 || Get(inv, 3) == 0.0;
  }

  lemma Cancel(x: real, y: real, g: real)
    requires Product(x, g) == 0.0 && Product(y, g) == 1.0
    ensures x == 0.0
  {
    assert x == x * (y * g) == (x * g) * y;
  }

  lemma DifferenceOffDiagonal(gcov: Vec -> Mat, x: Vec, delta: real, i: int, j: int, n: int)
    requires delta != 0.0 && 0 <= n < 4 && 0 <= i < 4 && 0 <= j < 4 && i != j && forall y :: DiagonalOnly(gcov(y))
    ensures Centred(gcov, x, delta, i, j, n) == 0.0
  {
    var xh, xl := Shifted(x, n, delta), Shifted(x, n, -delta);
    assert DiagonalOnly(gcov(xh)) && DiagonalOnly(gcov(xl));
    assert At(gcov(xh), i, j) == 0.0 && At(gcov(xl), i, j) == 0.0;
    assert Get(xh, n) - Get(xl, n) == 2.0 * delta;
    hide DiagonalOnly, At;
  }

  /** The symbols of a diagonal metric, in its differences: entry (lam, lam) along either lower index that the other
      one equals lam beside, less entry (nu, nu) along lam where the lower indices agree. */
  lemma DiagonalConnection(gcov: Vec -> Mat, x: Vec, delta: real, lam: int, nu: int, mu: int)
    requires delta != 0.0 && Determinant(gcov(x)) != 0.0 && Indices(lam, nu, mu) && forall y :: DiagonalOnly(gcov(y))
    ensures 2.0 * Product(At(gcov(x), lam, lam), Conn(gcov, x, delta, lam, nu, mu))
            == (if nu == lam then Centred(gcov, x, delta, lam, lam, mu) else 0.0)
               + (if mu == lam then Centred(gcov, x, delta, lam, lam, nu) else 0.0)
               - (if nu == mu then Centred(gcov, x, delta, nu, nu, lam) else 0.0)
  {
    var g, t := gcov(x), LoweredField(DifferenceField(gcov, x, delta));
    assert DiagonalOnly(g);
    assert t(lam, nu, mu) == Rearranged(DifferenceField(gcov, x, delta), lam, nu, mu);
    assert Get(Pillar(t, nu, mu), lam) == t(lam, nu, mu);
    hide Centred, Inverse, Determinant, Dot, DiagonalOnly, Product, Pillar, Get, At, Row;
    RowOfInverse(g, lam, Pillar(t, nu, mu));
    if nu != lam { DifferenceOffDiagonal(gcov, x, delta, nu, lam, mu); }
    if mu != lam { DifferenceOffDiagonal(gcov, x, delta, mu, lam, nu); }
    if nu != mu { DifferenceOffDiagonal(gcov, x, delta, mu, nu, lam); }
    OneTerm(Get(Row(Inverse(g), lam), lam), At(g, lam, lam), t(lam, nu, mu));
  }

  lemma OneTerm(i: real, g: real, t: real)
    requires Product(i, g) == 1.0
    ensures Product(g, Product(i, t)) == t
  {
    assert g * (i * t) == (i * g) * t;
  }

  /** One that depends on coordinate `n` alone, with g and g' its entries at `x` and their differences along `n`:
      Gamma^n_nn = g'_n / 2 g_n, Gamma^n_aa = -g'_a / 2 g_n, Gamma^a_an = Gamma^a_na = g'_a / 2 g_a, and no other. */
  lemma DiagonalOfOneCoordinate(gcov: Vec -> Mat, x: Vec, delta: real, n: int, lam: int, nu: int, mu: int)
    requires delta != 0.0 && Determinant(gcov(x)) != 0.0 && 0 <= n < 4 && Indices(lam, nu, mu)
    requires DependsOnlyOn(gcov, n) && forall y :: DiagonalOnly(gcov(y))
    ensures var a := if lam == n then nu else lam;
            var slope := Centred(gcov, x, delta, a, a, n);
            2.0 * Product(At(gcov(x), lam, lam), Conn(gcov, x, delta, lam, nu, mu))
            == if lam == n then if nu != mu then 0.0 else if nu == n then slope else -slope
               else if (lam == nu && mu == n) || (lam == mu && nu == n) then slope else 0.0
  {
    hide Centred, Conn, Determinant, DiagonalOnly, Product, At;
    DiagonalConnection(gcov, x, delta, lam, nu, mu);
    if mu != n { FlatAlongOthers(gcov, x, delta, n, lam, lam, mu); }
    if nu != n { FlatAlongOthers(gcov, x, delta, n, lam, lam, nu); }
    if lam != n { FlatAlongOthers(gcov, x, delta, n, nu, nu, lam); }
  }

  // -- Flat space in spherical coordinates

  /** SphMinkowskiCoords: time, radius (kept from falling below `small`), angle from the axis, angle around it.
      `sth` is the sine as the code takes it, off the axis. */
  function Spherical(sth: real -> real, small: real): Vec -> Mat {
    (y: Vec) => SphericalAt(if y.x1 > small then y.x1 else small, sth(y.x2))
  }

  function SphericalAt(r: real, s: real): Mat {
    Mat(Vec(-1.0, 0.0, 0.0, 0.0), Vec(0.0, 1.0, 0.0, 0.0), Vec(0.0, 0.0, r * r, 0.0), Vec(0.0, 0.0, 0.0, s * s * r * r))
  }

  /** Its symbols.  Those that come of differences along the radius are exact, whatever the step that does not reach
      down to `small`; the others have the difference of the squared sine for its derivative; no others. */
  lemma SphericalConnection(sth: real -> real, small: real, x: Vec, delta: real, lam: int, nu: int, mu: int)
    requires delta != 0.0 && 0.0 < small <= x.x1 - Abs(delta) && sth(x.x2) != 0.0 && Indices(lam, nu, mu)
    ensures Determinant(Spherical(sth, small)(x)) != 0.0
    ensures SphericalSymbol(x.x1, Square(sth(x.x2)), Turn(sth, x.x2, delta), lam, nu, mu,
                            Conn(Spherical(sth, small), x, delta, lam, nu, mu))
  {
    hide Conn, Determinant, Centred, SphericalAt, Spherical, SphericalSymbol, Turn, Square, DiagonalOnly;
    var g, r, st := Spherical(sth, small), x.x1, sth(x.x2);
    var turn := Turn(sth, x.x2, delta);
    SphericalIsDiagonal(sth, small, x, delta);
    SphericalIsRegular(r, st);
    SphericalTwice(sth, small, x, delta, lam, nu, mu);
    SphericalEntries(r, st, lam);
    SquareIsNotZero(st);
    if lam <= 1 {
      Solve1(r, Square(st), turn, lam, nu, mu, At(g(x), lam, lam), Conn(g, x, delta, lam, nu, mu));
    } else if lam == 2 {
      Solve2(r, Square(st), turn, nu, mu, At(g(x), 2, 2), Conn(g, x, delta, 2, nu, mu));
    } else {
      Solve3(r, Square(st), turn, nu, mu, At(g(x), 3, 3), Conn(g, x, delta, 3, nu, mu));
    }
  }

  /** The difference of entry (a, a) along `n`. */
  function SphericalSlope(r: real, w: real, turn: real, a: int, n: int): real {
    if n == 1 && a == 2 then 2.0 * r else if n == 1 && a == 3 then 2.0 * w * r
    else if n == 2 && a == 3 then turn * (r * r) else 0.0
  }

  lemma SphericalTwice(sth: real -> real, small: real, x: Vec, delta: real, lam: int, nu: int, mu: int)
    requires delta != 0.0 && 0.0 < small <= x.x1 - Abs(delta) && Determinant(Spherical(sth, small)(x)) != 0.0
             && Indices(lam, nu, mu)
    ensures var g, r, w, turn := Spherical(sth, small), x.x1, Square(sth(x.x2)), Turn(sth, x.x2, delta);
            2.0 * Product(At(g(x), lam, lam), Conn(g, x, delta, lam, nu, mu))
            == (if nu == lam then SphericalSlope(r, w, turn, lam, mu) else 0.0)
               + (if mu == lam then SphericalSlope(r, w, turn, lam, nu) else 0.0)
               - (if nu == mu then SphericalSlope(r, w, turn, nu, lam) else 0.0)
  {
    hide Conn, Determinant, Centred, Spherical, Turn, Square, DiagonalOnly, SphericalSlope, Product, At;
    SphericalIsDiagonal(sth, small, x, delta);
    DiagonalConnection(Spherical(sth, small), x, delta, lam, nu, mu);
    SphericalDifferences(sth, small, x, delta, lam, mu);
    SphericalDifferences(sth, small, x, delta, lam, nu);
    SphericalDifferences(sth, small, x, delta, nu, lam);
  }

  /** The symbols at radius `r`, squared sine `w` and difference `turn` of it. */
  predicate SphericalSymbol(r: real, w: real, turn: real, lam: int, nu: int, mu: int, c: real)
    requires r > 0.0
  {
    if (lam, nu, mu) == (1, 2, 2) then c == -r
    else if (lam, nu, mu) == (1, 3, 3) then c == -(r * w)
    else if (lam == nu == 2 && mu == 1) || (lam == mu == 2 && nu == 1) then c == 1.0 / r
    else if (lam == nu == 3 && mu == 1) || (lam == mu == 3 && nu == 1) then c == 1.0 / r
    else if (lam, nu, mu) == (2, 3, 3) then c == -0.5 * turn
    else if (lam == nu == 3 && mu == 2) || (lam == mu == 3 && nu == 2) then 2.0 * (w * c) == turn
    else c == 0.0
  }

  function Square(s: real): real { s * s }

  lemma SquareIsNotZero(s: real)
    requires s != 0.0
    ensures Square(s) != 0.0
  {
    NonZero(s, s, Square(s));
  }

  // Entry `g` and twice the symbol give the symbol.

  lemma Solve1(r: real, w: real, turn: real, lam: int, nu: int, mu: int, g: real, c: real)
    requires r > 0.0 && 0 <= lam <= 1 && g == (if lam == 0 then -1.0 else 1.0)
    requires 0 <= nu < 4 && 0 <= mu < 4
    requires 2.0 * Product(g, c) == (if nu == lam then SphericalSlope(r, w, turn, lam, mu) else 0.0)
                                    + (if mu == lam then SphericalSlope(r, w, turn, lam, nu) else 0.0)
                                    - (if nu == mu then SphericalSlope(r, w, turn, nu, lam) else 0.0)
    ensures SphericalSymbol(r, w, turn, lam, nu, mu, c)
  {
  }

  lemma Solve2(r: real, w: real, turn: real, nu: int, mu: int, g: real, c: real)
    requires r > 0.0 && g == r * r
    requires 0 <= nu < 4 && 0 <= mu < 4
    requires 2.0 * Product(g, c) == (if nu == 2 then SphericalSlope(r, w, turn, 2, mu) else 0.0)
                                    + (if mu == 2 then SphericalSlope(r, w, turn, 2, nu) else 0.0)
                                    - (if nu == mu then SphericalSlope(r, w, turn, nu, 2) else 0.0)
    ensures SphericalSymbol(r, w, turn, 2, nu, mu, c)
  {
  }

  lemma Solve3(r: real, w: real, turn: real, nu: int, mu: int, g: real, c: real)
    requires r > 0.0 && w != 0.0 && g == w * r * r
    requires 0 <= nu < 4 && 0 <= mu < 4
    requires 2.0 * Product(g, c) == (if nu == 3 then SphericalSlope(r, w, turn, 3, mu) else 0.0)
                                    + (if mu == 3 then SphericalSlope(r, w, turn, 3, nu) else 0.0)
                                    - (if nu == mu then SphericalSlope(r, w, turn, nu, 3) else 0.0)
    ensures SphericalSymbol(r, w, turn, 3, nu, mu, c)
  {
    hide Product;
    if (nu, mu) == (3, 1) || (nu, mu) == (1, 3) {
      OverRadius(r, w, g, c);
    } else if (nu, mu) == (3, 2) || (nu, mu) == (2, 3) {
      OverTurn(r, w, turn, g, c);
    } else {
      Vanishes(r, w, g, c);
    }
  }

  lemma OverRadius(r: real, w: real, g: real, c: real)
    requires r > 0.0 && w != 0.0 && g == w * r * r && 2.0 * Product(g, c) == 2.0 * w * r
    ensures c == 1.0 / r
  {
    var u := w * r;
    NonZero(w, r, u);
    assert Product(g, c) == u * (r * c);
    Cancels(u, r * c - 1.0);
    Quotient(1.0, c, r);
  }

  lemma OverTurn(r: real, w: real, turn: real, g: real, c: real)
    requires r > 0.0 && g == w * r * r && 2.0 * Product(g, c) == turn * (r * r)
    ensures 2.0 * (w * c) == turn
  {
    var v := r * r;
    NonZero(r, r, v);
    assert Product(g, c) == v * (w * c);
    Cancels(v, 2.0 * (w * c) - turn);
  }

  lemma Vanishes(r: real, w: real, g: real, c: real)
    requires r > 0.0 && w != 0.0 && g == w * r * r && 2.0 * Product(g, c) == 0.0
    ensures c == 0.0
  {
    var u := w * r;
    NonZero(w, r, u);
    assert Product(g, c) == u * (r * c);
    Cancels(u, r * c);
    Cancels(r, c);
  }

  lemma Cancels(p: real, q: real)
    requires p != 0.0
    ensures p * q == 0.0 ==> q == 0.0
  {
  }

  /** The centred difference of the squared sine. */
  function Turn(sth: real -> real, th: real, h: real): real
    requires h != 0.0
  {
    (Square(sth(th + h)) - Square(sth(th - h))) / (2.0 * h)
  }

  lemma SphericalIsDiagonal(sth: real -> real, small: real, x: Vec, delta: real)
    requires 0.0 < small <= x.x1 - Abs(delta)
    ensures forall y :: DiagonalOnly(Spherical(sth, small)(y))
    ensures Spherical(sth, small)(x) == SphericalAt(x.x1, sth(x.x2))
  {
    hide SphericalAt, DiagonalOnly;
    forall y ensures DiagonalOnly(Spherical(sth, small)(y)) {
      EntriesOffDiagonal(if y.x1 > small then y.x1 else small, sth(y.x2));
    }
  }

  lemma EntriesOffDiagonal(r: real, s: real)
    ensures DiagonalOnly(SphericalAt(r, s))
  {
    hide Square;
  }

  lemma SphericalEntries(r: real, s: real, a: int)
    requires 0 <= a < 4
    ensures At(SphericalAt(r, s), a, a)
            == if a == 0 then -1.0 else if a == 1 then 1.0 else if a == 2 then r * r else Square(s) * r * r
  {
  }

  lemma SphericalIsRegular(r: real, s: real)
    requires r != 0.0 && s != 0.0
    ensures Determinant(SphericalAt(r, s)) != 0.0
  {
    var g, v, w := SphericalAt(r, s), r * r, s * s * r * r;
    SphericalMinor(r, s, v, w);
    hide Minor;
    FirstRow(At(g, 0, 0), At(g, 0, 1), At(g, 0, 2), At(g, 0, 3), v * w, Minor(g, 1, 2, 3, 0, 2, 3),
             Minor(g, 1, 2, 3, 0, 1, 3), Minor(g, 1, 2, 3, 0, 1, 2));
    NonZero(r, r, v);
    NonZero(s, s, s * s);
    NonZero(s * s, r, s * s * r);
    NonZero(s * s * r, r, w);
    NonZero(v, w, v * w);
  }

  lemma SphericalMinor(r: real, s: real, v: real, w: real)
    requires v == r * r && w == s * s * r * r
    ensures Minor(SphericalAt(r, s), 1, 2, 3, 1, 2, 3) == v * w
  {
    assert D2(v, 0.0, 0.0, w) == v * w;
    hide D2;
  }

  lemma FirstRow(a: real, b: real, c: real, d: real, p: real, q: real, r: real, s: real)
    requires a == -1.0 && b == 0.0 && c == 0.0 && d == 0.0
    ensures a * p - b * q + c * r - d * s == -p
  {
  }

  /** The differences of its diagonal entries. */
  lemma SphericalDifferences(sth: real -> real, small: real, x: Vec, delta: real, a: int, n: int)
    requires delta != 0.0 && 0.0 < small <= x.x1 - Abs(delta) && 0 <= a < 4 && 0 <= n < 4
    ensures Centred(Spherical(sth, small), x, delta, a, a, n)
            == SphericalSlope(x.x1, Square(sth(x.x2)), Turn(sth, x.x2, delta), a, n)
  {
    var g, w := Spherical(sth, small), Square(sth(x.x2));
    hide Square, Turn, Parabola;
    if n == 1 && a >= 2 {
      var q := if a == 2 then 1.0 else w;
      forall y | OnStencil(x, y, 1, delta) ensures At(g(y), a, a) == Parabola(0.0, 0.0, q, Get(y, 1)) {
        AlongRadius(sth, small, x, y, delta, a, q);
      }
      hide Centred, Spherical;
      CentredOfQuadratic(g, x, delta, a, a, 1, 0.0, 0.0, q);
    } else if n == 2 && a == 3 {
      SphericalTurn(sth, small, x, delta);
    } else {
      SphericalFlat(sth, small, x, delta, a, n);
    }
  }

  lemma AlongRadius(sth: real -> real, small: real, x: Vec, y: Vec, delta: real, a: int, q: real)
    requires 0.0 < small <= x.x1 - Abs(delta) && OnStencil(x, y, 1, delta) && 2 <= a <= 3
             && q == (if a == 2 then 1.0 else Square(sth(x.x2)))
    ensures At(Spherical(sth, small)(y), a, a) == Parabola(0.0, 0.0, q, Get(y, 1))
  {
    assert Get(y, 1) == y.x1 >= small && Get(y, 2) == y.x2 == x.x2;
    assert Spherical(sth, small)(y) == SphericalAt(y.x1, sth(y.x2));
    hide SphericalAt, At, Square;
    SphericalEntries(y.x1, sth(y.x2), a);
    Parabolas(q, y.x1, sth(y.x2), a);
  }

  lemma Parabolas(q: real, r: real, s: real, a: int)
    requires (a == 2 && q == 1.0) || (a == 3 && q == Square(s))
    ensures Parabola(0.0, 0.0, q, r) == if a == 2 then r * r else Square(s) * r * r
  {
  }

  lemma SphericalTurn(sth: real -> real, small: real, x: Vec, delta: real)
    requires delta != 0.0 && 0.0 < small <= x.x1 - Abs(delta)
    ensures Centred(Spherical(sth, small), x, delta, 3, 3, 2) == Turn(sth, x.x2, delta) * (x.x1 * x.x1)
  {
    var xh, xl, g := Shifted(x, 2, delta), Shifted(x, 2, -delta), Spherical(sth, small);
    assert Get(xh, 2) - Get(xl, 2) == 2.0 * delta;
    assert g(xh) == SphericalAt(x.x1, sth(x.x2 + delta)) && g(xl) == SphericalAt(x.x1, sth(x.x2 - delta));
    hide SphericalAt, At, Get, Spherical, Square, Turn;
    SphericalEntries(x.x1, sth(x.x2 + delta), 3);
    SphericalEntries(x.x1, sth(x.x2 - delta), 3);
    TurnIs(sth, x.x2, delta, x.x1);
  }

  lemma SphericalFlat(sth: real -> real, small: real, x: Vec, delta: real, a: int, n: int)
    requires delta != 0.0 && 0.0 < small <= x.x1 - Abs(delta) && 0 <= a < 4 && 0 <= n < 4
    requires (n != 1 || a < 2) && (n != 2 || a < 3)
    ensures Centred(Spherical(sth, small), x, delta, a, a, n) == 0.0
  {
    var xh, xl, g := Shifted(x, n, delta), Shifted(x, n, -delta), Spherical(sth, small);
    assert Get(xh, n) - Get(xl, n) == 2.0 * delta;
    assert g(xh) == SphericalAt(xh.x1, sth(xh.x2)) && g(xl) == SphericalAt(xl.x1, sth(xl.x2));
    assert (n != 1 ==> xh.x1 == xl.x1) && (n != 2 ==> xh.x2 == xl.x2);
    hide SphericalAt, At, Get, Spherical, Square, Shifted;
    SphericalEntries(xh.x1, sth(xh.x2), a);
    SphericalEntries(xl.x1, sth(xl.x2), a);
    NoSlope(g, x, delta, a, n);
  }

  lemma NoSlope(g: Vec -> Mat, x: Vec, delta: real, a: int, n: int)
    requires delta != 0.0 && 0 <= n < 4
    requires At(g(Shifted(x, n, delta)), a, a) == At(g(Shifted(x, n, -delta)), a, a)
    ensures Centred(g, x, delta, a, a, n) == 0.0
  {
    var xh, xl := Shifted(x, n, delta), Shifted(x, n, -delta);
    assert Get(xh, n) - Get(xl, n) == 2.0 * delta;
    hide At, Get, Shifted;
    Quotient(At(g(xh), a, a) - At(g(xl), a, a), 0.0, 2.0 * delta);
  }

  lemma TurnIs(sth: real -> real, th: real, h: real, r: real)
    requires h != 0.0
    ensures (Square(sth(th + h)) * r * r - Square(sth(th - h)) * r * r) / (2.0 * h) == Turn(sth, th, h) * (r * r)
  {
    hide Square;
    Factor(Square(sth(th + h)), Square(sth(th - h)), r, 2.0 * h);
  }

  lemma Factor(p: real, q: real, r: real, d: real)
    requires d != 0.0
    ensures (p * r * r - q * r * r) / d == (p - q) / d * (r * r)
  {
    var u, w := (p - q) / d, r * r;
    assert u * d == p - q;
    assert p * r * r - q * r * r == (p - q) * w == u * w * d;
    Quotient(p * r * r - q * r * r, u * w, d);
  }
}
