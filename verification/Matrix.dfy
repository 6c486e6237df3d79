/** 4x4 matrices stored as sixteen numbers (matrix.hpp): the adjugate by minors, the determinant, and
    the inverse they give. */
module Matrix {

  datatype Vec = Vec(x0: real, x1: real, x2: real, x3: real)
  datatype Mat = Mat(r0: Vec, r1: Vec, r2: Vec, r3: Vec)

  function Get(v: Vec, i: int): real { if i == 0 then v.x0 else if i == 1 then v.x1 else if i == 2 then v.x2 else v.x3 }
  function Row(m: Mat, i: int): Vec { if i == 0 then m.r0 else if i == 1 then m.r1 else if i == 2 then m.r2 else m.r3 }
  function Col(m: Mat, j: int): Vec { Vec(Get(m.r0, j), Get(m.r1, j), Get(m.r2, j), Get(m.r3, j)) }
  function At(m: Mat, i: int, j: int): real { Get(Row(m, i), j) }

  function Dot(v: Vec, w: Vec): real { SumOfProducts(v.x0, w.x0, v.x1, w.x1, v.x2, w.x2, v.x3, w.x3) }
  function SumOfProducts(a: real, p: real, b: real, q: real, c: real, r: real, d: real, s: real): real {
    a * p + b * q + c * r + d * s
  }

  function Apply(m: Mat, v: Vec): Vec { Vec(Dot(m.r0, v), Dot(m.r1, v), Dot(m.r2, v), Dot(m.r3, v)) }

  function Times(m: Mat, n: Mat): Mat {
    Mat(RowTimes(m.r0, n), RowTimes(m.r1, n), RowTimes(m.r2, n), RowTimes(m.r3, n))
  }
  function RowTimes(v: Vec, n: Mat): Vec {
    Vec(Dot(v, Col(n, 0)), Dot(v, Col(n, 1)), Dot(v, Col(n, 2)), Dot(v, Col(n, 3)))
  }

  function Transpose(m: Mat): Mat { Mat(Col(m, 0), Col(m, 1), Col(m, 2), Col(m, 3)) }

  function Diagonal(d: real): Mat {
    Mat(Vec(d, 0.0, 0.0, 0.0), Vec(0.0, d, 0.0, 0.0), Vec(0.0, 0.0, d, 0.0), Vec(0.0, 0.0, 0.0, d))
  }

  function Scaled(m: Mat, s: real): Mat {
    Mat(ScaledVec(m.r0, s), ScaledVec(m.r1, s), ScaledVec(m.r2, s), ScaledVec(m.r3, s))
  }
  function ScaledVec(v: Vec, s: real): Vec {
    Vec(Product(v.x0, s), Product(v.x1, s), Product(v.x2, s), Product(v.x3, s))
  }
  function Product(p: real, q: real): real { p * q }

  /** Determinant of three rows of three. */
  function D3(a: real, b: real, c: real, d: real, e: real, f: real, g: real, h: real, i: real): real {
    a * D2(e, f, h, i) - b * D2(d, f, g, i) + c * D2(d, e, g, h)
  }
  function D2(a: real, b: real, c: real, d: real): real { a * d - c * b }

  /** MINOR: the rows and columns named. */
  function Minor(m: Mat, r0: int, r1: int, r2: int, c0: int, c1: int, c2: int): real {
    D3(At(m, r0, c0), At(m, r0, c1), At(m, r0, c2), At(m, r1, c0), At(m, r1, c1), At(m, r1, c2), At(m, r2, c0),
       At(m, r2, c1), At(m, r2, c2))
  }

  function Adjoint(m: Mat): Mat {
    Mat(Vec(Minor(m, 1, 2, 3, 1, 2, 3), -Minor(m, 0, 2, 3, 1, 2, 3), Minor(m, 0, 1, 3, 1, 2, 3),
            -Minor(m, 0, 1, 2, 1, 2, 3)),
        Vec(-Minor(m, 1, 2, 3, 0, 2, 3), Minor(m, 0, 2, 3, 0, 2, 3), -Minor(m, 0, 1, 3, 0, 2, 3),
            Minor(m, 0, 1, 2, 0, 2, 3)),
        Vec(Minor(m, 1, 2, 3, 0, 1, 3), -Minor(m, 0, 2, 3, 0, 1, 3), Minor(m, 0, 1, 3, 0, 1, 3),
            -Minor(m, 0, 1, 2, 0, 1, 3)),
        Vec(-Minor(m, 1, 2, 3, 0, 1, 2), Minor(m, 0, 2, 3, 0, 1, 2), -Minor(m, 0, 1, 3, 0, 1, 2),
            Minor(m, 0, 1, 2, 0, 1, 2)))
  }

  function Determinant(m: Mat): real {
    At(m, 0, 0) * Minor(m, 1, 2, 3, 1, 2, 3) - At(m, 0, 1) * Minor(m, 1, 2, 3, 0, 2, 3)
    + At(m, 0, 2) * Minor(m, 1, 2, 3, 0, 1, 3) - At(m, 0, 3) * Minor(m, 1, 2, 3, 0, 1, 2)
  }

  // -- The determinant of four rows, and how it changes with their order

  function Det(p: Vec, q: Vec, r: Vec, s: Vec): real {
    p.x0 * D3(q.x1, q.x2, q.x3, r.x1, r.x2, r.x3, s.x1, s.x2, s.x3)
        - p.x1 * D3(q.x0, q.x2, q.x3, r.x0, r.x2, r.x3, s.x0, s.x2, s.x3)
    + p.x2 * D3(q.x0, q.x1, q.x3, r.x0, r.x1, r.x3, s.x0, s.x1, s.x3)
    - p.x3 * D3(q.x0, q.x1, q.x2, r.x0, r.x1, r.x2, s.x0, s.x1, s.x2)
  }

  lemma D3Swap(a: real, b: real, c: real, d: real, e: real, f: real, g: real, h: real, i: real)
    ensures D3(d, e, f, a, b, c, g, h, i) == -D3(a, b, c, d, e, f, g, h, i)
    ensures D3(a, b, c, g, h, i, d, e, f) == -D3(a, b, c, d, e, f, g, h, i)
    ensures D3(a, d, g, b, e, h, c, f, i) == D3(a, b, c, d, e, f, g, h, i)
  {
  }

  lemma SwapLast(p: Vec, q: Vec, r: Vec, s: Vec)
    ensures Det(p, r, q, s) == -Det(p, q, r, s)
    ensures Det(p, q, s, r) == -Det(p, q, r, s)
  {
    D3Swap(q.x1, q.x2, q.x3, r.x1, r.x2, r.x3, s.x1, s.x2, s.x3);
    D3Swap(q.x0, q.x2, q.x3, r.x0, r.x2, r.x3, s.x0, s.x2, s.x3);
    D3Swap(q.x0, q.x1, q.x3, r.x0, r.x1, r.x3, s.x0, s.x1, s.x3);
    D3Swap(q.x0, q.x1, q.x2, r.x0, r.x1, r.x2, s.x0, s.x1, s.x2);
  }

  lemma SwapFirst(p: Vec, q: Vec, r: Vec, s: Vec)
    ensures Det(q, p, r, s) == -Det(p, q, r, s)
  {
    hide D2;
    SwapFirstScalars(p.x0, p.x1, p.x2, p.x3, q.x0, q.x1, q.x2, q.x3,
                     D2(r.x0, r.x1, s.x0, s.x1), D2(r.x0, r.x2, s.x0, s.x2), D2(r.x0, r.x3, s.x0, s.x3),
                     D2(r.x1, r.x2, s.x1, s.x2), D2(r.x1, r.x3, s.x1, s.x3), D2(r.x2, r.x3, s.x2, s.x3));
  }

  /** With the 2x2 minors of the last two rows as given. */
  lemma SwapFirstScalars(p0: real, p1: real, p2: real, p3: real, q0: real, q1: real, q2: real, q3: real,
                         m01: real, m02: real, m03: real, m12: real, m13: real, m23: real)
    ensures p0 * (q1 * m23 - q2 * m13 + q3 * m12) - p1 * (q0 * m23 - q2 * m03 + q3 * m02)
            + p2 * (q0 * m13 - q1 * m03 + q3 * m01) - p3 * (q0 * m12 - q1 * m02 + q2 * m01)
         == -(q0 * (p1 * m23 - p2 * m13 + p3 * m12) - q1 * (p0 * m23 - p2 * m03 + p3 * m02)
              + q2 * (p0 * m13 - p1 * m03 + p3 * m01) - q3 * (p0 * m12 - p1 * m02 + p2 * m01))
  {
  }

  /** Two equal rows leave nothing. */
  lemma RepeatedRow(p: Vec, q: Vec, r: Vec)
    ensures Det(p, p, q, r) == 0.0 && Det(p, q, p, r) == 0.0 && Det(p, q, r, p) == 0.0
  {
    hide Det;
    SwapFirst(p, p, q, r);
    SwapFirst(p, p, r, q);
    SwapLast(p, p, q, r);
    SwapLast(p, q, r, p);
  }

  /** Expanding along any row: what multiplying a row into a column of the adjugate gives. */
  lemma RowIntoAdjoint(m: Mat, v: Vec)
    ensures Dot(v, Col(Adjoint(m), 0)) == Det(v, m.r1, m.r2, m.r3)
    ensures Dot(v, Col(Adjoint(m), 1)) == -Det(v, m.r0, m.r2, m.r3)
    ensures Dot(v, Col(Adjoint(m), 2)) == Det(v, m.r0, m.r1, m.r3)
    ensures Dot(v, Col(Adjoint(m), 3)) == -Det(v, m.r0, m.r1, m.r2)
  {
    hide D3;
  }

  lemma DeterminantIsDet(m: Mat)
    ensures Determinant(m) == Det(m.r0, m.r1, m.r2, m.r3)
  {
  }

  /** m adj(m) = det(m) I. */
  lemma TimesAdjoint(m: Mat)
    ensures Times(m, Adjoint(m)) == Diagonal(Determinant(m))
  {
    hide Det, Adjoint, Determinant, Dot;
    DeterminantIsDet(m);
    var p, q, r, s := m.r0, m.r1, m.r2, m.r3;
    RowIntoAdjoint(m, p); RowIntoAdjoint(m, q); RowIntoAdjoint(m, r); RowIntoAdjoint(m, s);
    RepeatedRow(p, q, r); RepeatedRow(p, q, s); RepeatedRow(p, r, s);
    RepeatedRow(q, p, r); RepeatedRow(q, p, s); RepeatedRow(q, r, s);
    RepeatedRow(r, p, q); RepeatedRow(r, p, s); RepeatedRow(r, q, s);
    RepeatedRow(s, p, q); RepeatedRow(s, p, r); RepeatedRow(s, q, r);
    SwapFirst(p, q, r, s);
    SwapFirst(p, r, q, s); SwapLast(p, q, r, s);
    SwapFirst(p, s, q, r); SwapLast(p, q, s, r);
  }

  // -- Transposes

  lemma AdjointOfTranspose(m: Mat)
    ensures Adjoint(Transpose(m)) == Transpose(Adjoint(m))
  {
    forall r0, r1, r2, c0, c1, c2
      ensures Minor(Transpose(m), r0, r1, r2, c0, c1, c2) == Minor(m, c0, c1, c2, r0, r1, r2)
    {
      MinorOfTranspose(m, r0, r1, r2, c0, c1, c2);
    }
    hide Minor;
  }

  lemma AtTranspose(m: Mat, i: int, j: int)
    ensures At(Transpose(m), i, j) == At(m, j, i)
  {
  }

  lemma MinorOfTranspose(m: Mat, r0: int, r1: int, r2: int, c0: int, c1: int, c2: int)
    ensures Minor(Transpose(m), r0, r1, r2, c0, c1, c2) == Minor(m, c0, c1, c2, r0, r1, r2)
  {
    AtTranspose(m, r0, c0); AtTranspose(m, r0, c1); AtTranspose(m, r0, c2);
    AtTranspose(m, r1, c0); AtTranspose(m, r1, c1); AtTranspose(m, r1, c2);
    AtTranspose(m, r2, c0); AtTranspose(m, r2, c1); AtTranspose(m, r2, c2);
    hide At, Transpose, D3;
    D3Swap(At(m, c0, r0), At(m, c1, r0), At(m, c2, r0), At(m, c0, r1), At(m, c1, r1), At(m, c2, r1), At(m, c0, r2),
           At(m, c1, r2), At(m, c2, r2));
    D3Swap(At(m, c0, r0), At(m, c0, r1), At(m, c0, r2), At(m, c1, r0), At(m, c1, r1), At(m, c1, r2), At(m, c2, r0),
           At(m, c2, r1), At(m, c2, r2));
  }

  lemma D3ByColumn(a: real, b: real, c: real, d: real, e: real, f: real, g: real, h: real, i: real)
    ensures D3(a, b, c, d, e, f, g, h, i) == a * D2(e, f, h, i) - d * D2(b, c, h, i) + g * D2(b, c, e, f)
  {
  }

  lemma D2Transposed(a: real, b: real, c: real, d: real)
    ensures D2(a, c, b, d) == D2(a, b, c, d)
  {
  }

  /** First row and first column taken out, the rest by 2x2 minors. */
  function Bordered(a: real, rest: real, b: real, c: real, d: real, e: real, i: real, m: real,
                    u34: real, v34: real, w34: real, u24: real, v24: real, w24: real, u23: real, v23: real,
                    w23: real): real {
    a * rest - b * (e * u34 - i * v34 + m * w34) + c * (e * u24 - i * v24 + m * w24) - d * (e * u23 - i * v23 + m * w23)
  }

  lemma BorderedTransposed(a: real, rest: real, b: real, c: real, d: real, e: real, i: real, m: real,
                           u34: real, v34: real, w34: real, u24: real, v24: real, w24: real, u23: real, v23: real,
                           w23: real)
    ensures Bordered(a, rest, b, c, d, e, i, m, u34, v34, w34, u24, v24, w24, u23, v23, w23)
         == Bordered(a, rest, e, i, m, b, c, d, u34, u24, u23, v34, v24, v23, w34, w24, w23)
  {
  }

  lemma DetIsBordered(a: real, b: real, c: real, d: real, e: real, f: real, g: real, h: real,
                      i: real, j: real, k: real, l: real, m: real, n: real, o: real, p: real)
    ensures Det(Vec(a, b, c, d), Vec(e, f, g, h), Vec(i, j, k, l), Vec(m, n, o, p))
         == Bordered(a, D3(f, g, h, j, k, l, n, o, p), b, c, d, e, i, m,
                     D2(k, l, o, p), D2(g, h, o, p), D2(g, h, k, l), D2(j, l, n, p), D2(f, h, n, p), D2(f, h, j, l),
                     D2(j, k, n, o), D2(f, g, n, o), D2(f, g, j, k))
  {
    hide D2, D3;
    D3ByColumn(e, g, h, i, k, l, m, o, p);
    D3ByColumn(e, f, h, i, j, l, m, n, p);
    D3ByColumn(e, f, g, i, j, k, m, n, o);
  }

  /** Along the first row or down the first column. */
  lemma DetOfTranspose(a: real, b: real, c: real, d: real, e: real, f: real, g: real, h: real,
                       i: real, j: real, k: real, l: real, m: real, n: real, o: real, p: real)
    ensures Det(Vec(a, b, c, d), Vec(e, f, g, h), Vec(i, j, k, l), Vec(m, n, o, p))
         == Det(Vec(a, e, i, m), Vec(b, f, j, n), Vec(c, g, k, o), Vec(d, h, l, p))
  {
    D3Swap(f, g, h, j, k, l, n, o, p);
    D2Transposed(k, l, o, p); D2Transposed(g, h, o, p); D2Transposed(g, h, k, l);
    D2Transposed(j, l, n, p); D2Transposed(f, h, n, p); D2Transposed(f, h, j, l);
    D2Transposed(j, k, n, o); D2Transposed(f, g, n, o); D2Transposed(f, g, j, k);
    hide D2, D3, Det, Bordered;
    DetIsBordered(a, b, c, d, e, f, g, h, i, j, k, l, m, n, o, p);
    DetIsBordered(a, e, i, m, b, f, j, n, c, g, k, o, d, h, l, p);
    BorderedTransposed(a, D3(f, g, h, j, k, l, n, o, p), b, c, d, e, i, m,
                       D2(k, l, o, p), D2(g, h, o, p), D2(g, h, k, l), D2(j, l, n, p), D2(f, h, n, p), D2(f, h, j, l),
                       D2(j, k, n, o), D2(f, g, n, o), D2(f, g, j, k));
  }

  lemma DeterminantOfTranspose(m: Mat)
    ensures Determinant(Transpose(m)) == Determinant(m)
  {
    hide Det;
    DeterminantIsDet(m);
    DeterminantIsDet(Transpose(m));
    var p, q, r, s := m.r0, m.r1, m.r2, m.r3;
    DetOfTranspose(p.x0, p.x1, p.x2, p.x3, q.x0, q.x1, q.x2, q.x3, r.x0, r.x1, r.x2, r.x3, s.x0, s.x1, s.x2, s.x3);
  }

  lemma DotCommutes(v: Vec, w: Vec)
    ensures Dot(v, w) == Dot(w, v)
  {
  }

  lemma TimesTransposed(m: Mat, n: Mat)
    ensures Times(Transpose(n), Transpose(m)) == Transpose(Times(m, n))
  {
    hide Dot;
    forall v, w ensures Dot(v, w) == Dot(w, v) { DotCommutes(v, w); }
    RowsAndColumns(m);
    RowsAndColumns(n);
  }

  lemma RowsAndColumns(m: Mat)
    ensures Col(Transpose(m), 0) == m.r0 && Col(Transpose(m), 1) == m.r1 && Col(Transpose(m), 2) == m.r2
            && Col(Transpose(m), 3) == m.r3
    ensures Transpose(Transpose(m)) == m
  {
  }

  /** adj(m) m = det(m) I. */
  lemma AdjointTimes(m: Mat)
    ensures Times(Adjoint(m), m) == Diagonal(Determinant(m))
  {
    hide Times, Adjoint, Determinant;
    var t := Transpose(m);
    TimesAdjoint(t);
    AdjointOfTranspose(m);
    DeterminantOfTranspose(m);
    TimesTransposed(Adjoint(m), m);
    RowsAndColumns(Times(Adjoint(m), m));
    assert Transpose(Diagonal(Determinant(m))) == Diagonal(Determinant(m));
  }

  // -- The inverse

  function Inverse(m: Mat): Mat
    requires Determinant(m) != 0.0
  {
    Scaled(Adjoint(m), 1.0 / Determinant(m))
  }

  lemma DotScaled(v: Vec, w: Vec, s: real)
    ensures Dot(v, ScaledVec(w, s)) == Product(Dot(v, w), s) && Dot(ScaledVec(v, s), w) == Product(Dot(v, w), s)
  {
  }

  lemma RowTimesScaled(v: Vec, n: Mat, s: real)
    ensures RowTimes(v, Scaled(n, s)) == ScaledVec(RowTimes(v, n), s)
    ensures RowTimes(ScaledVec(v, s), n) == ScaledVec(RowTimes(v, n), s)
  {
    DotScaled(v, Col(n, 0), s); DotScaled(v, Col(n, 1), s); DotScaled(v, Col(n, 2), s); DotScaled(v, Col(n, 3), s);
    hide Dot, Product;
    assert Col(Scaled(n, s), 0) == ScaledVec(Col(n, 0), s) && Col(Scaled(n, s), 1) == ScaledVec(Col(n, 1), s);
    assert Col(Scaled(n, s), 2) == ScaledVec(Col(n, 2), s) && Col(Scaled(n, s), 3) == ScaledVec(Col(n, 3), s);
  }

  lemma TimesScaled(m: Mat, n: Mat, s: real)
    ensures Times(m, Scaled(n, s)) == Scaled(Times(m, n), s)
    ensures Times(Scaled(m, s), n) == Scaled(Times(m, n), s)
  {
    RowTimesScaled(m.r0, n, s); RowTimesScaled(m.r1, n, s); RowTimesScaled(m.r2, n, s); RowTimesScaled(m.r3, n, s);
    hide RowTimes, ScaledVec;
  }

  /** The inverse is an inverse on both sides. */
  lemma InverseWorks(m: Mat)
    requires Determinant(m) != 0.0
    ensures Times(m, Inverse(m)) == Diagonal(1.0) && Times(Inverse(m), m) == Diagonal(1.0)
  {
    hide Times, Adjoint, Determinant;
    var d := Determinant(m);
    TimesAdjoint(m);
    AdjointTimes(m);
    TimesScaled(m, Adjoint(m), 1.0 / d);
    TimesScaled(Adjoint(m), m, 1.0 / d);
    assert d * (1.0 / d) == 1.0;
  }

  // -- Matrices and vectors

  function Term(a: real, p: real, v: real): real { a * p * v }

  lemma AsSum(a: real, p: real, b: real, q: real, c: real, s: real, d: real, t: real)
    ensures SumOfProducts(a, p, b, q, c, s, d, t) == Product(a, p) + Product(b, q) + Product(c, s) + Product(d, t)
  {
  }

  lemma SpreadRight(a: real, p: real, b: real, q: real, c: real, s: real, d: real, t: real, v: real)
    ensures Product(SumOfProducts(a, p, b, q, c, s, d, t), v)
         == Term(a, p, v) + Term(b, q, v) + Term(c, s, v) + Term(d, t, v)
  {
  }

  lemma SpreadLeft(a: real, p: Vec, v: Vec)
    ensures Product(a, Dot(p, v))
            == Term(a, p.x0, v.x0) + Term(a, p.x1, v.x1) + Term(a, p.x2, v.x2) + Term(a, p.x3, v.x3)
  {
  }

  /** A double sum either way round. */
  lemma DotOfApply(r: Vec, n: Mat, v: Vec)
    ensures Dot(RowTimes(r, n), v) == Dot(r, Apply(n, v))
  {
    hide SumOfProducts, Product, Term;
    var p, q, s, t, w, x := n.r0, n.r1, n.r2, n.r3, RowTimes(r, n), Apply(n, v);
    AsSum(w.x0, v.x0, w.x1, v.x1, w.x2, v.x2, w.x3, v.x3);
    AsSum(r.x0, x.x0, r.x1, x.x1, r.x2, x.x2, r.x3, x.x3);
    SpreadRight(r.x0, p.x0, r.x1, q.x0, r.x2, s.x0, r.x3, t.x0, v.x0);
    SpreadRight(r.x0, p.x1, r.x1, q.x1, r.x2, s.x1, r.x3, t.x1, v.x1);
    SpreadRight(r.x0, p.x2, r.x1, q.x2, r.x2, s.x2, r.x3, t.x2, v.x2);
    SpreadRight(r.x0, p.x3, r.x1, q.x3, r.x2, s.x3, r.x3, t.x3, v.x3);
    SpreadLeft(r.x0, p, v); SpreadLeft(r.x1, q, v); SpreadLeft(r.x2, s, v); SpreadLeft(r.x3, t, v);
  }

  lemma ApplyTimes(m: Mat, n: Mat, v: Vec)
    ensures Apply(Times(m, n), v) == Apply(m, Apply(n, v))
  {
    DotOfApply(m.r0, n, v); DotOfApply(m.r1, n, v); DotOfApply(m.r2, n, v); DotOfApply(m.r3, n, v);
    hide Dot, RowTimes;
  }

  lemma ApplyIdentity(v: Vec)
    ensures Apply(Diagonal(1.0), v) == v
  {
  }

  /** The inverse undoes the matrix on vectors, either way round. */
  lemma InverseUndoes(m: Mat, v: Vec)
    requires Determinant(m) != 0.0
    ensures Apply(Inverse(m), Apply(m, v)) == v && Apply(m, Apply(Inverse(m), v)) == v
  {
    hide Times, Apply, Inverse, Determinant;
    InverseWorks(m);
    ApplyTimes(Inverse(m), m, v);
    ApplyTimes(m, Inverse(m), v);
    ApplyIdentity(v);
  }

  // -- On storage

  ghost function Read(a: array<real>): Mat
    requires a.Length == 16
    reads a
  {
    Mat(Vec(a[0], a[1], a[2], a[3]), Vec(a[4], a[5], a[6], a[7]), Vec(a[8], a[9], a[10], a[11]),
        Vec(a[12], a[13], a[14], a[15]))
  }

  function MinorIn(m: array<real>, r0: int, r1: int, r2: int, c0: int, c1: int, c2: int): (d: real)
    requires m.Length == 16 && 0 <= r0 < 4 && 0 <= r1 < 4 && 0 <= r2 < 4 && 0 <= c0 < 4 && 0 <= c1 < 4 && 0 <= c2 < 4
    reads m
  {
    D3(m[4 * r0 + c0], m[4 * r0 + c1], m[4 * r0 + c2], m[4 * r1 + c0], m[4 * r1 + c1], m[4 * r1 + c2], m[4 * r2 + c0],
       m[4 * r2 + c1], m[4 * r2 + c2])
  }

  lemma EntryIn(m: array<real>, r: int, c: int)
    requires m.Length == 16 && 0 <= r < 4 && 0 <= c < 4
    ensures m[4 * r + c] == At(Read(m), r, c)
  {
  }

  lemma MinorInIs(m: array<real>, r0: int, r1: int, r2: int, c0: int, c1: int, c2: int)
    requires m.Length == 16 && 0 <= r0 < 4 && 0 <= r1 < 4 && 0 <= r2 < 4 && 0 <= c0 < 4 && 0 <= c1 < 4 && 0 <= c2 < 4
    ensures MinorIn(m, r0, r1, r2, c0, c1, c2) == Minor(Read(m), r0, r1, r2, c0, c1, c2)
  {
    EntryIn(m, r0, c0); EntryIn(m, r0, c1); EntryIn(m, r0, c2);
    EntryIn(m, r1, c0); EntryIn(m, r1, c1); EntryIn(m, r1, c2);
    EntryIn(m, r2, c0); EntryIn(m, r2, c1); EntryIn(m, r2, c2);
    hide At, Read, D3;
  }

  /** Minors without column `i`, with alternating signs. */
  function AdjointRow(m: array<real>, c0: int, c1: int, c2: int): (v: Vec)
    requires m.Length == 16 && 0 <= c0 < 4 && 0 <= c1 < 4 && 0 <= c2 < 4
    reads m
    ensures v == Vec(Minor(Read(m), 1, 2, 3, c0, c1, c2), -Minor(Read(m), 0, 2, 3, c0, c1, c2),
                     Minor(Read(m), 0, 1, 3, c0, c1, c2), -Minor(Read(m), 0, 1, 2, c0, c1, c2))
  {
    MinorInIs(m, 1, 2, 3, c0, c1, c2);
    MinorInIs(m, 0, 2, 3, c0, c1, c2);
    MinorInIs(m, 0, 1, 3, c0, c1, c2);
    MinorInIs(m, 0, 1, 2, c0, c1, c2);
    Vec(MinorIn(m, 1, 2, 3, c0, c1, c2), -MinorIn(m, 0, 2, 3, c0, c1, c2), MinorIn(m, 0, 1, 3, c0, c1, c2),
        -MinorIn(m, 0, 1, 2, c0, c1, c2))
  }

  method StoreRow(a: array<real>, i: int, v: Vec)
    requires a.Length == 16 && 0 <= i < 4
    modifies a
    ensures a[4 * i] == v.x0 && a[4 * i + 1] == v.x1 && a[4 * i + 2] == v.x2 && a[4 * i + 3] == v.x3
    ensures forall k | 0 <= k < 16 && !(4 * i <= k < 4 * i + 4) :: a[k] == old(a[k])
  {
    a[4 * i], a[4 * i + 1], a[4 * i + 2], a[4 * i + 3] := v.x0, v.x1, v.x2, v.x3;
  }

  function Negated(v: Vec): Vec { Vec(-v.x0, -v.x1, -v.x2, -v.x3) }

  method FillAdjoint(m: array<real>, adj: array<real>)
    requires m.Length == 16 && adj.Length == 16 && m != adj
    modifies adj
    ensures Read(adj) == Adjoint(Read(m))
  {
    hide Minor, AdjointRow;
    StoreRow(adj, 0, AdjointRow(m, 1, 2, 3));
    StoreRow(adj, 1, Negated(AdjointRow(m, 0, 2, 3)));
    StoreRow(adj, 2, AdjointRow(m, 0, 1, 3));
    StoreRow(adj, 3, Negated(AdjointRow(m, 0, 1, 2)));
  }

  method DeterminantOf(m: array<real>) returns (det: real)
    requires m.Length == 16
    ensures det == Determinant(Read(m))
  {
    MinorInIs(m, 1, 2, 3, 1, 2, 3); MinorInIs(m, 1, 2, 3, 0, 2, 3); MinorInIs(m, 1, 2, 3, 0, 1, 3);
    MinorInIs(m, 1, 2, 3, 0, 1, 2);
    hide Minor, MinorIn;
    det := m[0] * MinorIn(m, 1, 2, 3, 1, 2, 3) - m[1] * MinorIn(m, 1, 2, 3, 0, 2, 3)
           + m[2] * MinorIn(m, 1, 2, 3, 0, 1, 3) - m[3] * MinorIn(m, 1, 2, 3, 0, 1, 2);
  }

  /** invert: the adjugate in place of the output, then every entry over the determinant.  Without a
      determinant to divide by nothing is promised of the entries; there is no inverse then. */
  method Invert(m: array<real>, inv: array<real>) returns (det: real)
    requires m.Length == 16 && inv.Length == 16 && m != inv
    modifies inv
    ensures det == Determinant(Read(m))
    ensures det != 0.0 ==> Read(inv) == Inverse(Read(m))
    ensures det != 0.0 ==> Times(Read(m), Read(inv)) == Diagonal(1.0) && Times(Read(inv), Read(m)) == Diagonal(1.0)
  {
    hide Adjoint, Determinant, Times;
    FillAdjoint(m, inv);
    det := DeterminantOf(m);
    if det == 0.0 { return; }
    var s := 1.0 / det;
    ghost var adj := Read(inv);
    label Filled:
    for i := 0 to 16
      invariant forall k | i <= k < 16 :: inv[k] == old@Filled(inv[k])
      invariant forall k | 0 <= k < i :: inv[k] == Product(old@Filled(inv[k]), s)
    {
      inv[i] := Product(inv[i], s);
    }
    assert Read(inv) == Scaled(adj, s);
    InverseWorks(Read(m));
  }
}
