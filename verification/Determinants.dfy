/** The determinant of a product.  With it a metric that is not singular stays so in any coordinates
    whose Jacobian is not singular. */
module Determinants {
  import opened Matrix

  /** Four vectors combined with the coefficients `v`. */
  function Combined(v: Vec, x: Vec, y: Vec, z: Vec, w: Vec): Vec {
    Vec(SumOfProducts(v.x0, x.x0, v.x1, y.x0, v.x2, z.x0, v.x3, w.x0),
        SumOfProducts(v.x0, x.x1, v.x1, y.x1, v.x2, z.x1, v.x3, w.x1),
        SumOfProducts(v.x0, x.x2, v.x1, y.x2, v.x2, z.x2, v.x3, w.x2),
        SumOfProducts(v.x0, x.x3, v.x1, y.x3, v.x2, z.x3, v.x3, w.x3))
  }

  lemma Reordered(v: Vec, x: Vec, y: Vec, z: Vec, w: Vec)
    ensures Combined(v, x, y, z, w) == Combined(Vec(v.x1, v.x0, v.x2, v.x3), y, x, z, w)
    ensures Combined(v, x, y, z, w) == Combined(Vec(v.x0, v.x2, v.x1, v.x3), x, z, y, w)
    ensures Combined(v, x, y, z, w) == Combined(Vec(v.x0, v.x1, v.x3, v.x2), x, y, w, z)
  {
  }

  lemma ReorderedTwice(v: Vec, x: Vec, y: Vec, z: Vec, w: Vec)
    ensures Combined(v, x, y, z, w) == Combined(Vec(v.x0, v.x3, v.x1, v.x2), x, w, y, z)
    ensures Combined(v, x, y, z, w) == Combined(Vec(v.x2, v.x0, v.x1, v.x3), z, x, y, w)
    ensures Combined(v, x, y, z, w) == Combined(Vec(v.x3, v.x0, v.x1, v.x2), w, x, y, z)
  {
  }

  /** Expansion along the first row, the minors given. */
  function Expand(p: Vec, m0: real, m1: real, m2: real, m3: real): real {
    Product(p.x0, m0) - Product(p.x1, m1) + Product(p.x2, m2) - Product(p.x3, m3)
  }

  lemma DetIsExpand(p: Vec, q: Vec, r: Vec, s: Vec)
    ensures Det(p, q, r, s)
         == Expand(p, D3(q.x1, q.x2, q.x3, r.x1, r.x2, r.x3, s.x1, s.x2, s.x3),
                   D3(q.x0, q.x2, q.x3, r.x0, r.x2, r.x3, s.x0, s.x2, s.x3),
                   D3(q.x0, q.x1, q.x3, r.x0, r.x1, r.x3, s.x0, s.x1, s.x3),
                   D3(q.x0, q.x1, q.x2, r.x0, r.x1, r.x2, s.x0, s.x1, s.x2))
  {
    hide D3;
  }

  /** The determinant is linear in its first row, and so in the others. */
  lemma FirstRow(v: Vec, x: Vec, y: Vec, z: Vec, w: Vec, q: Vec, r: Vec, s: Vec)
    ensures Det(Combined(v, x, y, z, w), q, r, s)
            == Dot(v, Vec(Det(x, q, r, s), Det(y, q, r, s), Det(z, q, r, s), Det(w, q, r, s)))
  {
    hide Det, D3, Combined, Dot, Expand;
    DetIsExpand(Combined(v, x, y, z, w), q, r, s);
    DetIsExpand(x, q, r, s); DetIsExpand(y, q, r, s); DetIsExpand(z, q, r, s); DetIsExpand(w, q, r, s);
    ExpandLinear(v, x, y, z, w,
                 D3(q.x1, q.x2, q.x3, r.x1, r.x2, r.x3, s.x1, s.x2, s.x3),
                 D3(q.x0, q.x2, q.x3, r.x0, r.x2, r.x3, s.x0, s.x2, s.x3),
                 D3(q.x0, q.x1, q.x3, r.x0, r.x1, r.x3, s.x0, s.x1, s.x3),
                 D3(q.x0, q.x1, q.x2, r.x0, r.x1, r.x2, s.x0, s.x1, s.x2));
  }

  lemma ExpandLinear(v: Vec, x: Vec, y: Vec, z: Vec, w: Vec, m0: real, m1: real, m2: real, m3: real)
    ensures Expand(Combined(v, x, y, z, w), m0, m1, m2, m3)
         == Dot(v, Vec(Expand(x, m0, m1, m2, m3), Expand(y, m0, m1, m2, m3), Expand(z, m0, m1, m2, m3),
                       Expand(w, m0, m1, m2, m3)))
  {
    var c0, c1, c2, c3 :=
        Vec(x.x0, y.x0, z.x0, w.x0), Vec(x.x1, y.x1, z.x1, w.x1), Vec(x.x2, y.x2, z.x2, w.x2),
        Vec(x.x3, y.x3, z.x3, w.x3);
    assert Combined(v, x, y, z, w) == Vec(Dot(v, c0), Dot(v, c1), Dot(v, c2), Dot(v, c3));
    hide Combined, Dot, Product;
    DotScaled(v, c0, m0); DotScaled(v, c1, m1); DotScaled(v, c2, m2); DotScaled(v, c3, m3);
    DotAlternating(v, ScaledVec(c0, m0), ScaledVec(c1, m1), ScaledVec(c2, m2), ScaledVec(c3, m3));
  }

  lemma DotAlternating(v: Vec, a: Vec, b: Vec, c: Vec, d: Vec)
    ensures Dot(v,
                Vec(a.x0 - b.x0 + c.x0 - d.x0, a.x1 - b.x1 + c.x1 - d.x1, a.x2 - b.x2 + c.x2 - d.x2,
                    a.x3 - b.x3 + c.x3 - d.x3))
         == Dot(v, a) - Dot(v, b) + Dot(v, c) - Dot(v, d)
  {
  }

  lemma DotNegated(v: Vec, w: Vec)
    ensures Dot(v, Negated(w)) == -Dot(v, w)
  {
  }

  lemma SecondRow(v: Vec, x: Vec, y: Vec, z: Vec, w: Vec, q: Vec, r: Vec, s: Vec)
    ensures Det(q, Combined(v, x, y, z, w), r, s)
            == Dot(v, Vec(Det(q, x, r, s), Det(q, y, r, s), Det(q, z, r, s), Det(q, w, r, s)))
  {
    hide Det, Combined, Dot;
    FirstRow(v, x, y, z, w, q, r, s);
    SwapFirst(Combined(v, x, y, z, w), q, r, s);
    SwapFirst(x, q, r, s); SwapFirst(y, q, r, s); SwapFirst(z, q, r, s); SwapFirst(w, q, r, s);
    DotNegated(v, Vec(Det(x, q, r, s), Det(y, q, r, s), Det(z, q, r, s), Det(w, q, r, s)));
  }

  lemma ThirdRow(v: Vec, x: Vec, y: Vec, z: Vec, w: Vec, q: Vec, r: Vec, s: Vec)
    ensures Det(q, r, Combined(v, x, y, z, w), s)
            == Dot(v, Vec(Det(q, r, x, s), Det(q, r, y, s), Det(q, r, z, s), Det(q, r, w, s)))
  {
    hide Det, Combined, Dot;
    SecondRow(v, x, y, z, w, q, r, s);
    SwapLast(q, Combined(v, x, y, z, w), r, s);
    SwapLast(q, x, r, s); SwapLast(q, y, r, s); SwapLast(q, z, r, s); SwapLast(q, w, r, s);
    DotNegated(v, Vec(Det(q, x, r, s), Det(q, y, r, s), Det(q, z, r, s), Det(q, w, r, s)));
  }

  lemma FourthRow(v: Vec, x: Vec, y: Vec, z: Vec, w: Vec, q: Vec, r: Vec, s: Vec)
    ensures Det(q, r, s, Combined(v, x, y, z, w))
            == Dot(v, Vec(Det(q, r, s, x), Det(q, r, s, y), Det(q, r, s, z), Det(q, r, s, w)))
  {
    hide Det, Combined, Dot;
    ThirdRow(v, x, y, z, w, q, r, s);
    SwapLast(q, r, Combined(v, x, y, z, w), s);
    SwapLast(q, r, x, s); SwapLast(q, r, y, s); SwapLast(q, r, z, s); SwapLast(q, r, w, s);
    DotNegated(v, Vec(Det(q, r, x, s), Det(q, r, y, s), Det(q, r, z, s), Det(q, r, w, s)));
  }

  lemma LaterRepeat(p: Vec, q: Vec, r: Vec)
    ensures Det(r, p, p, q) == 0.0 && Det(r, p, q, p) == 0.0 && Det(r, q, p, p) == 0.0
  {
    hide Det;
    SwapLast(r, p, p, q);
    SwapLast(r, p, q, p);
    SwapLast(r, q, p, p);
  }

  /** Two combinations beside two of the vectors themselves. */
  lemma LastTwo(x: Vec, y: Vec, z: Vec, w: Vec, r: Vec, s: Vec)
    ensures Det(x, y, Combined(r, x, y, z, w), Combined(s, x, y, z, w)) == D2(r.x2, r.x3, s.x2, s.x3) * Det(x, y, z, w)
  {
    hide Det, Combined;
    var q := Combined(s, x, y, z, w);
    ThirdRow(r, x, y, z, w, x, y, q);
    FourthRow(s, x, y, z, w, x, y, z);
    FourthRow(s, x, y, z, w, x, y, w);
    RepeatedRow(x, y, q); LaterRepeat(y, q, x);
    RepeatedRow(x, y, z); LaterRepeat(y, z, x); LaterRepeat(z, y, x);
    RepeatedRow(x, y, w); LaterRepeat(y, w, x); LaterRepeat(w, y, x);
    SwapLast(x, y, z, w);
    TwoByTwo(r, s, Det(x, y, z, w));
  }

  lemma TwoByTwo(r: Vec, s: Vec, d: real)
    ensures Dot(r, Vec(0.0, 0.0, Dot(s, Vec(0.0, 0.0, 0.0, d)), Dot(s, Vec(0.0, 0.0, -d, 0.0))))
            == D2(r.x2, r.x3, s.x2, s.x3) * d
  {
  }

  /** Three combinations beside one of the vectors. */
  lemma LastThree(x: Vec, y: Vec, z: Vec, w: Vec, q: Vec, r: Vec, s: Vec)
    ensures Det(x, Combined(q, x, y, z, w), Combined(r, x, y, z, w), Combined(s, x, y, z, w))
         == D3(q.x1, q.x2, q.x3, r.x1, r.x2, r.x3, s.x1, s.x2, s.x3) * Det(x, y, z, w)
  {
    hide Det, Combined, D3, D2;
    var c, e := Combined(r, x, y, z, w), Combined(s, x, y, z, w);
    SecondRow(q, x, y, z, w, x, c, e);
    RepeatedRow(x, c, e);
    LastTwo(x, y, z, w, r, s);
    Reordered(r, x, y, z, w); Reordered(s, x, y, z, w);
    LastTwo(x, z, y, w, Vec(r.x0, r.x2, r.x1, r.x3), Vec(s.x0, s.x2, s.x1, s.x3));
    SwapLast(x, y, z, w);
    ReorderedTwice(r, x, y, z, w); ReorderedTwice(s, x, y, z, w);
    LastTwo(x, w, y, z, Vec(r.x0, r.x3, r.x1, r.x2), Vec(s.x0, s.x3, s.x1, s.x2));
    SwapLast(x, y, w, z);
    ThreeByThree(q, r, s, Det(x, y, z, w));
  }

  lemma ThreeByThree(q: Vec, r: Vec, s: Vec, d: real)
    ensures Dot(q,
                Vec(0.0, D2(r.x2, r.x3, s.x2, s.x3) * d, D2(r.x1, r.x3, s.x1, s.x3) * -d,
                    D2(r.x1, r.x2, s.x1, s.x2) * d))
         == D3(q.x1, q.x2, q.x3, r.x1, r.x2, r.x3, s.x1, s.x2, s.x3) * d
  {
    hide D2;
  }

  /** Four combinations: the determinant of the coefficients times that of the vectors. */
  lemma AllFour(x: Vec, y: Vec, z: Vec, w: Vec, p: Vec, q: Vec, r: Vec, s: Vec)
    ensures Det(Combined(p, x, y, z, w), Combined(q, x, y, z, w), Combined(r, x, y, z, w), Combined(s, x, y, z, w))
         == Det(p, q, r, s) * Det(x, y, z, w)
  {
    hide Det, Combined, D3;
    var b, c, e := Combined(q, x, y, z, w), Combined(r, x, y, z, w), Combined(s, x, y, z, w);
    FirstRow(p, x, y, z, w, b, c, e);
    LastThree(x, y, z, w, q, r, s);
    Reordered(q, x, y, z, w); Reordered(r, x, y, z, w); Reordered(s, x, y, z, w);
    LastThree(y, x, z, w, Vec(q.x1, q.x0, q.x2, q.x3), Vec(r.x1, r.x0, r.x2, r.x3), Vec(s.x1, s.x0, s.x2, s.x3));
    ReorderedTwice(q, x, y, z, w); ReorderedTwice(r, x, y, z, w); ReorderedTwice(s, x, y, z, w);
    LastThree(z, x, y, w, Vec(q.x2, q.x0, q.x1, q.x3), Vec(r.x2, r.x0, r.x1, r.x3), Vec(s.x2, s.x0, s.x1, s.x3));
    LastThree(w, x, y, z, Vec(q.x3, q.x0, q.x1, q.x2), Vec(r.x3, r.x0, r.x1, r.x2), Vec(s.x3, s.x0, s.x1, s.x2));
    Rotations(x, y, z, w);
    FourByFour(p, q, r, s, Det(x, y, z, w));
  }

  lemma Rotations(x: Vec, y: Vec, z: Vec, w: Vec)
    ensures Det(y, x, z, w) == -Det(x, y, z, w) && Det(z, x, y, w) == Det(x, y, z, w)
            && Det(w, x, y, z) == -Det(x, y, z, w)
  {
    hide Det;
    SwapFirst(x, y, z, w);
    SwapFirst(x, z, y, w); SwapLast(x, y, z, w);
    SwapFirst(x, w, y, z); SwapLast(x, y, w, z);
  }

  lemma FourByFour(p: Vec, q: Vec, r: Vec, s: Vec, d: real)
    ensures Dot(p,
                Vec(D3(q.x1, q.x2, q.x3, r.x1, r.x2, r.x3, s.x1, s.x2, s.x3) * d,
                    D3(q.x0, q.x2, q.x3, r.x0, r.x2, r.x3, s.x0, s.x2, s.x3) * -d,
                       D3(q.x0, q.x1, q.x3, r.x0, r.x1, r.x3, s.x0, s.x1, s.x3) * d,
                       D3(q.x0, q.x1, q.x2, r.x0, r.x1, r.x2, s.x0, s.x1, s.x2) * -d))
         == Det(p, q, r, s) * d
  {
    hide D3;
  }

  /** Determinants multiply. */
  lemma DeterminantOfTimes(m: Mat, n: Mat)
    ensures Determinant(Times(m, n)) == Determinant(m) * Determinant(n)
  {
    hide Determinant, Det, Dot;
    RowsCombined(m.r0, n); RowsCombined(m.r1, n); RowsCombined(m.r2, n); RowsCombined(m.r3, n);
    DeterminantIsDet(Times(m, n)); DeterminantIsDet(m); DeterminantIsDet(n);
    AllFour(n.r0, n.r1, n.r2, n.r3, m.r0, m.r1, m.r2, m.r3);
  }

  lemma RowsCombined(v: Vec, n: Mat)
    ensures RowTimes(v, n) == Combined(v, n.r0, n.r1, n.r2, n.r3)
  {
  }

  lemma UnitDeterminant()
    ensures Determinant(Diagonal(1.0)) == 1.0
  {
    var i := Diagonal(1.0);
    DeterminantIsDet(i);
    DetIsExpand(i.r0, i.r1, i.r2, i.r3);
    UnitMinor();
    hide D3, Det, Determinant;
  }

  lemma UnitMinor()
    ensures D3(1.0, 0.0, 0.0, 0.0, 1.0, 0.0, 0.0, 0.0, 1.0) == 1.0
  {
  }

  /** A matrix has an inverse exactly when its determinant is not zero. */
  lemma InvertibleIff(m: Mat)
    ensures Determinant(m) != 0.0 <==> exists n :: Times(m, n) == Diagonal(1.0)
  {
    hide Determinant, Times, Diagonal, Inverse;
    if Determinant(m) != 0.0 {
      InverseWorks(m);
      assert Times(m, Inverse(m)) == Diagonal(1.0);
    } else {
      forall n ensures Times(m, n) != Diagonal(1.0) {
        DeterminantOfTimes(m, n);
        UnitDeterminant();
        if Times(m, n) == Diagonal(1.0) { assert false; }
      }
    }
  }
}
