/** Totals over the interior zones of a block: linearity, sign, and telescoping in each direction. */
module GridSums {
  import opened Grid

  function RowSum(f: Scalar, k: int, j: int, i0: int, n: nat): real {
    if n == 0 then 0.0 else RowSum(f, k, j, i0, n - 1) + f(k, j, i0 + n - 1)
  }

  function PlaneSum(f: Scalar, k: int, j0: int, n: nat, i0: int, ni: nat): real {
    if n == 0 then 0.0 else PlaneSum(f, k, j0, n - 1, i0, ni) + RowSum(f, k, j0 + n - 1, i0, ni)
  }

  function BlockSum(f: Scalar, k0: int, n: nat, j0: int, nj: nat, i0: int, ni: nat): real {
    if n == 0 then 0.0 else BlockSum(f, k0, n - 1, j0, nj, i0, ni) + PlaneSum(f, k0 + n - 1, j0, nj, i0, ni)
  }

  function Total(m: Mesh, f: Scalar): real
    requires m.Ok()
  {
    BlockSum(f, m.Ks(), m.n3, m.Js(), m.n2, m.Is(), m.n1)
  }

  function Mix(p: real, a: real, q: real, b: real): real { p * a + q * b }

  lemma {:induction false} RowCombines(f: Scalar, g: Scalar, h: Scalar, p: real, q: real, k: int, j: int, i0: int,
                                       n: nat)
    requires forall i {:trigger h(k, j, i)} | i0 <= i < i0 + n :: h(k, j, i) == Mix(p, f(k, j, i), q, g(k, j, i))
    ensures RowSum(h, k, j, i0, n) == Mix(p, RowSum(f, k, j, i0, n), q, RowSum(g, k, j, i0, n))
  {
    hide Mix;
    if n == 0 {
      MixNothing(p, q);
    } else {
      RowCombines(f, g, h, p, q, k, j, i0, n - 1);
      var i := i0 + n - 1;
      assert h(k, j, i) == Mix(p, f(k, j, i), q, g(k, j, i));
      Spread(p, q, RowSum(f, k, j, i0, n - 1), f(k, j, i), RowSum(g, k, j, i0, n - 1), g(k, j, i));
    }
  }

  lemma MixNothing(p: real, q: real)
    ensures Mix(p, 0.0, q, 0.0) == 0.0
  {
  }

  lemma Spread(p: real, q: real, a: real, b: real, c: real, d: real)
    ensures Mix(p, a, q, c) + Mix(p, b, q, d) == Mix(p, a + b, q, c + d)
  {
  }

  lemma {:induction false} PlaneCombines(f: Scalar, g: Scalar, h: Scalar, p: real, q: real, k: int, j0: int, n: nat,
                                         i0: int, ni: nat)
    requires forall j, i {:trigger h(k, j, i)} | j0 <= j < j0 + n && i0 <= i < i0 + ni ::
             h(k, j, i) == Mix(p, f(k, j, i), q, g(k, j, i))
    ensures PlaneSum(h, k, j0, n, i0, ni) == Mix(p, PlaneSum(f, k, j0, n, i0, ni), q, PlaneSum(g, k, j0, n, i0, ni))
  {
    hide Mix;
    if n == 0 {
      MixNothing(p, q);
    } else {
      PlaneCombines(f, g, h, p, q, k, j0, n - 1, i0, ni);
      var j := j0 + n - 1;
      RowCombines(f, g, h, p, q, k, j, i0, ni);
      Spread(p, q, PlaneSum(f, k, j0, n - 1, i0, ni), RowSum(f, k, j, i0, ni), PlaneSum(g, k, j0, n - 1, i0, ni),
             RowSum(g, k, j, i0, ni));
    }
  }

  lemma {:induction false} BlockCombines(f: Scalar, g: Scalar, h: Scalar, p: real, q: real, k0: int, n: nat, j0: int,
                                         nj: nat, i0: int, ni: nat)
    requires forall k, j, i {:trigger h(k, j, i)} | k0 <= k < k0 + n && j0 <= j < j0 + nj && i0 <= i < i0 + ni ::
               h(k, j, i) == Mix(p, f(k, j, i), q, g(k, j, i))
    ensures BlockSum(h, k0, n, j0, nj, i0, ni)
            == Mix(p, BlockSum(f, k0, n, j0, nj, i0, ni), q, BlockSum(g, k0, n, j0, nj, i0, ni))
  {
    hide Mix;
    if n == 0 {
      MixNothing(p, q);
    } else {
      BlockCombines(f, g, h, p, q, k0, n - 1, j0, nj, i0, ni);
      var k := k0 + n - 1;
      PlaneCombines(f, g, h, p, q, k, j0, nj, i0, ni);
      Spread(p, q, BlockSum(f, k0, n - 1, j0, nj, i0, ni), PlaneSum(f, k, j0, nj, i0, ni),
             BlockSum(g, k0, n - 1, j0, nj, i0, ni), PlaneSum(g, k, j0, nj, i0, ni));
    }
  }

  /** Totals are linear. */
  lemma TotalCombines(m: Mesh, f: Scalar, g: Scalar, h: Scalar, p: real, q: real)
    requires m.Ok() && forall k, j, i {:trigger h(k, j, i)} | m.Interior(k, j, i) ::
             h(k, j, i) == Mix(p, f(k, j, i), q, g(k, j, i))
    ensures Total(m, h) == Mix(p, Total(m, f), q, Total(m, g))
  {
    hide Mix;
    BlockCombines(f, g, h, p, q, m.Ks(), m.n3, m.Js(), m.n2, m.Is(), m.n1);
  }

  lemma {:induction false} RowSigned(f: Scalar, k: int, j: int, i0: int, n: nat)
    requires forall i {:trigger f(k, j, i)} | i0 <= i < i0 + n :: f(k, j, i) >= 0.0
    ensures RowSum(f, k, j, i0, n) >= 0.0
    ensures RowSum(f, k, j, i0, n) == 0.0 ==> forall i {:trigger f(k, j, i)} | i0 <= i < i0 + n :: f(k, j, i) == 0.0
  {
    if n > 0 {
      RowSigned(f, k, j, i0, n - 1);
      assert f(k, j, i0 + n - 1) >= 0.0;
    }
  }

  lemma {:induction false} PlaneSigned(f: Scalar, k: int, j0: int, n: nat, i0: int, ni: nat)
    requires forall j, i {:trigger f(k, j, i)} | j0 <= j < j0 + n && i0 <= i < i0 + ni :: f(k, j, i) >= 0.0
    ensures PlaneSum(f, k, j0, n, i0, ni) >= 0.0
    ensures PlaneSum(f, k, j0, n, i0, ni) == 0.0 ==>
              forall j, i {:trigger f(k, j, i)} | j0 <= j < j0 + n && i0 <= i < i0 + ni :: f(k, j, i) == 0.0
  {
    if n > 0 {
      PlaneSigned(f, k, j0, n - 1, i0, ni);
      RowSigned(f, k, j0 + n - 1, i0, ni);
    }
  }

  lemma {:induction false} BlockSigned(f: Scalar, k0: int, n: nat, j0: int, nj: nat, i0: int, ni: nat)
    requires forall k, j, i {:trigger f(k, j, i)} | k0 <= k < k0 + n && j0 <= j < j0 + nj && i0 <= i < i0 + ni ::
             f(k, j, i) >= 0.0
    ensures BlockSum(f, k0, n, j0, nj, i0, ni) >= 0.0
    ensures BlockSum(f, k0, n, j0, nj, i0, ni) == 0.0 ==>
              forall k, j, i {:trigger f(k, j, i)} | k0 <= k < k0 + n && j0 <= j < j0 + nj && i0 <= i < i0 + ni ::
                  f(k, j, i) == 0.0
  {
    if n > 0 {
      BlockSigned(f, k0, n - 1, j0, nj, i0, ni);
      PlaneSigned(f, k0 + n - 1, j0, nj, i0, ni);
    }
  }

  /** A total of non-negative values is zero only if all are. */
  lemma TotalSigned(m: Mesh, f: Scalar)
    requires m.Ok() && forall k, j, i {:trigger f(k, j, i)} | m.Interior(k, j, i) :: f(k, j, i) >= 0.0
    ensures Total(m, f) >= 0.0
    ensures Total(m, f) == 0.0 ==> forall k, j, i {:trigger f(k, j, i)} | m.Interior(k, j, i) :: f(k, j, i) == 0.0
  {
    BlockSigned(f, m.Ks(), m.n3, m.Js(), m.n2, m.Is(), m.n1);
  }

  // Differences telescope: the total of a difference is what is left at the two ends.

  lemma {:induction false} RowTelescopes(g: Scalar, f: Scalar, k: int, j: int, i0: int, n: nat)
    requires forall i {:trigger f(k, j, i)} | i0 <= i < i0 + n :: f(k, j, i) == g(k, j, i + 1) - g(k, j, i)
    ensures RowSum(f, k, j, i0, n) == g(k, j, i0 + n) - g(k, j, i0)
  {
    if n > 0 {
      RowTelescopes(g, f, k, j, i0, n - 1);
      assert f(k, j, i0 + n - 1) == g(k, j, i0 + n - 1 + 1) - g(k, j, i0 + n - 1);
    }
  }

  lemma {:induction false} RowDifference(g: Scalar, f: Scalar, dk: int, dj: int, k: int, j: int, i0: int, n: nat)
    requires forall i {:trigger f(k, j, i)} | i0 <= i < i0 + n :: f(k, j, i) == g(k + dk, j + dj, i) - g(k, j, i)
    ensures RowSum(f, k, j, i0, n) == RowSum(g, k + dk, j + dj, i0, n) - RowSum(g, k, j, i0, n)
  {
    if n > 0 {
      RowDifference(g, f, dk, dj, k, j, i0, n - 1);
      assert f(k, j, i0 + n - 1) == g(k + dk, j + dj, i0 + n - 1) - g(k, j, i0 + n - 1);
    }
  }

  lemma {:induction false} PlaneTelescopes(g: Scalar, f: Scalar, k: int, j0: int, n: nat, i0: int, ni: nat)
    requires forall j, i {:trigger f(k, j, i)} | j0 <= j < j0 + n && i0 <= i < i0 + ni ::
             f(k, j, i) == g(k, j + 1, i) - g(k, j, i)
    ensures PlaneSum(f, k, j0, n, i0, ni) == RowSum(g, k, j0 + n, i0, ni) - RowSum(g, k, j0, i0, ni)
  {
    if n > 0 {
      PlaneTelescopes(g, f, k, j0, n - 1, i0, ni);
      RowDifference(g, f, 0, 1, k, j0 + n - 1, i0, ni);
    }
  }

  lemma {:induction false} PlaneDifference(g: Scalar, f: Scalar, k: int, j0: int, n: nat, i0: int, ni: nat)
    requires forall j, i {:trigger f(k, j, i)} | j0 <= j < j0 + n && i0 <= i < i0 + ni ::
             f(k, j, i) == g(k + 1, j, i) - g(k, j, i)
    ensures PlaneSum(f, k, j0, n, i0, ni) == PlaneSum(g, k + 1, j0, n, i0, ni) - PlaneSum(g, k, j0, n, i0, ni)
  {
    if n > 0 {
      PlaneDifference(g, f, k, j0, n - 1, i0, ni);
      RowDifference(g, f, 1, 0, k, j0 + n - 1, i0, ni);
    }
  }

  lemma {:induction false} BlockTelescopes(g: Scalar, f: Scalar, k0: int, n: nat, j0: int, nj: nat, i0: int, ni: nat)
    requires forall k, j, i {:trigger f(k, j, i)} | k0 <= k < k0 + n && j0 <= j < j0 + nj && i0 <= i < i0 + ni ::
               f(k, j, i) == g(k + 1, j, i) - g(k, j, i)
    ensures BlockSum(f, k0, n, j0, nj, i0, ni) == PlaneSum(g, k0 + n, j0, nj, i0, ni) - PlaneSum(g, k0, j0, nj, i0, ni)
  {
    if n > 0 {
      BlockTelescopes(g, f, k0, n - 1, j0, nj, i0, ni);
      PlaneDifference(g, f, k0 + n - 1, j0, nj, i0, ni);
    }
  }

  lemma {:induction false} RowSame(f: Scalar, g: Scalar, k: int, k': int, j: int, j': int, i0: int, n: nat)
    requires forall i {:trigger f(k, j, i)} | i0 <= i < i0 + n :: f(k, j, i) == g(k', j', i)
    ensures RowSum(f, k, j, i0, n) == RowSum(g, k', j', i0, n)
  {
    if n > 0 {
      RowSame(f, g, k, k', j, j', i0, n - 1);
      assert f(k, j, i0 + n - 1) == g(k', j', i0 + n - 1);
    }
  }

  lemma {:induction false} PlaneSame(f: Scalar, g: Scalar, k: int, k': int, j0: int, n: nat, i0: int, ni: nat)
    requires forall j, i {:trigger f(k, j, i)} | j0 <= j < j0 + n && i0 <= i < i0 + ni :: f(k, j, i) == g(k', j, i)
    ensures PlaneSum(f, k, j0, n, i0, ni) == PlaneSum(g, k', j0, n, i0, ni)
  {
    if n > 0 {
      PlaneSame(f, g, k, k', j0, n - 1, i0, ni);
      RowSame(f, g, k, k', j0 + n - 1, j0 + n - 1, i0, ni);
    }
  }

  lemma {:induction false} EmptyRows(f: Scalar, k: int, j0: int, n: nat, i0: int, ni: nat)
    requires forall j {:trigger RowSum(f, k, j, i0, ni)} | j0 <= j < j0 + n :: RowSum(f, k, j, i0, ni) == 0.0
    ensures PlaneSum(f, k, j0, n, i0, ni) == 0.0
  {
    if n > 0 {
      EmptyRows(f, k, j0, n - 1, i0, ni);
      assert RowSum(f, k, j0 + n - 1, i0, ni) == 0.0;
    }
  }

  lemma {:induction false} EmptyPlanes(f: Scalar, k0: int, n: nat, j0: int, nj: nat, i0: int, ni: nat)
    requires forall k {:trigger PlaneSum(f, k, j0, nj, i0, ni)} | k0 <= k < k0 + n ::
             PlaneSum(f, k, j0, nj, i0, ni) == 0.0
    ensures BlockSum(f, k0, n, j0, nj, i0, ni) == 0.0
  {
    if n > 0 {
      EmptyPlanes(f, k0, n - 1, j0, nj, i0, ni);
      assert PlaneSum(f, k0 + n - 1, j0, nj, i0, ni) == 0.0;
    }
  }

  /** `g` along direction `d` ends as it begins. */
  ghost predicate Closed(m: Mesh, g: Scalar, d: int) {
    if d == 1 then
      forall k, j {:trigger g(k, j, m.Is())} | m.Ks() <= k <= m.Ke() && m.Js() <= j <= m.Je() ::
          g(k, j, m.Ie() + 1) == g(k, j, m.Is())
    else if d == 2 then
      forall k, i {:trigger g(k, m.Js(), i)} | m.Ks() <= k <= m.Ke() && m.Is() <= i <= m.Ie() ::
          g(k, m.Je() + 1, i) == g(k, m.Js(), i)
    else
      forall j, i {:trigger g(m.Ke() + 1, j, i)} | m.Js() <= j <= m.Je() && m.Is() <= i <= m.Ie() ::
          g(m.Ke() + 1, j, i) == g(m.Ks(), j, i)
  }

  /** `f` is the difference of `g` across each interior zone in direction `d`. */
  ghost predicate Differences(m: Mesh, f: Scalar, g: Scalar, d: int) {
    forall k, j, i {:trigger f(k, j, i)} | m.Interior(k, j, i) ::
      f(k, j, i) == g(if d == 3 then k + 1 else k, if d == 2 then j + 1 else j, if d == 1 then i + 1 else i)
          - g(k, j, i)
  }

  /** Differences of a closed quantity total nothing. */
  lemma TotalTelescopes(m: Mesh, f: Scalar, g: Scalar, d: int)
    requires m.Ok() && 1 <= d <= 3 && Differences(m, f, g, d) && Closed(m, g, d)
    ensures Total(m, f) == 0.0
  {
    if d == 1 { TotalTelescopes1(m, f, g); } else if d == 2 { TotalTelescopes2(m, f, g); } else {
        TotalTelescopes3(m, f, g); }
  }

  lemma TotalTelescopes1(m: Mesh, f: Scalar, g: Scalar)
    requires m.Ok() && Differences(m, f, g, 1) && Closed(m, g, 1)
    ensures Total(m, f) == 0.0
  {
    forall k | m.Ks() <= k < m.Ks() + m.n3 ensures PlaneSum(f, k, m.Js(), m.n2, m.Is(), m.n1) == 0.0 {
      forall j | m.Js() <= j < m.Js() + m.n2 ensures RowSum(f, k, j, m.Is(), m.n1) == 0.0 {
        RowTelescopes(g, f, k, j, m.Is(), m.n1);
        assert g(k, j, m.Ie() + 1) == g(k, j, m.Is());
      }
      EmptyRows(f, k, m.Js(), m.n2, m.Is(), m.n1);
    }
    EmptyPlanes(f, m.Ks(), m.n3, m.Js(), m.n2, m.Is(), m.n1);
  }

  lemma TotalTelescopes2(m: Mesh, f: Scalar, g: Scalar)
    requires m.Ok() && Differences(m, f, g, 2) && Closed(m, g, 2)
    ensures Total(m, f) == 0.0
  {
    forall k | m.Ks() <= k < m.Ks() + m.n3 ensures PlaneSum(f, k, m.Js(), m.n2, m.Is(), m.n1) == 0.0 {
      PlaneTelescopes(g, f, k, m.Js(), m.n2, m.Is(), m.n1);
      RowSame(g, g, k, k, m.Js(), m.Js() + m.n2, m.Is(), m.n1);
    }
    EmptyPlanes(f, m.Ks(), m.n3, m.Js(), m.n2, m.Is(), m.n1);
  }

  lemma TotalTelescopes3(m: Mesh, f: Scalar, g: Scalar)
    requires m.Ok() && Differences(m, f, g, 3) && Closed(m, g, 3)
    ensures Total(m, f) == 0.0
  {
    BlockTelescopes(g, f, m.Ks(), m.n3, m.Js(), m.n2, m.Is(), m.n1);
    var top := m.Ks() + m.n3;
    forall j, i | m.Js() <= j < m.Js() + m.n2 && m.Is() <= i < m.Is() + m.n1 ensures g(top, j, i) == g(m.Ks(), j, i) {
      assert g(m.Ke() + 1, j, i) == g(m.Ks(), j, i);
    }
    PlaneSame(g, g, top, m.Ks(), m.Js(), m.n2, m.Is(), m.n1);
  }

  /** Two quantities that differ by closed differences have the same total: summation by parts. */
  lemma ByParts(m: Mesh, h: Scalar, h': Scalar, f1: Scalar, f2: Scalar, f3: Scalar, g1: Scalar, g2: Scalar, g3: Scalar)
    requires m.Ok() && Differences(m, f1, g1, 1) && Differences(m, f2, g2, 2) && Differences(m, f3, g3, 3)
    requires Closed(m, g1, 1) && Closed(m, g2, 2) && Closed(m, g3, 3)
    requires forall k, j, i {:trigger h(k, j, i)} | m.Interior(k, j, i) ::
             h(k, j, i) == h'(k, j, i) + f1(k, j, i) + f2(k, j, i) + f3(k, j, i)
    ensures Total(m, h) == Total(m, h')
  {
    hide Differences, Closed, Total;
    var s1: Scalar := (k, j, i) => h'(k, j, i) + f1(k, j, i);
    var s2: Scalar := (k, j, i) => s1(k, j, i) + f2(k, j, i);
    AddsUp(m, h', f1, s1);
    AddsUp(m, s1, f2, s2);
    AddsUp(m, s2, f3, h);
    TotalTelescopes(m, f1, g1, 1);
    TotalTelescopes(m, f2, g2, 2);
    TotalTelescopes(m, f3, g3, 3);
  }

  lemma AddsUp(m: Mesh, f: Scalar, g: Scalar, h: Scalar)
    requires m.Ok() && forall k, j, i {:trigger h(k, j, i)} | m.Interior(k, j, i) ::
             h(k, j, i) == f(k, j, i) + g(k, j, i)
    ensures Total(m, h) == Total(m, f) + Total(m, g)
  {
    hide Total;
    TotalCombines(m, f, g, h, 1.0, 1.0);
  }
}
