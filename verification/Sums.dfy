/** Finite sums over consecutive integers. */
module Sums {

  /** f(lo) + ... + f(lo + n - 1) */
  function Sum(f: int -> real, lo: int, n: nat): real {
    if n == 0 then 0.0 else Sum(f, lo, n - 1) + f(lo + n - 1)
  }

  lemma SumOne(f: int -> real, lo: int)
    ensures Sum(f, lo, 1) == f(lo)
  {
  }

  lemma {:induction false} SumSame(f: int -> real, g: int -> real, lo: int, n: nat)
    requires forall x :: lo <= x < lo + n ==> f(x) == g(x)
    ensures Sum(f, lo, n) == Sum(g, lo, n)
  {
    if n > 0 {
      SumSame(f, g, lo, n - 1);
      assert f(lo + n - 1) == g(lo + n - 1);
    }
  }

  function Combination(u: real, p: real, v: real, q: real): real { u * p + v * q }

  lemma {:induction false} SumCombine(f: int -> real, g: int -> real, h: int -> real, u: real, v: real, lo: int, n: nat)
    requires forall x :: lo <= x < lo + n ==> h(x) == Combination(u, f(x), v, g(x))
    ensures Sum(h, lo, n) == Combination(u, Sum(f, lo, n), v, Sum(g, lo, n))
  {
    if n == 0 {
      return;
    }
    hide Combination;
    SumCombine(f, g, h, u, v, lo, n - 1);
    var last := lo + n - 1;
    assert h(last) == Combination(u, f(last), v, g(last));
    Combine(u, Sum(f, lo, n - 1), f(last), v, Sum(g, lo, n - 1), g(last));
  }

  lemma Combine(u: real, p: real, q: real, v: real, r: real, s: real)
    ensures Combination(u, p, v, r) + Combination(u, q, v, s) == Combination(u, p + q, v, r + s)
  {
  }

  lemma {:induction false} SumConst(f: int -> real, c: real, lo: int, n: nat)
    requires forall x :: lo <= x < lo + n ==> f(x) == c
    ensures Sum(f, lo, n) == n as real * c
  {
    if n > 0 {
      SumConst(f, c, lo, n - 1);
      assert f(lo + n - 1) == c;
      assert n as real * c == (n - 1) as real * c + c;
    }
  }

  lemma {:induction false} SumSplit(f: int -> real, lo: int, n: nat, p: nat)
    ensures Sum(f, lo, n + p) == Sum(f, lo, n) + Sum(f, lo + n, p)
  {
    if p > 0 {
      SumSplit(f, lo, n, p - 1);
      assert lo + (n + p) - 1 == lo + n + p - 1;
    }
  }

  lemma {:induction false} SumTelescopes(f: int -> real, d: int -> real, lo: int, n: nat)
    requires forall x :: lo <= x < lo + n ==> d(x) == f(x + 1) - f(x)
    ensures Sum(d, lo, n) == f(lo + n) - f(lo)
  {
    if n > 0 {
      SumTelescopes(f, d, lo, n - 1);
      assert d(lo + n - 1) == f(lo + n - 1 + 1) - f(lo + n - 1);
    }
  }
}
