/** The parity of a permutation by walking its cycles (matrix.hpp), against the number of its
    inversions, and the completely antisymmetric symbol. */
module Parity {

  ghost predicate IsPermutation(s: seq<int>) {
    && (forall i | 0 <= i < |s| :: 0 <= s[i] < |s|)
    && (forall i, j | 0 <= i < j < |s| :: s[i] != s[j])
  }

  /** How many elements of `s` exceed `x`. */
  function Above(s: seq<int>, x: int): nat {
    if s == [] then 0 else Above(s[..|s| - 1], x) + if s[|s| - 1] > x then 1 else 0
  }

  /** Pairs out of order. */
  function Inversions(s: seq<int>): nat {
    if s == [] then 0 else Inversions(s[..|s| - 1]) + Above(s[..|s| - 1], s[|s| - 1])
  }

  function Sign(s: seq<int>): int { if Inversions(s) % 2 == 0 then 1 else -1 }

  function Swap(s: seq<int>, a: int, b: int): (t: seq<int>)
    requires 0 <= a < |s| && 0 <= b < |s|
    ensures |t| == |s|
  {
    s[a := s[b]][b := s[a]]
  }

  // -- An exchange changes the sign

  lemma {:induction false} AboveSwap(s: seq<int>, k: int, x: int)
    requires 0 <= k < |s| - 1
    ensures Above(Swap(s, k, k + 1), x) == Above(s, x)
  {
    var n, t := |s| - 1, Swap(s, k, k + 1);
    if k + 1 < n {
      AboveSwap(s[..n], k, x);
      assert t[..n] == Swap(s[..n], k, k + 1);
    } else {
      assert t[..n][..n - 1] == s[..n][..n - 1];
    }
  }

  /** Neighbours exchanged: one inversion made or undone. */
  lemma {:induction false} NeighboursFlip(s: seq<int>, k: int)
    requires 0 <= k < |s| - 1 && s[k] != s[k + 1]
    ensures Sign(Swap(s, k, k + 1)) == -Sign(s)
  {
    hide Above;
    var n, t := |s| - 1, Swap(s, k, k + 1);
    if k + 1 < n {
      NeighboursFlip(s[..n], k);
      AboveSwap(s[..n], k, s[n]);
      assert t[..n] == Swap(s[..n], k, k + 1);
    } else {
      LastPair(s);
      LastPair(t);
      assert s[..n - 1] == t[..n - 1];
    }
  }

  lemma {:induction false} LastPair(s: seq<int>)
    requires |s| >= 2
    ensures var n, r := |s| - 1, s[..|s| - 2];
            Inversions(s) == Inversions(r) + Above(r, s[n - 1]) + Above(r, s[n]) + if s[n - 1] > s[n] then 1 else 0
  {
    var n := |s| - 1;
    assert s[..n][..n - 1] == s[..n - 1];
  }

  /** Any exchange is an odd number of exchanges of neighbours. */
  lemma {:induction false} ExchangeFlips(s: seq<int>, a: int, b: int)
    requires 0 <= a < b < |s| && forall i, j | a <= i < j <= b :: s[i] != s[j]
    ensures Sign(Swap(s, a, b)) == -Sign(s)
    decreases b - a
  {
    hide Sign, Inversions;
    if b == a + 1 {
      NeighboursFlip(s, a);
    } else {
      var t := Swap(s, b - 1, b);
      NeighboursFlip(s, b - 1);
      var u := Swap(t, a, b - 1);
      ExchangeFlips(t, a, b - 1);
      NeighboursFlip(u, b - 1);
      assert Swap(u, b - 1, b) == Swap(s, a, b);
    }
  }

  lemma SwapCommutes(s: seq<int>, a: int, b: int)
    requires 0 <= a < |s| && 0 <= b < |s|
    ensures Swap(s, a, b) == Swap(s, b, a)
  {
  }

  /** The sign of a permutation under an exchange of two positions. */
  lemma SwapFlipsSign(s: seq<int>, a: int, b: int)
    requires IsPermutation(s) && 0 <= a < |s| && 0 <= b < |s| && a != b
    ensures Sign(Swap(s, a, b)) == -Sign(s)
  {
    SwapCommutes(s, a, b);
    ExchangeFlips(s, if a < b then a else b, if a < b then b else a);
  }

  lemma {:induction false} AboveNone(s: seq<int>, x: int)
    requires forall i | 0 <= i < |s| :: s[i] <= x
    ensures Above(s, x) == 0
  {
    if s != [] {
      AboveNone(s[..|s| - 1], x);
    }
  }

  lemma {:induction false} IdentityIsEven(s: seq<int>)
    requires forall i | 0 <= i < |s| :: s[i] == i
    ensures Sign(s) == 1 && Inversions(s) == 0
  {
    if s != [] {
      IdentityIsEven(s[..|s| - 1]);
      AboveNone(s[..|s| - 1], s[|s| - 1]);
    }
  }

  // -- The cycle walk

  /** Marked positions among the first `n`. */
  ghost function Marked(v: seq<bool>, n: nat): nat
    requires n <= |v|
  {
    if n == 0 then 0 else Marked(v, n - 1) + if v[n - 1] then 1 else 0
  }

  lemma {:induction false} MarkOne(v: seq<bool>, x: int, n: nat)
    requires 0 <= x < |v| && n <= |v|
    ensures Marked(v[x := true], n) == Marked(v, n) + if x < n && !v[x] then 1 else 0
  {
    if n > 0 {
      MarkOne(v, x, n - 1);
    }
  }

  lemma {:induction false} MarkedBound(v: seq<bool>, n: nat)
    requires n <= |v|
    ensures Marked(v, n) <= n
    ensures Marked(v, n) == n <==> forall i | 0 <= i < n :: v[i]
  {
    if n > 0 {
      MarkedBound(v, n - 1);
    }
  }

  /** `q` is the permutation `s` with every marked position made a fixed point, except that position
      `j`, whose cycle is being walked, has skipped to `next`. */
  ghost predicate Contracted(s: seq<int>, v: seq<bool>, q: seq<int>, j: int, next: int) {
    && |q| == |v| == |s| && 0 <= j < |s| && IsPermutation(q)
    && (forall i | 0 <= i < |s| && i != j :: q[i] == if v[i] then i else s[i])
    && q[j] == next
  }

  /** One step of the walk: the position skipped becomes a fixed point, and the sign flips. */
  lemma SkipOne(s: seq<int>, v: seq<bool>, q: seq<int>, j: int, x: int)
    requires Contracted(s, v, q, j, x) && x != j
    ensures |q| == |v| == |s| && 0 <= x < |s| && !v[x] && q[x] == s[x]
    ensures Contracted(s, v[x := true], Swap(q, j, x), j, s[x])
    ensures Sign(Swap(q, j, x)) == -Sign(q)
  {
    assert q[x] != q[j];
    SwapFlipsSign(q, j, x);
  }

  /** No cycle is being walked: every marked position is a fixed point of `q`. */
  ghost predicate Settled(s: seq<int>, v: seq<bool>, q: seq<int>) {
    && |q| == |v| == |s| && IsPermutation(q)
    && (forall i | 0 <= i < |s| :: q[i] == if v[i] then i else s[i])
  }

  /** `q` is `swaps` exchanges away from `s`. */
  ghost predicate SignAfter(s: seq<int>, q: seq<int>, swaps: nat) {
    Sign(q) == if swaps % 2 == 0 then Sign(s) else -Sign(s)
  }

  lemma BeginWalk(s: seq<int>, v: seq<bool>, q: seq<int>, j: int)
    requires Settled(s, v, q) && 0 <= j < |s| && !v[j]
    ensures Contracted(s, v, q, j, s[j])
  {
  }

  lemma EndWalk(s: seq<int>, v: seq<bool>, q: seq<int>, j: int)
    requires Contracted(s, v, q, j, j)
    ensures Settled(s, v[j := true], q)
  {
  }

  predicate Keeps(v: seq<bool>, v': seq<bool>) {
    |v| == |v'| && forall i | 0 <= i < |v| && v[i] :: v'[i]
  }

  /** Parity as the source computes it: a position met already marked belongs to a cycle walked from
      an earlier one, and stands for one exchange. */
  method Pp(s: seq<int>) returns (r: int)
    requires IsPermutation(s)
    ensures r == Sign(s)
  {
    hide Marked, Sign, IsPermutation, Contracted;
    var n := |s|;
    var p := 0;
    var v := new bool[n](_ => false);
    ghost var q, swaps := s, 0;
    ghost var walked := 0;
    NoneMarked(v[..], n);
    for j := 0 to n
      invariant forall i | 0 <= i < j :: v[i]
      invariant Settled(s, v[..], q) && SignAfter(s, q, swaps)
      invariant p + walked == j && swaps + walked == Marked(v[..], n)
    {
      if v[j] {
        p := p + 1;
      } else {
        q, swaps := WalkCycle(s, v, j, q, swaps);
        walked := walked + 1;
      }
    }
    MarkedBound(v[..], n);
    IdentityIsEven(q);
    r := if p % 2 == 0 then 1 else -1;
  }

  lemma {:induction false} NoneMarked(v: seq<bool>, n: nat)
    requires n <= |v| && forall i | 0 <= i < n :: !v[i]
    ensures Marked(v, n) == 0
  {
    if n > 0 {
      NoneMarked(v, n - 1);
    }
  }

  /** The inner loop: marks the cycle of `j`, `swaps` exchanges of `q` making all of it fixed points. */
  method WalkCycle(s: seq<int>, v: array<bool>, j: int, ghost q0: seq<int>, ghost swaps0: nat)
    returns (ghost q: seq<int>, ghost swaps: nat)
    requires 0 <= j < |s| && v.Length == |s| && !v[j] && Settled(s, v[..], q0) && SignAfter(s, q0, swaps0)
    requires IsPermutation(s)
    modifies v
    ensures Settled(s, v[..], q) && SignAfter(s, q, swaps)
    ensures Keeps(old(v[..]), v[..]) && v[j]
    ensures swaps + 1 - Marked(v[..], |s|) == swaps0 - old(Marked(v[..], |s|))
  {
    hide Marked, Sign, IsPermutation, Settled, Contracted;
    ghost var was := v[..];
    q, swaps := q0, swaps0;
    BeginWalk(s, v[..], q, j);
    var x := j;
    while true
      invariant 0 <= x < |s| && !v[j] && Contracted(s, v[..], q, j, s[x])
      invariant SignAfter(s, q, swaps) && Keeps(was, v[..])
      invariant swaps - Marked(v[..], |s|) == swaps0 - Marked(was, |s|)
      decreases |s| - Marked(v[..], |s|)
    {
      ghost var v0 := v[..];
      EntryInRange(s, x);
      x := s[x];
      if x != j {
        SkipOne(s, v0, q, j, x);
        OneMoreSwap(s, q, Swap(q, j, x), swaps);
        q, swaps := Swap(q, j, x), swaps + 1;
      } else {
        EndWalk(s, v0, q, j);
      }
      v[x] := true;
      MarkOne(v0, x, |s|);
      MarkedBound(v0[x := true], |s|);
      assert v[..] == v0[x := true];
      if x == j { break; }
    }
  }

  lemma EntryInRange(s: seq<int>, x: int)
    requires IsPermutation(s) && 0 <= x < |s|
    ensures 0 <= s[x] < |s|
  {
  }

  lemma OneMoreSwap(s: seq<int>, q: seq<int>, q': seq<int>, swaps: nat)
    requires SignAfter(s, q, swaps) && Sign(q') == -Sign(q)
    ensures SignAfter(s, q', swaps + 1)
  {
  }

  // -- The antisymmetric symbol

  /** The completely antisymmetric symbol: the sign of a permutation, 0 on a repeated index. */
  ghost function LeviCivita(s: seq<int>): int {
    if IsPermutation(s) then Sign(s) else 0
  }

  /** Exchanging any two indices changes its sign; in particular it vanishes when they are equal. */
  lemma SymbolIsAntisymmetric(s: seq<int>, a: int, b: int)
    requires (forall i | 0 <= i < |s| :: 0 <= s[i] < |s|) && 0 <= a < |s| && 0 <= b < |s| && a != b
    ensures LeviCivita(Swap(s, a, b)) == -LeviCivita(s)
    ensures s[a] == s[b] ==> LeviCivita(s) == 0
    ensures IsPermutation(s) ==> LeviCivita(s) == 1 || LeviCivita(s) == -1
  {
    hide Sign;
    var t := Swap(s, a, b);
    if IsPermutation(s) {
      SwapFlipsSign(s, a, b);
      SignIsUnit(s);
    } else {
      if IsPermutation(t) { SwapKeepsDistinct(s, a, b); }
    }
  }

  lemma SignIsUnit(s: seq<int>)
    ensures Sign(s) == 1 || Sign(s) == -1
  {
  }

  lemma SwapKeepsDistinct(s: seq<int>, a: int, b: int)
    requires 0 <= a < |s| && 0 <= b < |s| && IsPermutation(Swap(s, a, b))
    ensures IsPermutation(s)
  {
    var t := Swap(s, a, b);
    assert s == Swap(t, a, b);
  }

  /** Positions that are not fixed points, among the first `n`. */
  ghost function Moved(s: seq<int>, n: nat): nat
    requires n <= |s|
  {
    if n == 0 then 0 else Moved(s, n - 1) + if s[n - 1] != n - 1 then 1 else 0
  }

  ghost predicate Alternating(f: seq<int> -> int, n: nat) {
    forall s, a, b | |s| == n && IsPermutation(s) && 0 <= a < n && 0 <= b < n && a != b :: f(Swap(s, a, b)) == -f(s)
  }

  lemma {:induction false} MovedLess(s: seq<int>, t: seq<int>, y: int, n: nat)
    requires n <= |s| == |t| && 0 <= y < |s| && s[y] != y && t[y] == y
    requires forall i | 0 <= i < |s| && s[i] == i :: t[i] == i
    ensures Moved(t, n) <= Moved(s, n) && (y < n ==> Moved(t, n) < Moved(s, n))
  {
    if n > 0 {
      MovedLess(s, t, y, n - 1);
    }
  }

  /** The symbol is the only function of permutations that changes sign under every exchange and is 1
      on the identity. */
  lemma {:induction false} OnlyAlternatingFunction(f: seq<int> -> int, s: seq<int>)
    requires IsPermutation(s) && Alternating(f, |s|)
    requires f(seq(|s|, i => i)) == 1
    ensures f(s) == LeviCivita(s)
    decreases Moved(s, |s|)
  {
    hide Sign;
    if forall i | 0 <= i < |s| :: s[i] == i {
      assert s == seq(|s|, i => i);
      IdentityIsEven(s);
    } else {
      var j :| 0 <= j < |s| && s[j] != j;
      var y := s[j];
      var t := Swap(s, j, y);
      assert s[y] != y;
      MovedLess(s, t, y, |s|);
      SwapFlipsSign(s, j, y);
      assert f(Swap(s, j, y)) == -f(s);
      OnlyAlternatingFunction(f, t);
    }
  }

  /** antisym with four indices, for indices that are positions. */
  method Antisym4(a: int, b: int, c: int, d: int) returns (r: int)
    requires 0 <= a < 4 && 0 <= b < 4 && 0 <= c < 4 && 0 <= d < 4
    ensures r == LeviCivita([a, b, c, d])
  {
    ghost var s := [a, b, c, d];
    if a == b { assert s[0] == s[1]; return 0; }
    if a == c { assert s[0] == s[2]; return 0; }
    if a == d { assert s[0] == s[3]; return 0; }
    if b == c { assert s[1] == s[2]; return 0; }
    if b == d { assert s[1] == s[3]; return 0; }
    if c == d { assert s[2] == s[3]; return 0; }
    r := Pp([a, b, c, d]);
  }

  method Antisym3(a: int, b: int, c: int) returns (r: int)
    requires 0 <= a < 3 && 0 <= b < 3 && 0 <= c < 3
    ensures r == LeviCivita([a, b, c])
  {
    ghost var s := [a, b, c];
    if a == b { assert s[0] == s[1]; return 0; }
    if a == c { assert s[0] == s[2]; return 0; }
    if b == c { assert s[1] == s[2]; return 0; }
    r := Pp([a, b, c]);
  }
}
