/** The bisection that inverts a coordinate map (ROOT_FIND and ROOT_FIND_1). */
module RootFind {

  const TOLERANCE: real := 0.000000001
  const LIMIT: nat := 1000

  function Abs(x: real): real { if x < 0.0 then -x else x }

  function Pow2(n: nat): (r: real)
    ensures r >= 1.0
  {
    if n == 0 then 1.0 else 2.0 * Pow2(n - 1)
  }

  function Product(p: real, q: real): real { p * q }

  /** The map moves by at most `lip` per unit on the interval. */
  ghost predicate Lipschitz(f: real -> real, a: real, b: real, lip: real) {
    lip >= 0.0 && forall x, y :: a <= x <= y <= b ==> Abs(f(y) - f(x)) <= Product(lip, y - x)
  }

  /** The two values are on opposite sides of the target. */
  predicate Opposite(p: real, q: real, target: real) {
    (p < target < q) || (q < target < p)
  }

  predicate SameSide(p: real, q: real, target: real) {
    (p < target && q < target) || (p > target && q > target)
  }

  predicate Near(v: real, target: real) { Abs(v - target) < TOLERANCE }

  /** `n` halvings of an interval this wide make its image narrower than the tolerance. */
  predicate Halvings(lip: real, width: real, n: nat) {
    Product(lip, width) < Product(TOLERANCE, Pow2(n))
  }

  /** The test of the loop, for two values away from the target. */
  lemma SignTest(p: real, q: real, target: real)
    requires !Near(p, target) && !Near(q, target)
    ensures Product(p - target, q - target) < 0.0 <==> Opposite(p, q, target)
    ensures !(Product(p - target, q - target) < 0.0) <==> SameSide(p, q, target)
  {
  }

  /** A midpoint whose interval brackets the target is as near it as half the image of the interval. */
  lemma MidpointIsNear(f: real -> real, a: real, b: real, c: real, target: real, lip: real)
    requires a <= b && c == 0.5 * (a + b) && Lipschitz(f, a, b, lip) && Opposite(f(a), f(b), target)
    ensures Abs(f(c) - target) <= 0.5 * Product(lip, b - a)
  {
    Halve(lip, a, b, c);
    hide Product;
    assert Abs(f(c) - f(a)) <= Product(lip, c - a) && Abs(f(b) - f(c)) <= Product(lip, b - c);
  }

  lemma Halve(lip: real, a: real, b: real, c: real)
    requires c == 0.5 * (a + b)
    ensures Product(lip, c - a) == 0.5 * Product(lip, b - a) == Product(lip, b - c)
    ensures forall p {:trigger Product(b - a, p)} ::
            Product(b - c, 2.0 * p) == Product(b - a, p) == Product(c - a, 2.0 * p)
  {
  }

  /** Once the image of the interval is narrow enough the loop must stop. */
  lemma NarrowEnough(lip: real, width: real, n: nat, i: nat, w: real)
    requires Halvings(lip, width, n) && i + 1 >= n && Product(w, Pow2(i)) == width
    ensures 0.5 * Product(lip, w) < TOLERANCE
  {
    GrowsWith(n, i + 1);
    assert Pow2(i + 1) == 2.0 * Pow2(i);
    Cancel(lip, w, Pow2(i), width, TOLERANCE, Pow2(n));
  }

  lemma Cancel(lip: real, w: real, p: real, width: real, tol: real, q: real)
    requires p > 0.0 && tol > 0.0 && w * p == width && q <= 2.0 * p && lip * width < tol * q
    ensures lip * w < 2.0 * tol
  {
  }

  lemma {:induction false} GrowsWith(n: nat, k: nat)
    requires n <= k
    ensures Pow2(n) <= Pow2(k)
    decreases k
  {
    if n < k { GrowsWith(n, k - 1); }
  }

  /** The interval brackets the target, and its upper end is on the side the first one was. */
  ghost predicate Brackets(f: real -> real, a: real, b: real, target: real, fb: real, lip: real) {
    Lipschitz(f, a, b, lip) && Opposite(f(a), f(b), target) && SameSide(f(b), fb, target)
  }

  /** The half the loop keeps brackets the target, though it compares with the first upper value. */
  lemma KeepsBracket(f: real -> real, a: real, b: real, c: real, target: real, fb: real, lip: real)
    requires a <= c <= b && Brackets(f, a, b, target, fb, lip)
    ensures Opposite(f(c), fb, target) ==> Brackets(f, c, b, target, fb, lip)
    ensures SameSide(f(c), fb, target) ==> Brackets(f, a, c, target, fb, lip)
  {
  }

  /** The loop with its early exits.  The value at the upper end is computed once and never refreshed;
      its side of the target is all that is used of it. */
  method Bisect(f: real -> real, a0: real, b0: real, target: real, ghost lip: real, ghost n: nat)
    returns (x: real, steps: nat)
    requires a0 <= b0
    ensures a0 <= x <= b0 && steps <= LIMIT
    ensures steps < LIMIT ==> Near(f(x), target)
    ensures Lipschitz(f, a0, b0, lip) && Opposite(f(a0), f(b0), target) && n <= LIMIT && Halvings(lip, b0 - a0, n)
            ==> Near(f(x), target) && steps <= (if n == 0 then 1 else n)
  {
    hide Product, Lipschitz, Opposite, SameSide, Brackets, Halvings;
    var a, b := a0, b0;
    var fa, fb := f(a), f(b);
    if Near(fa, target) { return a, 0; }
    if Near(fb, target) { return b, 0; }
    ghost var sound := Lipschitz(f, a0, b0, lip) && Opposite(f(a0), f(b0), target) && n <= LIMIT
        && Halvings(lip, b0 - a0, n);
    if sound { FirstBracket(f, a, b, target, lip); }
    FirstWidth(b - a);
    x, steps := a, 0;
    var i := 0;
    while i < LIMIT
      invariant 0 <= i <= LIMIT && steps == i && a0 <= a <= b <= b0 && a0 <= x <= b0
      invariant Product(b - a, Pow2(i)) == b0 - a0
      invariant sound ==> Brackets(f, a, b, target, fb, lip) && (i > 0 ==> i < n)
    {
      var c := 0.5 * (a + b);
      var fc := f(c);
      x, steps := c, i + 1;
      if Near(fc, target) { break; }
      if sound { NotYet(f, a, b, c, target, fb, lip, b0 - a0, n, i); }
      SignTest(fc, fb, target);
      Halve(lip, a, b, c);
      assert Product(b - a, Pow2(i)) == b0 - a0;
      if Product(fc - target, fb - target) < 0.0 {
        a := c;
      } else {
        b := c;
      }
      i := i + 1;
    }
  }

  lemma FirstBracket(f: real -> real, a: real, b: real, target: real, lip: real)
    requires Lipschitz(f, a, b, lip) && Opposite(f(a), f(b), target)
    ensures Brackets(f, a, b, target, f(b), lip)
  {
  }

  lemma FirstWidth(w: real)
    ensures Product(w, Pow2(0)) == w
  {
  }

  /** A midpoint not yet near: more halvings are to come, and either half is a bracket in its case. */
  lemma NotYet(f: real -> real, a: real, b: real, c: real, target: real, fb: real, lip: real, width: real, n: nat,
               i: nat)
    requires a <= b && c == 0.5 * (a + b) && Brackets(f, a, b, target, fb, lip) && !Near(f(c), target)
    requires Halvings(lip, width, n) && Product(b - a, Pow2(i)) == width
    ensures i + 1 < n
    ensures Opposite(f(c), fb, target) ==> Brackets(f, c, b, target, fb, lip)
    ensures SameSide(f(c), fb, target) ==> Brackets(f, a, c, target, fb, lip)
  {
    hide Lipschitz, Product, Halvings;
    KeepsBracket(f, a, b, c, target, fb, lip);
    MidpointIsNear(f, a, b, c, target, lip);
    if i + 1 >= n { NarrowEnough(lip, width, n, i, b - a); }
  }

  const HALF_PI: real := 1.5707963267948966

  /** ROOT_FIND: the half of [0, 1] searched overlaps the middle a little. */
  method FindX2(f: real -> real, th: real, ghost lip: real, ghost n: nat) returns (x: real, steps: nat)
    ensures steps < LIMIT ==> Near(f(x), th)
    ensures var a, b := if th < HALF_PI then 0.0 else 0.49999999999999, if th < HALF_PI then 0.50000000000001 else 1.0;
            a <= x <= b && (Lipschitz(f, a, b, lip) && Opposite(f(a), f(b), th) && n <= LIMIT && Halvings(lip, b - a, n)
                            ==> Near(f(x), th) && steps <= (if n == 0 then 1 else n))
  {
    if th < HALF_PI {
      x, steps := Bisect(f, 0.0, 0.50000000000001, th, lip, n);
    } else {
      x, steps := Bisect(f, 0.49999999999999, 1.0, th, lip, n);
    }
  }

  /** ROOT_FIND_1. */
  method FindX1(f: real -> real, r: real, ghost lip: real, ghost n: nat) returns (x: real, steps: nat)
    ensures 0.0 <= x <= 100.0 && (steps < LIMIT ==> Near(f(x), r))
    ensures Lipschitz(f, 0.0, 100.0, lip) && Opposite(f(0.0), f(100.0), r) && n <= LIMIT && Halvings(lip, 100.0, n)
            ==> Near(f(x), r) && steps <= (if n == 0 then 1 else n)
  {
    x, steps := Bisect(f, 0.0, 100.0, r, lip, n);
  }
}
