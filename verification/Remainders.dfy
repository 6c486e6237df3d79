/** Division with remainder by a variable divisor. */
module Remainders {

  lemma DivMod(x: int, h: int)
    requires h > 0
    ensures x == (x / h) * h + x % h && 0 <= x % h < h
  {
  }

  lemma AtLeastOnce(d: int, h: int)
    requires h > 0 && d >= 1
    ensures d * h >= h
  {
  }

  lemma DistributeLess(a: int, b: int, h: int)
    ensures (a - b) * h == a * h - b * h
  {
  }

  /** Quotient and remainder are determined by their defining equation. */
  lemma RemainderIs(x: int, h: int, q: int, r: int)
    requires h > 0 && x == q * h + r && 0 <= r < h
    ensures x % h == r && x / h == q
  {
    var q' := x / h;
    DivMod(x, h);
    DistributeLess(q, q', h);
    DistributeLess(q', q, h);
    if q > q' { AtLeastOnce(q - q', h); } else if q < q' { AtLeastOnce(q' - q, h); }
  }

  lemma HalfDivides(x: int, h: int)
    requires h > 0 && x % (2 * h) == 0
    ensures x % h == 0
  {
    var q := x / (2 * h);
    DivMod(x, 2 * h);
    assert q * (2 * h) == (2 * q) * h;
    RemainderIs(x, h, 2 * q, 0);
  }

  /** Position `a` of a line of `n` points cut in cells of `2 * h`: its cell lies on the line, the
      next position is the next of the cell or the first of another, and the cell splits in two. */
  lemma CellOf(a: int, n: int, h: int)
    requires h > 0 && 0 <= a < n && n % (2 * h) == 0
    ensures var t := a % (2 * h);
            && 0 <= t < 2 * h && 0 <= a - t && a - t + 2 * h <= n
            && (a + 1) % (2 * h) == (if t + 1 < 2 * h then t + 1 else 0)
            && a % h == (if t < h then t else t - h)
  {
    CellOnLine(a, n, 2 * h);
    NextInCell(a, 2 * h);
    HalfOfCell(a, h);
  }

  lemma CellOnLine(a: int, n: int, len: int)
    requires len > 0 && 0 <= a < n && n % len == 0
    ensures 0 <= a - a % len && a - a % len + len <= n
  {
    var q, c := a / len, n / len;
    DivMod(a, len);
    DivMod(n, len);
    DistributeLess(q, c, len);
    DistributeLess(c, q, len);
    if q < 0 { AtLeastOnce(-q, len); }
    if q > c { AtLeastOnce(q - c, len); } else if q < c { AtLeastOnce(c - q, len); }
  }

  lemma NextInCell(a: int, len: int)
    requires len > 0
    ensures (a + 1) % len == if a % len + 1 < len then a % len + 1 else 0
  {
    var q, t := a / len, a % len;
    DivMod(a, len);
    assert (q + 1) * len == q * len + len;
    if t + 1 < len { RemainderIs(a + 1, len, q, t + 1); } else { RemainderIs(a + 1, len, q + 1, 0); }
  }

  lemma HalfOfCell(a: int, h: int)
    requires h > 0
    ensures a % h == if a % (2 * h) < h then a % (2 * h) else a % (2 * h) - h
  {
    var q, t := a / (2 * h), a % (2 * h);
    DivMod(a, 2 * h);
    assert q * (2 * h) == (2 * q) * h && (2 * q + 1) * h == (2 * q) * h + h;
    if t < h { RemainderIs(a, h, 2 * q, t); } else { RemainderIs(a, h, 2 * q + 1, t - h); }
  }
}
