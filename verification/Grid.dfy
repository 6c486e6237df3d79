/** The mesh block every kernel works on, the scalar and vector fields stored on it, and the
    immutable snapshots of those fields that the specifications talk about. */
module Grid {

  /** A snapshot of one array as a function of (k, j, i), in the order the kernels index. */
  type Scalar = (int, int, int) -> real

  /** Three components: F1, F2, F3 of a face field, or E1, E2, E3 of an edge field. */
  datatype Field = Field(x1: Scalar, x2: Scalar, x3: Scalar)

  /** One block on Parthenon's uniform Cartesian native grid: `ng` ghost zones on each side of
      `n1 x n2 x n3` interior zones, with zone sizes `dx1`, `dx2`, `dx3`.  The third direction
      has a single zone and no ghosts in 2D. */
  datatype Mesh = Mesh(ndim: int, ng: int, n1: int, n2: int, n3: int, dx1: real, dx2: real, dx3: real) {

    predicate Ok() {
      && (ndim == 2 || ndim == 3)
      && ng >= 1 && n1 >= 1 && n2 >= 1 && n3 >= 1
      && (ndim == 2 ==> n3 == 1)
      && dx1 > 0.0 && dx2 > 0.0 && dx3 > 0.0
    }

    // First and last interior zone in each direction.
    function Is(): int { ng }
    function Ie(): int { ng + n1 - 1 }
    function Js(): int { ng }
    function Je(): int { ng + n2 - 1 }
    function Ks(): int { if ndim > 2 then ng else 0 }
    function Ke(): int { Ks() + n3 - 1 }

    // Allocated extents: face and edge arrays hold one entry more than there are zones.
    function M1(): int { n1 + 2 * ng + 1 }
    function M2(): int { n2 + 2 * ng + 1 }
    function M3(): int { if ndim > 2 then n3 + 2 * ng + 1 else 1 }

    // Face areas (`Volume<F1>` and so on) and the zone volume (`Volume<CC>`).
    function A1(): real { dx2 * dx3 }
    function A2(): real { dx1 * dx3 }
    function A3(): real { dx1 * dx2 }
    function Vol(): real { dx1 * dx2 * dx3 }

    predicate InBounds(k: int, j: int, i: int) {
      0 <= k < M3() && 0 <= j < M2() && 0 <= i < M1()
    }

    /** Interior zones. */
    predicate Interior(k: int, j: int, i: int) {
      Ks() <= k <= Ke() && Js() <= j <= Je() && Is() <= i <= Ie()
    }

    /** Faces of direction `d` that bound an interior zone.  In 2D the only X3 face of a zone is
        the one stored with it. */
    function FaceRange(d: int): Box {
      Box(Ks(), Ke() + (if d == 3 && ndim > 2 then 1 else 0),
          Js(), Je() + (if d == 2 then 1 else 0),
          Is(), Ie() + (if d == 1 then 1 else 0))
    }

    /** Every zone of the block, ghosts included, and every face of direction `d` of such a zone. */
    function AllZones(): Box { Box(0, if ndim > 2 then M3() - 2 else 0, 0, M2() - 2, 0, M1() - 2) }
    function AllFaces(d: int): Box {
      Box(0, if ndim > 2 && d != 3 then M3() - 2 else M3() - 1,
          0, if d == 2 then M2() - 1 else M2() - 2,
          0, if d == 1 then M1() - 1 else M1() - 2)
    }

    /** Every allocated index. */
    function All(): Box { Box(0, M3() - 1, 0, M2() - 1, 0, M1() - 1) }

    /** All faces of an interior zone are interior faces, and have storage. */
    lemma FacesOfZone(k: int, j: int, i: int)
      requires Ok() && Interior(k, j, i)
      ensures FaceRange(1).Has(k, j, i) && FaceRange(1).Has(k, j, i + 1)
      ensures FaceRange(2).Has(k, j, i) && FaceRange(2).Has(k, j + 1, i)
      ensures FaceRange(3).Has(k, j, i) && (ndim > 2 ==> FaceRange(3).Has(k + 1, j, i))
      ensures InBounds(k, j, i) && InBounds(k, j, i + 1) && InBounds(k, j + 1, i)
              && (ndim > 2 ==> InBounds(k + 1, j, i))
    {
    }

    lemma AllFacesOfZone(k: int, j: int, i: int)
      requires Ok() && AllZones().Has(k, j, i)
      ensures AllFaces(1).Has(k, j, i) && AllFaces(1).Has(k, j, i + 1)
      ensures AllFaces(2).Has(k, j, i) && AllFaces(2).Has(k, j + 1, i)
      ensures AllFaces(3).Has(k, j, i) && (ndim > 2 ==> AllFaces(3).Has(k + 1, j, i))
    {
    }

    lemma InteriorIsInside(k: int, j: int, i: int)
      requires Ok()
      ensures Interior(k, j, i) ==> AllZones().Has(k, j, i)
      ensures forall d | 1 <= d <= 3 && FaceRange(d).Has(k, j, i) :: AllFaces(d).Has(k, j, i)
    {
    }
  }

  /** An inclusive range of indices in the three directions (IndexRange3). */
  datatype Box = Box(ks: int, ke: int, js: int, je: int, iS: int, iE: int) {
    predicate Has(k: int, j: int, i: int) {
      ks <= k <= ke && js <= j <= je && iS <= i <= iE
    }
  }

  /** Offsets of the three indices, and the one along a direction. */
  datatype Shift = Shift(k: int, j: int, i: int)

  function Unit(d: int): Shift { Shift(if d == 3 then 1 else 0, if d == 2 then 1 else 0, if d == 1 then 1 else 0) }

  /** The array stores `s` wherever the mesh has storage. */
  ghost predicate Stores(m: Mesh, a: array3<real>, s: Scalar)
    reads a
  {
    && a.Length0 == m.M3() && a.Length1 == m.M2() && a.Length2 == m.M1()
    && forall k, j, i ::
         0 <= k < a.Length0 && 0 <= j < a.Length1 && 0 <= i < a.Length2 ==> a[k, j, i] == s(k, j, i)
  }

  lemma SameStored(m: Mesh, a: array3<real>, s: Scalar, t: Scalar)
    requires Stores(m, a, s) && forall k, j, i :: s(k, j, i) == t(k, j, i)
    ensures Stores(m, a, t)
  {
  }

  /** An entry, where there is one. */
  function Peek(a: array3<real>, k: int, j: int, i: int): real
    reads a
  {
    if 0 <= k < a.Length0 && 0 <= j < a.Length1 && 0 <= i < a.Length2 then a[k, j, i] else 0.0
  }

  lemma PeekIs(m: Mesh, a: array3<real>, s: Scalar)
    requires Stores(m, a, s)
    ensures forall k, j, i {:trigger Peek(a, k, j, i)} | m.InBounds(k, j, i) :: Peek(a, k, j, i) == s(k, j, i)
  {
  }

  /** A `par_for` kernel: every point of the range is set to the value of the lambda, all points
      reading the arrays as they were when the kernel started.  `s` is what the array holds before
      and `t` what it holds afterwards. */
  method ParFor(m: Mesh, r: Box, a: array3<real>, f: (int, int, int) ~> real, ghost s: Scalar, ghost t: Scalar)
    requires Stores(m, a, s)
    requires forall k, j, i | r.Has(k, j, i) :: m.InBounds(k, j, i) && f.requires(k, j, i) && f(k, j, i) == t(k, j, i)
    requires forall k, j, i | m.InBounds(k, j, i) && !r.Has(k, j, i) :: s(k, j, i) == t(k, j, i)
    modifies a
    ensures Stores(m, a, t)
  {
    forall k, j, i | r.ks <= k <= r.ke && r.js <= j <= r.je && r.iS <= i <= r.iE && r.Has(k, j, i) {
      a[k, j, i] := f(k, j, i);
    }
  }

  /** `t` on the points of `r` that come before (k0, j0, i0) in loop order, `s` elsewhere. */
  function Upto(r: Box, k0: int, j0: int, i0: int, s: Scalar, t: Scalar): Scalar {
    (k, j, i) =>
      if r.Has(k, j, i) && (k < k0 || (k == k0 && (j < j0 || (j == j0 && i < i0)))) then t(k, j, i) else s(k, j, i)
  }

  /** `t` on `r`, `s` elsewhere. */
  function Within(r: Box, s: Scalar, t: Scalar): Scalar {
    (k, j, i) => if r.Has(k, j, i) then t(k, j, i) else s(k, j, i)
  }

  // Steps of a loop nest over `r` that stores `t` point by point.

  lemma BeginLoops(m: Mesh, a: array3<real>, r: Box, s: Scalar, t: Scalar)
    requires Stores(m, a, s)
    ensures Stores(m, a, Upto(r, r.ks, r.js, r.iS, s, t))
  {
  }

  method StorePoint(m: Mesh, a: array3<real>, r: Box, k: int, j: int, i: int, v: real, ghost s: Scalar, ghost t: Scalar)
    requires m.InBounds(k, j, i) && r.Has(k, j, i) && v == t(k, j, i) && Stores(m, a, Upto(r, k, j, i, s, t))
    modifies a
    ensures Stores(m, a, Upto(r, k, j, i + 1, s, t))
  {
    a[k, j, i] := v;
  }

  lemma EndRow(m: Mesh, a: array3<real>, r: Box, k: int, j: int, s: Scalar, t: Scalar)
    requires Stores(m, a, Upto(r, k, j, r.iE + 1, s, t))
    ensures Stores(m, a, Upto(r, k, j + 1, r.iS, s, t))
  {
    var before, after := Upto(r, k, j, r.iE + 1, s, t), Upto(r, k, j + 1, r.iS, s, t);
    forall k', j', i' ensures before(k', j', i') == after(k', j', i') {
      var inside := r.Has(k', j', i');
    }
    SameStored(m, a, before, after);
  }

  lemma EndPlane(m: Mesh, a: array3<real>, r: Box, k: int, s: Scalar, t: Scalar)
    requires Stores(m, a, Upto(r, k, r.je + 1, r.iS, s, t))
    ensures Stores(m, a, Upto(r, k + 1, r.js, r.iS, s, t))
  {
    var before, after := Upto(r, k, r.je + 1, r.iS, s, t), Upto(r, k + 1, r.js, r.iS, s, t);
    forall k', j', i' ensures before(k', j', i') == after(k', j', i') {
      var inside := r.Has(k', j', i');
    }
    SameStored(m, a, before, after);
  }

  lemma EndLoops(m: Mesh, a: array3<real>, r: Box, s: Scalar, t: Scalar)
    requires Stores(m, a, Upto(r, r.ke + 1, r.js, r.iS, s, t))
    ensures Stores(m, a, Within(r, s, t))
  {
    var before, after := Upto(r, r.ke + 1, r.js, r.iS, s, t), Within(r, s, t);
    forall k', j', i' ensures before(k', j', i') == after(k', j', i') {
      var inside := r.Has(k', j', i');
    }
    SameStored(m, a, before, after);
  }

  /** Storage of a three-component field in one container.  `contents` is the field the arrays
      hold, kept beside them so that specifications can speak of it as a value. */
  class FieldData {
    const m: Mesh
    const x1: array3<real>
    const x2: array3<real>
    const x3: array3<real>
    ghost var contents: Field

    ghost predicate Valid()
      reads this, x1, x2, x3
    {
      && m.Ok()
      && x1 != x2 && x1 != x3 && x2 != x3
      && Stores(m, x1, contents.x1) && Stores(m, x2, contents.x2) && Stores(m, x3, contents.x3)
    }

    /** None of the three arrays is `a`. */
    ghost predicate Apart(a: array3<real>) { a != x1 && a != x2 && a != x3 }

    ghost function Repr(): set<object> { {this, x1, x2, x3} }

    constructor (m: Mesh)
      requires m.Ok()
      ensures Valid() && this.m == m && fresh(Repr())
      ensures contents == Zero()
    {
      this.m := m;
      x1 := new real[m.M3(), m.M2(), m.M1()]((k, j, i) => 0.0);
      x2 := new real[m.M3(), m.M2(), m.M1()]((k, j, i) => 0.0);
      x3 := new real[m.M3(), m.M2(), m.M1()]((k, j, i) => 0.0);
      contents := Zero();
    }
  }

  ghost function Zero(): Field {
    Field((k, j, i) => 0.0, (k, j, i) => 0.0, (k, j, i) => 0.0)
  }

  /** Two containers are the same container or share no storage. */
  ghost predicate Separate(p: FieldData, q: FieldData) {
    p == q || p.Repr() !! q.Repr()
  }
}
