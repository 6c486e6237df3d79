/** The kernels of the cell-centred transport on storage: boundary fixes, the EMF pass, the fluxes
    rewritten in place, and their divergence. */
module FluxKernels {
  import opened Grid
  import opened FaceCT
  import opened BoundaryEMF
  import opened FluxCT
  import opened FluxFix
  import FluxBudget

  /** Flux storage of one block: one container per direction, one array per field component. */
  class FluxData {
    const f1: FieldData
    const f2: FieldData
    const f3: FieldData

    constructor (m: Mesh)
      requires m.Ok()
      ensures Valid() && f1.m == m && fresh(f1.Repr() + f2.Repr() + f3.Repr())
    {
      f1 := new FieldData(m);
      f2 := new FieldData(m);
      f3 := new FieldData(m);
    }

    ghost function Repr(): set<object> { f1.Repr() + f2.Repr() + f3.Repr() }

    ghost predicate Valid()
      reads Repr()
    {
      && f1.Valid() && f2.Valid() && f3.Valid() && f1.m == f2.m == f3.m
      && f1.Repr() !! f2.Repr() && f1.Repr() !! f3.Repr() && f2.Repr() !! f3.Repr()
    }

    ghost function Contents(): Fluxes
      reads Repr()
    {
      Fluxes(f1.contents, f2.contents, f3.contents)
    }
  }

  /** Bflux0 reads one zone further out than the first ghost zone. */
  predicate Roomy(m: Mesh) { m.Ok() && m.ng >= 2 }

  method ZeroSide(m: Mesh, d: int, inner: bool, a: array3<real>, ghost s: Scalar)
    requires m.Ok() && 1 <= d <= 2 && Stores(m, a, s)
    modifies a
    ensures Stores(m, a, Zeroed(m, d, inner, s))
  {
    ghost var t := Zeroed(m, d, inner, s);
    assert forall k, j, i {:trigger t(k, j, i)} :: t(k, j, i) == ZeroAt(m, d, inner, s, k, j, i);
    ParFor(m, SideBox(m, d, FaceIndex(m, d, inner)), a, (k, j, i) => 0.0, s, t);
  }

  method MirrorSide(m: Mesh, d: int, inner: bool, a: array3<real>, ghost s: Scalar)
    requires m.Ok() && 1 <= d <= 2 && Stores(m, a, s)
    modifies a
    ensures Stores(m, a, Mirrored(m, d, inner, s))
  {
    ghost var t := Mirrored(m, d, inner, s);
    var r, c := SideBox(m, d, GhostSide(m, d, inner)), DomainSide(m, d, inner);
    assert forall k, j, i {:trigger t(k, j, i)} :: t(k, j, i) == MirrorAt(m, d, inner, s, k, j, i);
    ParFor(m, r, a,
           (k, j, i) requires r.Has(k, j, i) reads a => if d == 1 then -a[k, j, c] else -a[k, c, i], s, t);
  }

  method MatchSide(m: Mesh, d: int, inner: bool, t: int, a: array3<real>, b: array3<real>, ghost s: Scalar,
                   ghost c: Scalar)
    requires Roomy(m) && 1 <= d <= 2 && 1 <= t <= 3 && t != d && (t == 3 ==> m.ndim > 2) && Stores(m, a, s)
             && Stores(m, b, c)
    modifies a
    ensures Stores(m, a, Matched(m, d, inner, t, s, c))
  {
    ghost var s' := Matched(m, d, inner, t, s, c);
    var r, o, f := SideBox(m, d, GhostSide(m, d, inner)), DomainSide(m, d, inner), FaceIndex(m, d, inner);
    var tk, tj, ti := if t == 3 then 1 else 0, if t == 2 then 1 else 0, if t == 1 then 1 else 0;
    assert forall k, j, i {:trigger s'(k, j, i)} :: s'(k, j, i) == MatchAt(m, d, inner, t, s, c, k, j, i);
    ParFor(m, r, a,
           (k, j, i) requires r.Has(k, j, i) reads a, b =>
             if d == 1 then -a[k, j, o] + b[k, j, f] + b[k - tk, j - tj, f]
             else -a[k, o, i] + b[k, f, i] + b[k - tk, f, i - ti],
           s, s');
  }

  /** The two components along the face, for faces of direction `d`. */
  method ZeroTangential(f: FieldData, d: int, inner: bool)
    requires f.Valid() && 1 <= d <= 2
    modifies f.Repr()
    ensures f.Valid()
    ensures var c := old(f.contents);
            f.contents == if d == 1 then c.(x2 := Zeroed(f.m, 1, inner, c.x2), x3 := Zeroed(f.m, 1, inner, c.x3))
                          else c.(x1 := Zeroed(f.m, 2, inner, c.x1), x3 := Zeroed(f.m, 2, inner, c.x3))
  {
    hide Stores, Zeroed;
    ghost var c := f.contents;
    ZeroSide(f.m, d, inner, if d == 1 then f.x2 else f.x1, if d == 1 then c.x2 else c.x1);
    ZeroSide(f.m, d, inner, f.x3, c.x3);
    f.contents := if d == 1 then c.(x2 := Zeroed(f.m, 1, inner, c.x2), x3 := Zeroed(f.m, 1, inner, c.x3))
                  else c.(x1 := Zeroed(f.m, 2, inner, c.x1), x3 := Zeroed(f.m, 2, inner, c.x3));
  }

  /** The component across the face, of the fluxes along it. */
  method MirrorNormal(f: FieldData, d: int, inner: bool)
    requires f.Valid() && 1 <= d <= 2
    modifies f.Repr()
    ensures f.Valid()
    ensures var c := old(f.contents);
            f.contents == if d == 1 then c.(x1 := Mirrored(f.m, 1, inner, c.x1))
                          else c.(x2 := Mirrored(f.m, 2, inner, c.x2))
  {
    hide Stores, Mirrored;
    ghost var c := f.contents;
    MirrorSide(f.m, d, inner, if d == 1 then f.x1 else f.x2, if d == 1 then c.x1 else c.x2);
    f.contents := if d == 1 then c.(x1 := Mirrored(f.m, 1, inner, c.x1)) else c.(x2 := Mirrored(f.m, 2, inner, c.x2));
  }

  method ZeroBoundaryFlux(q: FluxData, d: int, inner: bool)
    requires q.Valid() && 1 <= d <= 2
    modifies q.Repr()
    ensures q.Valid() && q.Contents() == Fixed(q.f1.m, Fix(d, inner, true), old(q.Contents()))
  {
    hide Stores, Zeroed, Mirrored;
    if d == 1 {
      ZeroTangential(q.f1, 1, inner);
      MirrorNormal(q.f2, 1, inner);
    } else {
      ZeroTangential(q.f2, 2, inner);
      MirrorNormal(q.f1, 2, inner);
    }
    if q.f1.m.ndim > 2 { MirrorNormal(q.f3, d, inner); }
  }

  /** The component across the face, matched to the fluxes `c` through it. */
  method MatchNormal(f: FieldData, d: int, inner: bool, t: int, c: array3<real>, ghost cs: Scalar)
    requires f.Valid() && Roomy(f.m) && 1 <= d <= 2 && 1 <= t <= 3 && t != d && (t == 3 ==> f.m.ndim > 2)
    requires f.Apart(c) && Stores(f.m, c, cs)
    modifies f.Repr()
    ensures f.Valid()
    ensures var s := old(f.contents);
            f.contents == if d == 1 then s.(x1 := Matched(f.m, 1, inner, t, s.x1, cs))
                          else s.(x2 := Matched(f.m, 2, inner, t, s.x2, cs))
  {
    hide Stores, Matched;
    ghost var s := f.contents;
    MatchSide(f.m, d, inner, t, if d == 1 then f.x1 else f.x2, c, if d == 1 then s.x1 else s.x2, cs);
    f.contents := if d == 1 then s.(x1 := Matched(f.m, 1, inner, t, s.x1, cs))
                  else s.(x2 := Matched(f.m, 2, inner, t, s.x2, cs));
  }

  method Bflux0(q: FluxData, d: int, inner: bool)
    requires q.Valid() && Roomy(q.f1.m) && 1 <= d <= 2
    modifies q.Repr()
    ensures q.Valid() && q.Contents() == Fixed(q.f1.m, Fix(d, inner, false), old(q.Contents()))
  {
    hide Stores, Matched;
    if d == 1 {
      MatchNormal(q.f2, 1, inner, 2, q.f1.x2, q.f1.contents.x2);
      if q.f1.m.ndim > 2 { MatchNormal(q.f3, 1, inner, 3, q.f1.x3, q.f1.contents.x3); }
    } else {
      if q.f1.m.ndim > 2 { MatchNormal(q.f3, 2, inner, 3, q.f2.x3, q.f2.contents.x3); }
      MatchNormal(q.f1, 2, inner, 1, q.f2.x1, q.f2.contents.x1);
    }
  }

  /** One EMF component on the edges `b`, from two flux arrays and a step back in each. */
  method EmfKernel(m: Mesh, b: Box, p: array3<real>, pk: int, pj: int, pi: int, r: array3<real>, rk: int, rj: int,
                   ri: int, a: array3<real>,
                   ghost p0: Scalar, ghost r0: Scalar, ghost s: Scalar, ghost t: Scalar)
    requires m.Ok() && Stores(m, p, p0) && Stores(m, r, r0) && Stores(m, a, s) && a != p && a != r
    requires 0 <= pk <= b.ks && 0 <= pj <= b.js && 0 <= pi <= b.iS && 0 <= rk <= b.ks && 0 <= rj <= b.js
             && 0 <= ri <= b.iS
    requires b.ke < m.M3() && b.je < m.M2() && b.iE < m.M1()
    requires forall k, j, i {:trigger t(k, j, i)} ::
             t(k, j, i) == if b.Has(k, j, i)
             then EdgeMean(p0(k, j, i), p0(k - pk, j - pj, i - pi), r0(k, j, i), r0(k - rk, j - rj, i - ri))
             else s(k, j, i)
    modifies a
    ensures Stores(m, a, t)
  {
    forall k, j, i | b.Has(k, j, i)
      ensures EdgeMean(Peek(p, k, j, i), Peek(p, k - pk, j - pj, i - pi), Peek(r, k, j, i),
                       Peek(r, k - rk, j - rj, i - ri)) == t(k, j, i)
    {
      PeekIs(m, p, p0); PeekIs(m, r, r0);
    }
    hide EdgeMean, Peek;
    ParFor(m, b, a,
           (k, j, i) requires b.Has(k, j, i) reads p, r =>
             EdgeMean(Peek(p, k, j, i), Peek(p, k - pk, j - pj, i - pi), Peek(r, k, j, i),
                      Peek(r, k - rk, j - rj, i - ri)),
           s, t);
  }

  method EmfPass(q: FluxData, emf: FieldData)
    requires q.Valid() && emf.Valid() && emf.m == q.f1.m && emf.Repr() !! q.Repr()
    modifies emf.Repr()
    ensures emf.Valid() && emf.contents == EmfOf(emf.m, q.Contents(), old(emf.contents))
  {
    hide EdgeMean, Stores;
    var m, b := emf.m, EdgeBox(emf.m);
    ghost var c, s, t := q.Contents(), emf.contents, EmfOf(emf.m, q.Contents(), emf.contents);
    EmfPointwise(m, c, s);
    if m.ndim > 2 {
      EmfKernel(m, b, q.f2.x3, 1, 0, 0, q.f3.x2, 0, 1, 0, emf.x1, c.f2.x3, c.f3.x2, s.x1, t.x1);
      EmfKernel(m, b, q.f3.x1, 0, 0, 1, q.f1.x3, 1, 0, 0, emf.x2, c.f3.x1, c.f1.x3, s.x2, t.x2);
    } else {
      SameStored(m, emf.x1, s.x1, t.x1);
      SameStored(m, emf.x2, s.x2, t.x2);
    }
    EmfKernel(m, b, q.f1.x2, 0, 1, 0, q.f2.x1, 0, 0, 1, emf.x3, c.f1.x2, c.f2.x1, s.x3, t.x3);
    emf.contents := t;
  }

  lemma EmfPointwise(m: Mesh, q: Fluxes, e: Field)
    ensures var t, b := EmfOf(m, q, e), EdgeBox(m);
            && (forall k, j, i {:trigger t.x1(k, j, i)} ::
                t.x1(k, j, i) == if m.ndim > 2 && b.Has(k, j, i)
                then EdgeMean(q.f2.x3(k, j, i), q.f2.x3(k - 1, j, i), q.f3.x2(k, j, i), q.f3.x2(k, j - 1, i))
                else e.x1(k, j, i))
            && (forall k, j, i {:trigger t.x2(k, j, i)} ::
                t.x2(k, j, i) == if m.ndim > 2 && b.Has(k, j, i)
                then EdgeMean(q.f3.x1(k, j, i), q.f3.x1(k, j, i - 1), q.f1.x3(k, j, i), q.f1.x3(k - 1, j, i))
                else e.x2(k, j, i))
            && (forall k, j, i {:trigger t.x3(k, j, i)} ::
                t.x3(k, j, i) == if b.Has(k, j, i)
                then EdgeMean(q.f1.x2(k, j, i), q.f1.x2(k, j - 1, i), q.f2.x1(k, j, i), q.f2.x1(k, j, i - 1))
                else e.x3(k, j, i))
  {
    hide EdgeMean;
    assert forall k, j, i {:trigger Emf1(q, k, j, i)} ::
           Emf1(q, k, j, i) == EdgeMean(q.f2.x3(k, j, i), q.f2.x3(k - 1, j, i), q.f3.x2(k, j, i), q.f3.x2(k, j - 1, i));
    assert forall k, j, i {:trigger Emf2(q, k, j, i)} ::
           Emf2(q, k, j, i) == EdgeMean(q.f3.x1(k, j, i), q.f3.x1(k, j, i - 1), q.f1.x3(k, j, i), q.f1.x3(k - 1, j, i));
    assert forall k, j, i {:trigger Emf3(q, k, j, i)} ::
           Emf3(q, k, j, i) == EdgeMean(q.f1.x2(k, j, i), q.f1.x2(k, j - 1, i), q.f2.x1(k, j, i), q.f2.x1(k, j, i - 1));
  }

  /** What the kernel below gives one face. */
  function SignedPair(sign: real, e: array3<real>, dk: int, dj: int, di: int, k: int, j: int, i: int): real
    reads e
  {
    sign * Pair(Peek(e, k, j, i), Peek(e, k + dk, j + dj, i + di))
  }

  /** One flux array refilled on the faces `r` from pairs of edges, `sign` times their mean. */
  method RewriteFrom(m: Mesh, r: Box, sign: real, e: array3<real>, dk: int, dj: int, di: int, a: array3<real>,
                     ghost es: Scalar, ghost s: Scalar, ghost t: Scalar)
    requires m.Ok() && Stores(m, e, es) && Stores(m, a, s) && a != e && dk >= 0 && dj >= 0 && di >= 0
    requires m.InBounds(r.ks, r.js, r.iS) && m.InBounds(r.ke, r.je, r.iE) && m.InBounds(r.ke + dk, r.je + dj, r.iE + di)
    requires forall k, j, i {:trigger t(k, j, i)} ::
             t(k, j, i) == if r.Has(k, j, i) then sign * Pair(es(k, j, i), es(k + dk, j + dj, i + di)) else s(k, j, i)
    modifies a
    ensures Stores(m, a, t)
  {
    forall k, j, i | r.Has(k, j, i)
      ensures SignedPair(sign, e, dk, dj, di, k, j, i) == t(k, j, i)
    {
      PeekIs(m, e, es);
    }
    hide Pair, SignedPair;
    ParFor(m, r, a, (k, j, i) requires r.Has(k, j, i) reads e => SignedPair(sign, e, dk, dj, di, k, j, i), s, t);
  }

  method ZeroOn(m: Mesh, r: Box, a: array3<real>, ghost s: Scalar, ghost t: Scalar)
    requires m.Ok() && Stores(m, a, s) && m.InBounds(r.ks, r.js, r.iS) && m.InBounds(r.ke, r.je, r.iE)
    requires forall k, j, i {:trigger t(k, j, i)} :: t(k, j, i) == if r.Has(k, j, i) then 0.0 else s(k, j, i)
    modifies a
    ensures Stores(m, a, t)
  {
    ParFor(m, r, a, (k, j, i) => 0.0, s, t);
  }

  method Rewrite1(m: Mesh, f: FieldData, emf: FieldData, ghost q: Fluxes)
    requires f.Valid() && emf.Valid() && f.m == emf.m == m && f.Repr() !! emf.Repr() && q.f1 == f.contents
    modifies f.Repr()
    ensures f.Valid() && f.contents == Rewritten(m, q, emf.contents).f1
  {
    hide Pair, Stores;
    var r := m.FaceRange(1);
    ghost var e, w := emf.contents, Rewritten(m, q, emf.contents).f1;
    Pointwise1(m, q, e);
    hide Rewritten;
    ZeroOn(m, r, f.x1, q.f1.x1, w.x1);
    RewriteFrom(m, r, 1.0, emf.x3, 0, 1, 0, f.x2, e.x3, q.f1.x2, w.x2);
    if m.ndim > 2 {
      RewriteFrom(m, r, -1.0, emf.x2, 1, 0, 0, f.x3, e.x2, q.f1.x3, w.x3);
    } else {
      SameStored(m, f.x3, q.f1.x3, w.x3);
    }
    f.contents := w;
  }

  lemma Pointwise1(m: Mesh, q: Fluxes, e: Field)
    ensures var w, r := Rewritten(m, q, e).f1, m.FaceRange(1);
            && (forall k, j, i {:trigger w.x1(k, j, i)} ::
                w.x1(k, j, i) == if r.Has(k, j, i) then 0.0 else q.f1.x1(k, j, i))
            && (forall k, j, i {:trigger w.x2(k, j, i)} ::
                w.x2(k, j, i) == if r.Has(k, j, i) then 1.0 * Pair(e.x3(k, j, i), e.x3(k, j + 1, i))
                else q.f1.x2(k, j, i))
            && (forall k, j, i {:trigger w.x3(k, j, i)} ::
                w.x3(k, j, i) == if m.ndim > 2 && r.Has(k, j, i) then -1.0 * Pair(e.x2(k, j, i), e.x2(k + 1, j, i))
                else q.f1.x3(k, j, i))
  {
    hide Pair;
    assert forall k, j, i {:trigger New12(e, k, j, i)} ::
           New12(e, k, j, i) == 1.0 * Pair(e.x3(k, j, i), e.x3(k, j + 1, i));
    assert forall k, j, i {:trigger New13(e, k, j, i)} ::
           New13(e, k, j, i) == -1.0 * Pair(e.x2(k, j, i), e.x2(k + 1, j, i));
  }

  method Rewrite2(m: Mesh, f: FieldData, emf: FieldData, ghost q: Fluxes)
    requires f.Valid() && emf.Valid() && f.m == emf.m == m && f.Repr() !! emf.Repr() && q.f2 == f.contents
    modifies f.Repr()
    ensures f.Valid() && f.contents == Rewritten(m, q, emf.contents).f2
  {
    hide Pair, Stores;
    var r := m.FaceRange(2);
    ghost var e, w := emf.contents, Rewritten(m, q, emf.contents).f2;
    Pointwise2(m, q, e);
    hide Rewritten;
    RewriteFrom(m, r, -1.0, emf.x3, 0, 0, 1, f.x1, e.x3, q.f2.x1, w.x1);
    ZeroOn(m, r, f.x2, q.f2.x2, w.x2);
    if m.ndim > 2 {
      RewriteFrom(m, r, 1.0, emf.x1, 1, 0, 0, f.x3, e.x1, q.f2.x3, w.x3);
    } else {
      SameStored(m, f.x3, q.f2.x3, w.x3);
    }
    f.contents := w;
  }

  lemma Pointwise2(m: Mesh, q: Fluxes, e: Field)
    ensures var w, r := Rewritten(m, q, e).f2, m.FaceRange(2);
            && (forall k, j, i {:trigger w.x1(k, j, i)} ::
                w.x1(k, j, i) == if r.Has(k, j, i) then -1.0 * Pair(e.x3(k, j, i), e.x3(k, j, i + 1))
                else q.f2.x1(k, j, i))
            && (forall k, j, i {:trigger w.x2(k, j, i)} ::
                w.x2(k, j, i) == if r.Has(k, j, i) then 0.0 else q.f2.x2(k, j, i))
            && (forall k, j, i {:trigger w.x3(k, j, i)} ::
                w.x3(k, j, i) == if m.ndim > 2 && r.Has(k, j, i) then 1.0 * Pair(e.x1(k, j, i), e.x1(k + 1, j, i))
                else q.f2.x3(k, j, i))
  {
    hide Pair;
    assert forall k, j, i {:trigger New21(e, k, j, i)} ::
           New21(e, k, j, i) == -1.0 * Pair(e.x3(k, j, i), e.x3(k, j, i + 1));
    assert forall k, j, i {:trigger New23(e, k, j, i)} ::
           New23(e, k, j, i) == 1.0 * Pair(e.x1(k, j, i), e.x1(k + 1, j, i));
  }

  method Rewrite3(m: Mesh, f: FieldData, emf: FieldData, ghost q: Fluxes)
    requires f.Valid() && emf.Valid() && f.m == emf.m == m && f.Repr() !! emf.Repr() && q.f3 == f.contents
    modifies f.Repr()
    ensures f.Valid() && f.contents == Rewritten(m, q, emf.contents).f3
  {
    hide Pair, Stores;
    var r := m.FaceRange(3);
    ghost var e, w := emf.contents, Rewritten(m, q, emf.contents).f3;
    Pointwise3(m, q, e);
    hide Rewritten;
    if m.ndim > 2 {
      RewriteFrom(m, r, 1.0, emf.x2, 0, 0, 1, f.x1, e.x2, q.f3.x1, w.x1);
      RewriteFrom(m, r, -1.0, emf.x1, 0, 1, 0, f.x2, e.x1, q.f3.x2, w.x2);
      ZeroOn(m, r, f.x3, q.f3.x3, w.x3);
    } else {
      SameStored(m, f.x1, q.f3.x1, w.x1);
      SameStored(m, f.x2, q.f3.x2, w.x2);
      SameStored(m, f.x3, q.f3.x3, w.x3);
    }
    f.contents := w;
  }

  lemma Pointwise3(m: Mesh, q: Fluxes, e: Field)
    ensures var w, r := Rewritten(m, q, e).f3, m.FaceRange(3);
            && (forall k, j, i {:trigger w.x1(k, j, i)} ::
                w.x1(k, j, i) == if m.ndim > 2 && r.Has(k, j, i) then 1.0 * Pair(e.x2(k, j, i), e.x2(k, j, i + 1))
                else q.f3.x1(k, j, i))
            && (forall k, j, i {:trigger w.x2(k, j, i)} ::
                w.x2(k, j, i) == if m.ndim > 2 && r.Has(k, j, i) then -1.0 * Pair(e.x1(k, j, i), e.x1(k, j + 1, i))
                else q.f3.x2(k, j, i))
            && (forall k, j, i {:trigger w.x3(k, j, i)} ::
                w.x3(k, j, i) == if m.ndim > 2 && r.Has(k, j, i) then 0.0 else q.f3.x3(k, j, i))
  {
    hide Pair;
    assert forall k, j, i {:trigger New31(e, k, j, i)} ::
           New31(e, k, j, i) == 1.0 * Pair(e.x2(k, j, i), e.x2(k, j, i + 1));
    assert forall k, j, i {:trigger New32(e, k, j, i)} ::
           New32(e, k, j, i) == -1.0 * Pair(e.x1(k, j, i), e.x1(k, j + 1, i));
  }

  /** FluxCT: the EMF pass, then the fluxes of each direction in turn. */
  method RewriteFluxes(q: FluxData, emf: FieldData)
    requires q.Valid() && emf.Valid() && emf.m == q.f1.m && emf.Repr() !! q.Repr()
    modifies q.Repr(), emf.Repr()
    ensures q.Valid() && emf.Valid() && emf.contents == EmfOf(emf.m, old(q.Contents()), old(emf.contents))
    ensures q.Contents() == Rewritten(emf.m, old(q.Contents()), emf.contents)
  {
    hide Stores, Rewritten, EmfOf;
    ghost var q0 := q.Contents();
    EmfPass(q, emf);
    Rewrite1(emf.m, q.f1, emf, q0);
    Rewrite2(emf.m, q.f2, emf, q0);
    Rewrite3(emf.m, q.f3, emf, q0);
  }

  lemma NoFix(m: Mesh, q: Fluxes)
    ensures AllFixed(m, [], q) == q
  {
  }

  lemma OneMoreFix(m: Mesh, done: seq<Fix>, fx: Fix, q: Fluxes)
    ensures AllFixed(m, done + [fx], q) == Fixed(m, fx, AllFixed(m, done, q))
  {
  }

  /** One fix, if needed, after those already `done`. */
  method FixFace(needed: bool, zero: bool, d: int, inner: bool, q: FluxData, ghost done: seq<Fix>, ghost q0: Fluxes)
    returns (ghost now: seq<Fix>)
    requires q.Valid() && Roomy(q.f1.m) && 1 <= d <= 2 && q.Contents() == AllFixed(q.f1.m, done, q0)
    modifies q.Repr()
    ensures q.Valid() && now == done + When(needed, Fix(d, inner, zero)) && q.Contents() == AllFixed(q.f1.m, now, q0)
  {
    hide Stores, Fixed, AllFixed;
    now := done + When(needed, Fix(d, inner, zero));
    if needed {
      if zero { ZeroBoundaryFlux(q, d, inner); } else { Bflux0(q, d, inner); }
      OneMoreFix(q.f1.m, done, Fix(d, inner, zero), q0);
    } else {
      assert now == done;
    }
  }

  method FixBoundaries(p: Plan, q: FluxData)
    requires q.Valid() && Roomy(q.f1.m)
    modifies q.Repr()
    ensures q.Valid() && q.Contents() == AllFixed(q.f1.m, FixesOf(p), old(q.Contents()))
  {
    hide AllFixed, When, FluxData.Valid, FluxData.Contents, FluxData.Repr;
    ghost var q0 := q.Contents();
    NoFix(q.f1.m, q0);
    ghost var done := FixFace(p.polar && p.physical.inner2, true, 2, true, q, [], q0);
    done := FixFace(p.polar && p.physical.outer2, true, 2, false, q, done, q0);
    done := FixFace(p.fix.inner1 && p.physical.inner1, p.oldFix, 1, true, q, done, q0);
    done := FixFace(p.fix.outer1 && p.physical.outer1, p.oldFix, 1, false, q, done, q0);
    done := FixFace(p.fix.inner2 && p.physical.inner2, p.oldFix, 2, true, q, done, q0);
    done := FixFace(p.fix.outer2 && p.physical.outer2, p.oldFix, 2, false, q, done, q0);
  }

  /** FixFlux: the boundary fixes the plan asks for, then FluxCT. */
  method FixFlux(p: Plan, q: FluxData, emf: FieldData)
    requires q.Valid() && emf.Valid() && emf.m == q.f1.m && emf.Repr() !! q.Repr() && Roomy(emf.m)
    modifies q.Repr(), emf.Repr()
    ensures q.Valid() && emf.Valid()
    ensures var q' := AllFixed(emf.m, FixesOf(p), old(q.Contents()));
            q.Contents() == Rewritten(emf.m, q', EmfOf(emf.m, q', old(emf.contents)))
  {
    hide Stores, Rewritten, EmfOf, AllFixed, FixesOf;
    FixBoundaries(p, q);
    RewriteFluxes(q, emf);
  }

  method DivKernel(m: Mesh, p: array3<real>, r: array3<real>, t: array3<real>, a: array3<real>,
                   ghost p0: Scalar, ghost r0: Scalar, ghost t0: Scalar, ghost s: Scalar, ghost s': Scalar)
    requires m.Ok() && Stores(m, p, p0) && Stores(m, r, r0) && Stores(m, t, t0) && Stores(m, a, s) && a != p && a != r
             && a != t
    requires forall k, j, i {:trigger s'(k, j, i)} ::
             s'(k, j, i) == if m.Interior(k, j, i) then DivAt(m, p0, r0, t0, k, j, i) else s(k, j, i)
    modifies a
    ensures Stores(m, a, s')
  {
    hide FluxDiv;
    var b := Box(m.Ks(), m.Ke(), m.Js(), m.Je(), m.Is(), m.Ie());
    ParFor(m, b, a,
           (k, j, i) requires b.Has(k, j, i) reads p, r, t =>
             FluxDiv(m, p[k, j, i + 1], p[k, j, i], r[k, j + 1, i], r[k, j, i], if m.ndim > 2 then t[k + 1, j, i]
                     else 0.0, t[k, j, i]),
           s, s');
  }

  method FluxDivergence(q: FluxData, dudt: FieldData)
    requires q.Valid() && dudt.Valid() && dudt.m == q.f1.m && dudt.Repr() !! q.Repr()
    modifies dudt.Repr()
    ensures dudt.Valid() && dudt.contents == Diverged(dudt.m, q.Contents(), old(dudt.contents))
  {
    hide DivAt, Stores;
    var m := dudt.m;
    ghost var c, s, t := q.Contents(), dudt.contents, Diverged(m, q.Contents(), dudt.contents);
    assert forall k, j, i {:trigger t.x1(k, j, i)} ::
           t.x1(k, j, i) == if m.Interior(k, j, i) then DivAt(m, c.f1.x1, c.f2.x1, c.f3.x1, k, j, i) else s.x1(k, j, i);
    assert forall k, j, i {:trigger t.x2(k, j, i)} ::
           t.x2(k, j, i) == if m.Interior(k, j, i) then DivAt(m, c.f1.x2, c.f2.x2, c.f3.x2, k, j, i) else s.x2(k, j, i);
    assert forall k, j, i {:trigger t.x3(k, j, i)} ::
           t.x3(k, j, i) == if m.Interior(k, j, i) then DivAt(m, c.f1.x3, c.f2.x3, c.f3.x3, k, j, i) else s.x3(k, j, i);
    DivKernel(m, q.f1.x1, q.f2.x1, q.f3.x1, dudt.x1, c.f1.x1, c.f2.x1, c.f3.x1, s.x1, t.x1);
    DivKernel(m, q.f1.x2, q.f2.x2, q.f3.x2, dudt.x2, c.f1.x2, c.f2.x2, c.f3.x2, s.x2, t.x2);
    DivKernel(m, q.f1.x3, q.f2.x3, q.f3.x3, dudt.x3, c.f1.x3, c.f2.x3, c.f3.x3, s.x3, t.x3);
    dudt.contents := t;
  }

  /** One stage on storage: fix and rewrite the fluxes, take their divergence, combine.  The output may
      be either input.  Corner divergence stays zero whatever the incoming fluxes, and every zone changes
      only by what passes its faces that are not fixed. */
  method FluxStage(p: Plan, q: FluxData, emf: FieldData, dudt: FieldData, full: FieldData, sub: FieldData,
                   out: FieldData,
                   gam0: real, gam1: real, bdt: real)
    requires q.Valid() && emf.Valid() && dudt.Valid() && full.Valid() && sub.Valid() && out.Valid() && Roomy(emf.m)
    requires q.f1.m == emf.m && dudt.m == emf.m && full.m == emf.m && sub.m == emf.m && out.m == emf.m
    requires emf.Repr() !! q.Repr() && dudt.Repr() !! q.Repr() && dudt.Repr() !! emf.Repr()
    requires Separate(full, out) && Separate(sub, out)
    requires (full.Repr() + sub.Repr() + out.Repr()) !! (q.Repr() + emf.Repr() + dudt.Repr())
    requires CornerFree(emf.m, full.contents) && CornerFree(emf.m, sub.contents)
    modifies q.Repr(), emf.Repr(), dudt.Repr(), out.Repr()
    ensures q.Valid() && emf.Valid() && dudt.Valid() && out.Valid()
    ensures CornerFree(emf.m, out.contents)
    ensures out.contents == StageUpdate(old(full.contents), old(sub.contents), dudt.contents, gam0, gam1, bdt)
    ensures dudt.contents == Diverged(emf.m, FluxBudget.Passed(emf.m, p, old(q.Contents()), old(emf.contents)),
                                      old(dudt.contents))
    ensures FluxBudget.Budgeted(emf.m, p, FluxBudget.Passed(emf.m, p, old(q.Contents()), old(emf.contents)),
                                dudt.contents)
  {
    hide Stores, CornerFree, Rewritten, EmfOf, AllFixed, FixesOf, Diverged, StageUpdate, FluxBudget.Budgeted;
    ghost var w, e0, d0, x, y :=
      FluxBudget.Passed(emf.m, p, q.Contents(), emf.contents), emf.contents, dudt.contents, full.contents, sub.contents;
    FluxBudget.Balance(emf.m, p, q.Contents(), e0, d0);
    FluxBudget.PassedIsCornerFree(emf.m, p, q.Contents(), e0, d0);
    FixFlux(p, q, emf);
    assert q.Contents() == w;
    hide FluxBudget.Passed;
    FluxDivergence(q, dudt);
    StageKeepsCornerFree(emf.m, x, y, dudt.contents, gam0, gam1, bdt);
    AddStateUpdate(full, sub, dudt, out, gam0, gam1, bdt);
  }

  // The averaged curl over the zones of the block.  Component `c` comes from potentials `p` and `q`.

  function SeedIn1(m: Mesh, p: array3<real>, q: array3<real>, k: int, j: int, i: int): real
    requires m.Ok()
    reads p, q
  {
    if m.ndim > 2 then
      CurlOfMeans(Mean4(Peek(p, k, j + 1, i), Peek(p, k, j + 1, i + 1), Peek(p, k + 1, j + 1, i),
                        Peek(p, k + 1, j + 1, i + 1)),
                  Mean4(Peek(p, k, j, i), Peek(p, k, j, i + 1), Peek(p, k + 1, j, i), Peek(p, k + 1, j, i + 1)), m.dx2,
                  Mean4(Peek(q, k + 1, j, i), Peek(q, k + 1, j, i + 1), Peek(q, k + 1, j + 1, i),
                        Peek(q, k + 1, j + 1, i + 1)),
                  Mean4(Peek(q, k, j, i), Peek(q, k, j, i + 1), Peek(q, k, j + 1, i), Peek(q, k, j + 1, i + 1)), m.dx3)
    else (Mid(Peek(p, k, j + 1, i), Peek(p, k, j + 1, i + 1)) - Mid(Peek(p, k, j, i), Peek(p, k, j, i + 1))) / m.dx2
  }

  function SeedIn2(m: Mesh, p: array3<real>, q: array3<real>, k: int, j: int, i: int): real
    requires m.Ok()
    reads p, q
  {
    if m.ndim > 2 then
      CurlOfMeans(Mean4(Peek(p, k + 1, j, i), Peek(p, k + 1, j, i + 1), Peek(p, k + 1, j + 1, i),
                        Peek(p, k + 1, j + 1, i + 1)),
                  Mean4(Peek(p, k, j, i), Peek(p, k, j, i + 1), Peek(p, k, j + 1, i), Peek(p, k, j + 1, i + 1)), m.dx3,
                  Mean4(Peek(q, k, j, i + 1), Peek(q, k, j + 1, i + 1), Peek(q, k + 1, j, i + 1),
                        Peek(q, k + 1, j + 1, i + 1)),
                  Mean4(Peek(q, k, j, i), Peek(q, k, j + 1, i), Peek(q, k + 1, j, i), Peek(q, k + 1, j + 1, i)), m.dx1)
    else -(Mid(Peek(q, k, j, i + 1), Peek(q, k, j + 1, i + 1)) - Mid(Peek(q, k, j, i), Peek(q, k, j + 1, i))) / m.dx1
  }

  function SeedIn3(m: Mesh, p: array3<real>, q: array3<real>, k: int, j: int, i: int): real
    requires m.Ok()
    reads p, q
  {
    if m.ndim > 2 then
      CurlOfMeans(Mean4(Peek(p, k, j, i + 1), Peek(p, k, j + 1, i + 1), Peek(p, k + 1, j, i + 1),
                        Peek(p, k + 1, j + 1, i + 1)),
                  Mean4(Peek(p, k, j, i), Peek(p, k, j + 1, i), Peek(p, k + 1, j, i), Peek(p, k + 1, j + 1, i)), m.dx1,
                  Mean4(Peek(q, k, j + 1, i), Peek(q, k, j + 1, i + 1), Peek(q, k + 1, j + 1, i),
                        Peek(q, k + 1, j + 1, i + 1)),
                  Mean4(Peek(q, k, j, i), Peek(q, k, j, i + 1), Peek(q, k + 1, j, i), Peek(q, k + 1, j, i + 1)), m.dx2)
    else 0.0
  }

  function SeedIn(m: Mesh, c: int, p: array3<real>, q: array3<real>, k: int, j: int, i: int): real
    requires m.Ok()
    reads p, q
  {
    if c == 1 then SeedIn1(m, p, q, k, j, i) else if c == 2 then SeedIn2(m, p, q, k, j, i)
    else SeedIn3(m, p, q, k, j, i)
  }

  function SeedAt(m: Mesh, c: int, a: Field, k: int, j: int, i: int): real
    requires m.Ok()
  {
    if c == 1 then Seeded1(m, a, k, j, i) else if c == 2 then Seeded2(m, a, k, j, i) else Seeded3(m, a, k, j, i)
  }

  lemma SeedInIs(m: Mesh, c: int, p: array3<real>, q: array3<real>, a: Field, k: int, j: int, i: int)
    requires m.Ok() && 1 <= c <= 3 && m.AllZones().Has(k, j, i)
    requires Stores(m, p, Component(a, if c == 1 then 3 else c - 1))
             && Stores(m, q, Component(a, if c == 3 then 1 else if c == 2 then 3 else 2))
    ensures SeedIn(m, c, p, q, k, j, i) == SeedAt(m, c, a, k, j, i)
  {
    PeekIs(m, p, Component(a, if c == 1 then 3 else c - 1));
    PeekIs(m, q, Component(a, if c == 3 then 1 else if c == 2 then 3 else 2));
    hide Stores, Peek, CurlOfMeans, Mean4, Mid;
  }

  method SeedKernel(m: Mesh, c: int, p: array3<real>, q: array3<real>, u: array3<real>, ghost a: Field, ghost s: Field)
    requires m.Ok() && 1 <= c <= 3 && Stores(m, u, Component(s, c)) && u != p && u != q
    requires Stores(m, p, Component(a, if c == 1 then 3 else c - 1))
             && Stores(m, q, Component(a, if c == 3 then 1 else if c == 2 then 3 else 2))
    modifies u
    ensures Stores(m, u, Component(Seeded(m, a, s), c))
  {
    hide Seeded1, Seeded2, Seeded3, SeedIn1, SeedIn2, SeedIn3;
    var r := m.AllZones();
    ghost var s0, t := Component(s, c), Component(Seeded(m, a, s), c);
    assert forall k, j, i {:trigger t(k, j, i)} ::
           t(k, j, i) == if r.Has(k, j, i) then SeedAt(m, c, a, k, j, i) else s0(k, j, i);
    forall k, j, i | r.Has(k, j, i) ensures SeedIn(m, c, p, q, k, j, i) == t(k, j, i) && m.InBounds(k, j, i) {
      SeedInIs(m, c, p, q, a, k, j, i);
    }
    hide Stores, SeedIn, SeedAt, Seeded;
    ParFor(m, r, u, (k, j, i) requires r.Has(k, j, i) reads p, q => SeedIn(m, c, p, q, k, j, i), s0, t);
  }

  method SeedByAveragedCurl(a: FieldData, u: FieldData)
    requires a.Valid() && u.Valid() && a.m == u.m && a.Repr() !! u.Repr()
    modifies u.Repr()
    ensures u.Valid() && u.contents == Seeded(u.m, a.contents, old(u.contents)) && CornerFree(u.m, u.contents)
  {
    hide Stores, Seeded, CornerFree;
    SeedKernel(u.m, 1, a.x3, a.x2, u.x1, a.contents, u.contents);
    SeedKernel(u.m, 2, a.x1, a.x3, u.x2, a.contents, u.contents);
    SeedKernel(u.m, 3, a.x2, a.x1, u.x3, a.contents, u.contents);
    SeedIsCornerFree(u.m, a.contents, u.contents);
    u.contents := Seeded(u.m, a.contents, u.contents);
  }
}
