/** Refinement of a whole block: the calls of ProlongateInternalOlivares for every direction and every
    refined zone, in any order. */
module Refinement {
  import opened Grid
  import opened FaceCT
  import opened BoundaryEMF
  import opened BoundaryClean
  import opened Prolongation

  /** One call: the direction of the faces and the lower corner of the refined zone. */
  datatype Call = Call(d: int, k: int, j: int, i: int)

  /** Refined zones start at even steps from the first interior zone; a 2D block has one layer. */
  predicate Corner(m: Mesh, k: int, j: int, i: int) {
    && (if m.ndim > 2 then (k - m.Ks()) % 2 == 0 else k == m.Ks()) && (j - m.Js()) % 2 == 0 && (i - m.Is()) % 2 == 0
  }

  predicate CallOk(m: Mesh, c: Call) { 1 <= c.d <= 3 && Corner(m, c.k, c.j, c.i) }

  predicate AllOk(m: Mesh, calls: seq<Call>) { forall c | c in calls :: CallOk(m, c) }

  /** The field after the calls, from first to last. */
  function After(m: Mesh, key: Keying, b: Field, calls: seq<Call>): Field
    requires m.Ok()
  {
    if calls == [] then b
    else
      var c := calls[|calls| - 1];
      Filled(m, key, After(m, key, b, calls[..|calls| - 1]), c.d, c.k, c.j, c.i)
  }

  /** The refined zone a fine zone, or the inside face below it, lies in. */
  function Home(m: Mesh, d: int, k: int, j: int, i: int): Call {
    Call(d, if m.ndim > 2 then k - (k - m.Ks()) % 2 else m.Ks(), j - (j - m.Js()) % 2, i - (i - m.Is()) % 2)
  }

  /** A face inside a refined zone, and the sub-face that fills it. */
  predicate Inside(m: Mesh, d: int, k: int, j: int, i: int) {
    var h := Home(m, d, k, j, i);
    Inner(m, d, k - h.k, j - h.j, i - h.i)
  }

  function Part(m: Mesh, d: int, k: int, j: int, i: int): int {
    var h := Home(m, d, k, j, i);
    ElemOf(d, k - h.k, j - h.j, i - h.i)
  }

  // -- What a call touches

  /** A face is inside one refined zone at most. */
  lemma OneHome(m: Mesh, c: Call, k: int, j: int, i: int)
    requires m.Ok() && CallOk(m, c) && Inner(m, c.d, k - c.k, j - c.j, i - c.i)
    ensures Home(m, c.d, k, j, i) == c && Inside(m, c.d, k, j, i)
  {
  }

  /** No call touches the outside faces of any refined zone. */
  lemma CallKeepsOutside(m: Mesh, key: Keying, b: Field, c: Call, fk: int, fj: int, fi: int)
    requires m.Ok() && CallOk(m, c) && Corner(m, fk, fj, fi)
    ensures SameOutside(m, b, Filled(m, key, b, c.d, c.k, c.j, c.i), fk, fj, fi)
  {
    hide SubFace;
    forall k, j, i | (c.d == 1 && (i == fi || i == fi + 2)) || (c.d == 2 && (j == fj || j == fj + 2))
                     || (c.d == 3 && (m.ndim == 2 || k == fk || k == fk + 2))
      ensures FilledAt(m, key, b, c.d, 4, c.k, c.j, c.i, k, j, i) == Component(b, c.d)(k, j, i)
    {
      if c.d == 3 && m.ndim == 2 {
        FlatFillingIsIdle(m, key, b, 4, c.k, c.j, c.i, k, j, i);
      }
    }
  }

  lemma {:induction false} CallsKeepOutside(m: Mesh, key: Keying, b: Field, calls: seq<Call>, fk: int, fj: int, fi: int)
    requires m.Ok() && AllOk(m, calls) && Corner(m, fk, fj, fi)
    ensures SameOutside(m, b, After(m, key, b, calls), fk, fj, fi)
  {
    if calls != [] {
      hide Filled, Corner;
      var first, c := calls[..|calls| - 1], calls[|calls| - 1];
      CallsKeepOutside(m, key, b, first, fk, fj, fi);
      CallKeepsOutside(m, key, After(m, key, b, first), c, fk, fj, fi);
    }
  }

  lemma FilledHolds(m: Mesh, key: Keying, b: Field, c: Call, d: int, k: int, j: int, i: int)
    requires m.Ok() && CallOk(m, c) && 1 <= d <= 3
    ensures Component(Filled(m, key, b, c.d, c.k, c.j, c.i), d)(k, j, i)
         == if Inside(m, d, k, j, i) && c == Home(m, d, k, j, i)
            then SubFace(m, key, b, d, Part(m, d, k, j, i), c.k, c.j, c.i)
            else Component(b, d)(k, j, i)
  {
    if d == c.d {
      FilledAtHome(m, key, b, c, k, j, i);
      hide FilledAt, SubFace, Part, Inside, Home, Corner;
    }
  }

  lemma FilledAtHome(m: Mesh, key: Keying, b: Field, c: Call, k: int, j: int, i: int)
    requires m.Ok() && CallOk(m, c)
    ensures FilledAt(m, key, b, c.d, 4, c.k, c.j, c.i, k, j, i)
         == if Inside(m, c.d, k, j, i) && c == Home(m, c.d, k, j, i)
            then SubFace(m, key, b, c.d, Part(m, c.d, k, j, i), c.k, c.j, c.i) else Component(b, c.d)(k, j, i)
  {
    hide SubFace, Component;
    if Inner(m, c.d, k - c.k, j - c.j, i - c.i) {
      OneHome(m, c, k, j, i);
      PartIsSmall(m, c.d, k, j, i);
    }
  }

  /** What a face holds after the calls: inside a refined zone whose call is among them, its value from
      the field they started from; else what it held. */
  lemma {:induction false} AfterHolds(m: Mesh, key: Keying, b: Field, calls: seq<Call>, d: int, k: int, j: int, i: int)
    requires m.Ok() && AllOk(m, calls) && 1 <= d <= 3
    ensures var h := Home(m, d, k, j, i);
            Component(After(m, key, b, calls), d)(k, j, i)
            == if Inside(m, d, k, j, i) && h in calls then SubFace(m, key, b, d, Part(m, d, k, j, i), h.k, h.j, h.i)
               else Component(b, d)(k, j, i)
  {
    if calls != [] {
      var first, c, h := calls[..|calls| - 1], calls[|calls| - 1], Home(m, d, k, j, i);
      assert AllOk(m, first) && CallOk(m, c) && (h in calls <==> h in first || h == c);
      assert CallOk(m, c) ==> Corner(m, c.k, c.j, c.i);
      hide Filled, SubFace, Component, SameOutside, Part, Inside, Home, AllOk, CallOk, Corner;
      AfterHolds(m, key, b, first, d, k, j, i);
      FilledHolds(m, key, After(m, key, b, first), c, d, k, j, i);
      if Inside(m, d, k, j, i) && c == h {
        CallsKeepOutside(m, key, b, first, c.k, c.j, c.i);
        PartIsSmall(m, d, k, j, i);
        SubFaceReadsOutside(m, key, b, After(m, key, b, first), d, Part(m, d, k, j, i), c.k, c.j, c.i);
      }
    }
  }

  lemma PartIsSmall(m: Mesh, d: int, k: int, j: int, i: int)
    requires 1 <= d <= 3 && Inside(m, d, k, j, i)
    ensures 0 <= Part(m, d, k, j, i) < 4
  {
  }

  /** The order of the calls does not matter, nor whether any is repeated. */
  lemma OrderIsFree(m: Mesh, key: Keying, b: Field, calls: seq<Call>, others: seq<Call>, d: int, k: int, j: int, i: int)
    requires m.Ok() && AllOk(m, calls) && AllOk(m, others) && 1 <= d <= 3 && forall c :: c in calls <==> c in others
    ensures Component(After(m, key, b, calls), d)(k, j, i) == Component(After(m, key, b, others), d)(k, j, i)
  {
    hide After, SubFace, Component;
    AfterHolds(m, key, b, calls, d, k, j, i);
    AfterHolds(m, key, b, others, d, k, j, i);
  }

  // -- What each refined zone gets

  /** The calls of the three directions for the zone at (fk, fj, fi). */
  predicate Refines(calls: seq<Call>, fk: int, fj: int, fi: int) {
    forall d | 1 <= d <= 3 :: Call(d, fk, fj, fi) in calls
  }

  /** Faces of a refined zone hold what refining that zone alone makes of the original field. */
  lemma SameAsAlone(m: Mesh, key: Keying, b: Field, calls: seq<Call>, fk: int, fj: int, fi: int, d: int, k: int, j: int,
                    i: int)
    requires m.Ok() && AllOk(m, calls) && Corner(m, fk, fj, fi) && Refines(calls, fk, fj, fi) && 1 <= d <= m.ndim
    requires if d == 1 then fi <= i <= fi + 2 else fi <= i <= fi + 1
    requires if d == 2 then fj <= j <= fj + 2 else fj <= j <= fj + 1
    requires if m.ndim == 2 then k == fk else if d == 3 then fk <= k <= fk + 2 else fk <= k <= fk + 1
    ensures Component(After(m, key, b, calls), d)(k, j, i) == Component(Prolonged(m, key, b, fk, fj, fi), d)(k, j, i)
  {
    hide After, Prolonged, SubFace;
    if Inner(m, d, k - fk, j - fj, i - fi) {
      OneHome(m, Call(d, fk, fj, fi), k, j, i);
      AfterHolds(m, key, b, calls, d, k, j, i);
      ProlongedInside(m, key, b, d, fk, fj, fi, k, j, i);
    } else {
      CallsKeepOutside(m, key, b, calls, fk, fj, fi);
      ProlongedOutside(m, key, b, fk, fj, fi);
    }
  }

  /** So every fine zone gets the net flux that refining its own zone gives it. */
  lemma SameNetAsAlone(m: Mesh, key: Keying, b: Field, calls: seq<Call>, fk: int, fj: int, fi: int, r: int, q: int,
                       p: int)
    requires m.Ok() && AllOk(m, calls) && Corner(m, fk, fj, fi) && Refines(calls, fk, fj, fi) && Bits(m, r, q, p)
    ensures Net(m, After(m, key, b, calls), fk + r, fj + q, fi + p) == FineNet(m, key, b, fk, fj, fi, r, q, p)
  {
    hide After, Prolonged, Corner, AllOk, Refines;
    var k, j, i := fk + r, fj + q, fi + p;
    SameAsAlone(m, key, b, calls, fk, fj, fi, 1, k, j, i); SameAsAlone(m, key, b, calls, fk, fj, fi, 1, k, j, i + 1);
    SameAsAlone(m, key, b, calls, fk, fj, fi, 2, k, j, i); SameAsAlone(m, key, b, calls, fk, fj, fi, 2, k, j + 1, i);
    if m.ndim > 2 {
      SameAsAlone(m, key, b, calls, fk, fj, fi, 3, k, j, i); SameAsAlone(m, key, b, calls, fk, fj, fi, 3, k + 1, j, i);
    }
    NetOfSame(m, After(m, key, b, calls), Prolonged(m, key, b, fk, fj, fi), k, j, i);
  }

  lemma NetOfSame(m: Mesh, b: Field, c: Field, k: int, j: int, i: int)
    requires m.Ok() && b.x1(k, j, i) == c.x1(k, j, i) && b.x1(k, j, i + 1) == c.x1(k, j, i + 1)
    requires b.x2(k, j, i) == c.x2(k, j, i) && b.x2(k, j + 1, i) == c.x2(k, j + 1, i)
    requires m.ndim > 2 ==> b.x3(k, j, i) == c.x3(k, j, i) && b.x3(k + 1, j, i) == c.x3(k + 1, j, i)
    ensures Net(m, b, k, j, i) == Net(m, c, k, j, i)
  {
  }

  /** In 3D each fine zone has an eighth of the net flux of its own refined zone exactly when the cross
      terms of that zone are in proportion, whatever is refined beside it. */
  lemma EighthEachBesideOthers(m: Mesh, b: Field, calls: seq<Call>, fk: int, fj: int, fi: int)
    requires m.Ok() && m.ndim == 3 && AllOk(m, calls) && Corner(m, fk, fj, fi) && Refines(calls, fk, fj, fi)
    ensures (forall r, q, p | Bits(m, r, q, p) ::
             Net(m, After(m, AsCoded, b, calls), fk + r, fj + q, fi + p) == CoarseNet(m, b, fk, fj, fi) / 8.0)
       <==> CrossTermsInProportion(m, b, fk, fj, fi)
  {
    hide After, FineNet, CrossTermsInProportion, CoarseNet, AllOk, Refines, Corner, Net;
    EighthEachIff(m, b, fk, fj, fi);
    forall r, q, p | Bits(m, r, q, p)
      ensures Net(m, After(m, AsCoded, b, calls), fk + r, fj + q, fi + p)
              == FineNet(m, AsCoded, b, fk, fj, fi, r, q, p)
    {
      SameNetAsAlone(m, AsCoded, b, calls, fk, fj, fi, r, q, p);
    }
  }

  // -- The whole block

  /** Even numbers of zones, as a block made of refined zones has. */
  predicate Even(m: Mesh) { m.n1 % 2 == 0 && m.n2 % 2 == 0 && (m.ndim > 2 ==> m.n3 % 2 == 0) }

  predicate IsRefined(m: Mesh, k: int, j: int, i: int) { Corner(m, k, j, i) && m.Interior(k, j, i) }

  /** Every refined zone of the block gets its three calls, in any order. */
  ghost predicate Complete(m: Mesh, calls: seq<Call>) {
    forall k, j, i | IsRefined(m, k, j, i) :: Refines(calls, k, j, i)
  }

  /** The coarse field was divergence-free: no net flux into any refined zone. */
  ghost predicate CoarseDivFree(m: Mesh, b: Field) {
    forall k, j, i | IsRefined(m, k, j, i) :: CoarseNet(m, b, k, j, i) == 0.0
  }

  lemma HomeIsRefined(m: Mesh, k: int, j: int, i: int)
    requires m.Ok() && m.Interior(k, j, i)
    ensures var h := Home(m, 1, k, j, i); IsRefined(m, h.k, h.j, h.i) && Bits(m, k - h.k, j - h.j, i - h.i)
  {
  }

  lemma PartsAreInterior(m: Mesh, k: int, j: int, i: int, r: int, q: int, p: int)
    requires m.Ok() && Even(m) && IsRefined(m, k, j, i) && Bits(m, r, q, p)
    ensures m.Interior(k + r, j + q, i + p)
  {
  }

  lemma DivAsAlone(m: Mesh, key: Keying, b: Field, calls: seq<Call>, fk: int, fj: int, fi: int, r: int, q: int, p: int)
    requires m.Ok() && AllOk(m, calls) && Corner(m, fk, fj, fi) && Refines(calls, fk, fj, fi) && Bits(m, r, q, p)
    ensures FaceDiv(m, After(m, key, b, calls), fk + r, fj + q, fi + p) == 0.0
       <==> FaceDiv(m, Prolonged(m, key, b, fk, fj, fi), fk + r, fj + q, fi + p) == 0.0
  {
    hide After, Prolonged, Corner, AllOk, Refines, FaceDiv, Net;
    SameNetAsAlone(m, key, b, calls, fk, fj, fi, r, q, p);
    NetIsDiv(m, After(m, key, b, calls), fk + r, fj + q, fi + p);
    NetIsDiv(m, Prolonged(m, key, b, fk, fj, fi), fk + r, fj + q, fi + p);
  }

  /** In 3D the refined block is divergence-free exactly when in every refined zone the cross terms are
      in proportion. */
  lemma BlockDivFreeIff(m: Mesh, b: Field, calls: seq<Call>)
    requires m.Ok() && m.ndim == 3 && Even(m) && AllOk(m, calls) && Complete(m, calls) && CoarseDivFree(m, b)
    ensures DivFree(m, After(m, AsCoded, b, calls))
       <==> forall k, j, i | IsRefined(m, k, j, i) :: CrossTermsInProportion(m, b, k, j, i)
  {
    hide After, Prolonged, FaceDiv, CrossTermsInProportion, CoarseNet, AllOk, Refines, Corner;
    if DivFree(m, After(m, AsCoded, b, calls)) {
      forall k, j, i | IsRefined(m, k, j, i) ensures CrossTermsInProportion(m, b, k, j, i) {
        forall r, q, p | Bits(m, r, q, p)
          ensures FaceDiv(m, Prolonged(m, AsCoded, b, k, j, i), k + r, j + q, i + p) == 0.0
        {
          PartsAreInterior(m, k, j, i, r, q, p);
          DivAsAlone(m, AsCoded, b, calls, k, j, i, r, q, p);
        }
        RefiningDivFreeIff(m, b, k, j, i);
      }
    }
    if forall k, j, i | IsRefined(m, k, j, i) :: CrossTermsInProportion(m, b, k, j, i) {
      forall k, j, i | m.Interior(k, j, i) ensures FaceDiv(m, After(m, AsCoded, b, calls), k, j, i) == 0.0 {
        HomeIsRefined(m, k, j, i);
        var h := Home(m, 1, k, j, i);
        RefiningDivFreeIff(m, b, h.k, h.j, h.i);
        DivAsAlone(m, AsCoded, b, calls, h.k, h.j, h.i, k - h.k, j - h.j, i - h.i);
      }
    }
  }

  /** In 2D it always is, and in 3D it always would be with the rows mirrored. */
  lemma BlockStaysDivFree(m: Mesh, key: Keying, b: Field, calls: seq<Call>)
    requires m.Ok() && AllOk(m, calls) && Complete(m, calls) && CoarseDivFree(m, b) && (m.ndim == 2 || key == Mirrored)
    ensures DivFree(m, After(m, key, b, calls))
  {
    hide After, Prolonged, FaceDiv, CoarseNet, AllOk, Refines, Corner;
    forall k, j, i | m.Interior(k, j, i) ensures FaceDiv(m, After(m, key, b, calls), k, j, i) == 0.0 {
      HomeIsRefined(m, k, j, i);
      var h := Home(m, 1, k, j, i);
      if m.ndim == 2 {
        QuarteringKeepsDivFree(m, key, b, h.k, h.j, h.i, j - h.j, i - h.i);
      } else {
        MirroringKeepsDivFree(m, b, h.k, h.j, h.i, k - h.k, j - h.j, i - h.i);
      }
      DivAsAlone(m, key, b, calls, h.k, h.j, h.i, k - h.k, j - h.j, i - h.i);
    }
  }

  // -- The loops on storage

  /** The calls of direction `d` for the first `n` refined zones of a row, rows of a plane, planes; and
      of the first `n` directions. */
  function RowCalls(m: Mesh, d: int, k: int, j: int, n: nat): seq<Call> {
    if n == 0 then [] else RowCalls(m, d, k, j, n - 1) + [Call(d, k, j, m.Is() + 2 * (n - 1))]
  }
  function PlaneCalls(m: Mesh, d: int, k: int, n: nat): seq<Call>
    requires m.Ok()
  {
    if n == 0 then [] else PlaneCalls(m, d, k, n - 1) + RowCalls(m, d, k, m.Js() + 2 * (n - 1), m.n1 / 2)
  }
  function DirectionCalls(m: Mesh, d: int, n: nat): seq<Call>
    requires m.Ok()
  {
    if n == 0 then [] else DirectionCalls(m, d, n - 1) + PlaneCalls(m, d, m.Ks() + 2 * (n - 1), m.n2 / 2)
  }
  function Layers(m: Mesh): nat
    requires m.Ok()
  {
    if m.ndim > 2 then m.n3 / 2 else 1
  }
  function BlockCalls(m: Mesh, n: nat): seq<Call>
    requires m.Ok()
  {
    if n == 0 then [] else BlockCalls(m, n - 1) + DirectionCalls(m, n, Layers(m))
  }

  // Which calls these are.

  /** One of `n` even steps from `lo`. */
  predicate OnStep(lo: int, n: nat, x: int) { (x - lo) % 2 == 0 && lo <= x < lo + 2 * n }

  lemma OneMoreStep(lo: int, n: nat, x: int)
    requires n > 0
    ensures OnStep(lo, n, x) <==> OnStep(lo, n - 1, x) || x == lo + 2 * (n - 1)
  {
  }

  lemma {:induction false} InRow(m: Mesh, d: int, k: int, j: int, n: nat, c: Call)
    ensures c in RowCalls(m, d, k, j, n) <==> c.d == d && c.k == k && c.j == j && OnStep(m.Is(), n, c.i)
  {
    if n > 0 {
      OneMoreStep(m.Is(), n, c.i);
      hide OnStep;
      InRow(m, d, k, j, n - 1, c);
    }
  }

  lemma {:induction false} InPlane(m: Mesh, d: int, k: int, n: nat, c: Call)
    requires m.Ok()
    ensures c in PlaneCalls(m, d, k, n)
       <==> c.d == d && c.k == k && OnStep(m.Js(), n, c.j) && OnStep(m.Is(), m.n1 / 2, c.i)
  {
    if n > 0 {
      var j := m.Js() + 2 * (n - 1);
      assert PlaneCalls(m, d, k, n) == PlaneCalls(m, d, k, n - 1) + RowCalls(m, d, k, j, m.n1 / 2);
      hide OnStep, PlaneCalls, RowCalls;
      OneMoreStep(m.Js(), n, c.j);
      InPlane(m, d, k, n - 1, c);
      InRow(m, d, k, j, m.n1 / 2, c);
    }
  }

  lemma {:induction false} InDirection(m: Mesh, d: int, n: nat, c: Call)
    requires m.Ok()
    ensures c in DirectionCalls(m, d, n)
       <==> && c.d == d && OnStep(m.Ks(), n, c.k) && OnStep(m.Js(), m.n2 / 2, c.j)
            && OnStep(m.Is(), m.n1 / 2, c.i)
  {
    if n > 0 {
      var k := m.Ks() + 2 * (n - 1);
      assert DirectionCalls(m, d, n) == DirectionCalls(m, d, n - 1) + PlaneCalls(m, d, k, m.n2 / 2);
      hide OnStep, DirectionCalls, PlaneCalls;
      OneMoreStep(m.Ks(), n, c.k);
      InDirection(m, d, n - 1, c);
      InPlane(m, d, k, m.n2 / 2, c);
    }
  }

  lemma StepsCover(m: Mesh, k: int, j: int, i: int)
    requires m.Ok() && Even(m)
    ensures OnStep(m.Ks(), Layers(m), k) && OnStep(m.Js(), m.n2 / 2, j) && OnStep(m.Is(), m.n1 / 2, i)
       <==> IsRefined(m, k, j, i)
  {
  }

  lemma InWholeDirection(m: Mesh, d: int, c: Call)
    requires m.Ok() && Even(m)
    ensures c in DirectionCalls(m, d, Layers(m)) <==> c.d == d && IsRefined(m, c.k, c.j, c.i)
  {
    hide DirectionCalls, Layers, OnStep, IsRefined;
    InDirection(m, d, Layers(m), c);
    StepsCover(m, c.k, c.j, c.i);
  }

  lemma InJoined(p: seq<Call>, q: seq<Call>, c: Call)
    ensures c in p + q <==> c in p || c in q
  {
  }

  lemma InOneMoreDirection(m: Mesh, n: nat, c: Call)
    requires m.Ok() && n > 0
    ensures c in BlockCalls(m, n) <==> c in BlockCalls(m, n - 1) || c in DirectionCalls(m, n, Layers(m))
  {
    InJoined(BlockCalls(m, n - 1), DirectionCalls(m, n, Layers(m)), c);
  }

  lemma {:induction false} InBlock(m: Mesh, n: nat, c: Call)
    requires m.Ok() && Even(m)
    ensures c in BlockCalls(m, n) <==> 1 <= c.d <= n && IsRefined(m, c.k, c.j, c.i)
  {
    if n > 0 {
      hide *;
      InOneMoreDirection(m, n, c);
      InBlock(m, n - 1, c);
      InWholeDirection(m, n, c);
    }
  }

  lemma BlockIsComplete(m: Mesh)
    requires m.Ok() && Even(m)
    ensures AllOk(m, BlockCalls(m, 3)) && Complete(m, BlockCalls(m, 3))
  {
    hide IsRefined, Corner, BlockCalls;
    forall c ensures c in BlockCalls(m, 3) <==> 1 <= c.d <= 3 && IsRefined(m, c.k, c.j, c.i) {
      InBlock(m, 3, c);
    }
    assert forall k, j, i :: IsRefined(m, k, j, i) ==> Corner(m, k, j, i) by { RefinedAreCorners(m); }
  }

  lemma RefinedAreCorners(m: Mesh)
    ensures forall k, j, i :: IsRefined(m, k, j, i) ==> Corner(m, k, j, i)
  {
  }

  lemma {:induction false} AfterMore(m: Mesh, key: Keying, b: Field, calls: seq<Call>, more: seq<Call>)
    requires m.Ok()
    ensures After(m, key, b, calls + more) == After(m, key, After(m, key, b, calls), more)
  {
    if more == [] {
      assert calls + more == calls;
    } else {
      hide Filled;
      AfterMore(m, key, b, calls, more[..|more| - 1]);
      assert (calls + more)[..|calls + more| - 1] == calls + more[..|more| - 1];
    }
  }

  method RefineRow(b: FieldData, d: int, k: int, j: int)
    requires b.Valid() && Even(b.m) && 1 <= d <= 3 && IsRefined(b.m, k, j, b.m.Is())
    modifies b.Repr()
    ensures b.Valid() && b.contents == After(b.m, AsCoded, old(b.contents), RowCalls(b.m, d, k, j, b.m.n1 / 2))
  {
    hide Filled;
    for n := 0 to b.m.n1 / 2
      invariant b.Valid() && b.contents == After(b.m, AsCoded, old(b.contents), RowCalls(b.m, d, k, j, n))
    {
      var i := b.m.Is() + 2 * n;
      assert RowCalls(b.m, d, k, j, n + 1)[..|RowCalls(b.m, d, k, j, n + 1)| - 1] == RowCalls(b.m, d, k, j, n);
      ProlongateInternal(b, d, k, j, i);
    }
  }

  method RefinePlane(b: FieldData, d: int, k: int)
    requires b.Valid() && Even(b.m) && 1 <= d <= 3 && IsRefined(b.m, k, b.m.Js(), b.m.Is())
    modifies b.Repr()
    ensures b.Valid() && b.contents == After(b.m, AsCoded, old(b.contents), PlaneCalls(b.m, d, k, b.m.n2 / 2))
  {
    hide After;
    AfterNone(b.m, AsCoded, b.contents);
    for n := 0 to b.m.n2 / 2
      invariant b.Valid() && b.contents == After(b.m, AsCoded, old(b.contents), PlaneCalls(b.m, d, k, n))
    {
      var j := b.m.Js() + 2 * n;
      AfterMore(b.m, AsCoded, old(b.contents), PlaneCalls(b.m, d, k, n), RowCalls(b.m, d, k, j, b.m.n1 / 2));
      RefineRow(b, d, k, j);
    }
  }

  lemma AfterNone(m: Mesh, key: Keying, b: Field)
    requires m.Ok()
    ensures After(m, key, b, []) == b
  {
  }

  method RefineDirection(b: FieldData, d: int)
    requires b.Valid() && Even(b.m) && 1 <= d <= 3
    modifies b.Repr()
    ensures b.Valid() && b.contents == After(b.m, AsCoded, old(b.contents), DirectionCalls(b.m, d, Layers(b.m)))
  {
    hide After;
    AfterNone(b.m, AsCoded, b.contents);
    for n := 0 to Layers(b.m)
      invariant b.Valid() && b.contents == After(b.m, AsCoded, old(b.contents), DirectionCalls(b.m, d, n))
    {
      var k := b.m.Ks() + 2 * n;
      AfterMore(b.m, AsCoded, old(b.contents), DirectionCalls(b.m, d, n), PlaneCalls(b.m, d, k, b.m.n2 / 2));
      RefinePlane(b, d, k);
    }
  }

  /** The refinement operator over a block: each face direction in turn, every refined zone.  A field
      without divergence in the coarse zones ends without any in the fine ones, in 2D always and in 3D
      exactly when in every refined zone the cross terms were in proportion. */
  method RefineBlock(b: FieldData)
    requires b.Valid() && Even(b.m)
    modifies b.Repr()
    ensures b.Valid() && b.contents == After(b.m, AsCoded, old(b.contents), BlockCalls(b.m, 3))
    ensures old(CoarseDivFree(b.m, b.contents)) && b.m.ndim == 2 ==> DivFree(b.m, b.contents)
    ensures old(CoarseDivFree(b.m, b.contents)) && b.m.ndim == 3
            ==> (DivFree(b.m, b.contents)
                 <==> forall k, j, i | IsRefined(b.m, k, j, i) ::
                        old(CrossTermsInProportion(b.m, b.contents, k, j, i)))
  {
    hide After, DirectionCalls, CoarseDivFree, CrossTermsInProportion, DivFree, AllOk, Complete;
    ghost var was := b.contents;
    AfterNone(b.m, AsCoded, was);
    for d := 1 to 4
      invariant b.Valid() && b.contents == After(b.m, AsCoded, was, BlockCalls(b.m, d - 1))
    {
      AfterMore(b.m, AsCoded, was, BlockCalls(b.m, d - 1), DirectionCalls(b.m, d, Layers(b.m)));
      RefineDirection(b, d);
    }
    BlockIsComplete(b.m);
    if CoarseDivFree(b.m, was) {
      if b.m.ndim == 2 { BlockStaysDivFree(b.m, AsCoded, was, BlockCalls(b.m, 3)); }
      else { BlockDivFreeIff(b.m, was, BlockCalls(b.m, 3)); }
    }
  }
}
