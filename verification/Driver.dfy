/** The driver's tasks on real storage: containers updated in place, in the order the driver lists them. */
module Driver {
  import opened Grid
  import opened FaceCT
  import opened BoundaryEMF
  import opened Reconnect
  import opened Derefine
  import opened DerefineKernels
  import opened Run
  import opened Stages

  /** Boundary treatment of the EMF at the poles. */
  method TreatPoles(su: Setup, emf: FieldData)
    requires emf.Valid() && emf.m == su.m
    modifies emf.Repr()
    ensures emf.Valid() && emf.contents == Treated(su, old(emf.contents))
  {
    TreatPole(su, true, emf);
    TreatPole(su, false, emf);
  }

  method TreatPole(su: Setup, inner: bool, emf: FieldData)
    requires emf.Valid() && emf.m == su.m
    modifies emf.Repr()
    ensures emf.Valid() && emf.contents == TreatedAt(su, inner, old(emf.contents))
  {
    var p := PoleOf(su, inner);
    if p.present {
      if p.zeroEMF { ZeroBoundaryEMF(2, inner, emf); }
      if p.averageEMF { AverageBoundaryEMF(su.spherical, 2, inner, emf); }
    }
  }

  method ReconnectB3Task(su: Setup, b: FieldData)
    requires b.Valid() && b.m == su.m && su.m.ndim == 3
    modifies b.Repr()
    ensures b.Valid() && b.contents == ReconnectedPoles(su, old(b.contents))
  {
    if su.inner.present { ReconnectBoundaryB3(true, su.buffer, b); }
    if su.outer.present { ReconnectBoundaryB3(false, su.buffer, b); }
  }

  /** The tasks of a stage before the poles are seen to. */
  method UpdateTasks(su: Setup, full: FieldData, sub: FieldData, out: FieldData, src: FieldData, emf: FieldData,
                     gam0: real, gam1: real, bdt: real)
    requires su.m.Ok() && full.Valid() && sub.Valid() && out.Valid() && src.Valid() && emf.Valid()
    requires full.m == sub.m == out.m == src.m == emf.m == su.m
    requires Separate(full, out) && Separate(sub, out)
    requires src.Repr() !! full.Repr() && src.Repr() !! sub.Repr() && src.Repr() !! out.Repr()
    requires emf.Repr() !! full.Repr() && emf.Repr() !! sub.Repr() && emf.Repr() !! out.Repr()
             && emf.Repr() !! src.Repr()
    modifies out.Repr(), src.Repr(), emf.Repr()
    ensures out.Valid() && src.Valid() && emf.Valid()
    ensures emf.contents == Treated(su, old(emf.contents))
    ensures src.contents == Sourced(su.m, emf.contents, old(src.contents))
    ensures out.contents == StageUpdate(old(full.contents), old(sub.contents), src.contents, gam0, gam1, bdt)
  {
    hide Stores, Treated, Sourced, StageUpdate;
    TreatPoles(su, emf);
    AddSource(emf, src);
    AddStateUpdate(full, sub, src, out, gam0, gam1, bdt);
  }

  /** One stage of the integrator on the face field.  The output container may be either input, and holds
      what the law of a stage says of the old contents. */
  method StageTasks(su: Setup, reconnect: bool, full: FieldData, sub: FieldData, out: FieldData,
                    src: FieldData, emf: FieldData, avg: FieldData, gam0: real, gam1: real, bdt: real)
    requires SetupOk(su) && (reconnect ==> su.m.ndim == 3)
    requires full.Valid() && sub.Valid() && out.Valid() && src.Valid() && emf.Valid() && avg.Valid()
    requires full.m == sub.m == out.m == src.m == emf.m == avg.m == su.m
    requires Separate(full, out) && Separate(sub, out)
    requires src.Repr() !! full.Repr() && src.Repr() !! sub.Repr() && src.Repr() !! out.Repr()
    requires emf.Repr() !! full.Repr() && emf.Repr() !! sub.Repr() && emf.Repr() !! out.Repr()
             && emf.Repr() !! src.Repr()
    requires avg.Repr() !! out.Repr() && avg.Repr() !! src.Repr() && avg.Repr() !! emf.Repr()
    modifies out.Repr(), src.Repr(), emf.Repr(), avg.Repr()
    ensures out.Valid() && src.Valid() && emf.Valid() && avg.Valid()
    ensures out.contents == StageResult(su, reconnect, old(full.contents), old(sub.contents), old(emf.contents),
                                        old(src.contents), gam0, gam1, bdt)
    ensures StageLaw(su, reconnect, old(full.contents), old(sub.contents), old(emf.contents), gam0, gam1, bdt,
                     out.contents)
    ensures emf.contents == Treated(su, old(emf.contents))
    ensures src.contents == Sourced(su.m, emf.contents, old(src.contents))
  {
    StageObeys(su, reconnect, full.contents, sub.contents, emf.contents, src.contents, gam0, gam1, bdt);
    hide Stores, StageLaw, Treated, Sourced, StageUpdate, ReconnectedPoles, DerefinedPoles;
    UpdateTasks(su, full, sub, out, src, emf, gam0, gam1, bdt);
    if reconnect { ReconnectB3Task(su, out); }
    if su.nl > 0 {
      DerefinePoles(su.nl, su.inner.present, su.outer.present, su.inner.allowFlux, su.outer.allowFlux, out, avg);
    }
  }

  /** Fill a container with given values: what the EMF calculation and exchange leave behind. */
  method Load(e: Field, c: FieldData)
    requires c.Valid()
    modifies c.Repr()
    ensures c.Valid() && c.contents == e
  {
    var r := c.m.All();
    ParFor(c.m, r, c.x1, (k, j, i) => e.x1(k, j, i), c.contents.x1, e.x1);
    ParFor(c.m, r, c.x2, (k, j, i) => e.x2(k, j, i), c.contents.x2, e.x2);
    ParFor(c.m, r, c.x3, (k, j, i) => e.x3(k, j, i), c.contents.x3, e.x3);
    c.contents := e;
  }

  /** What a two-stage step is given: the EMF of either stage, the integrator's weights, beta * dt. */
  datatype StepInput = StepInput(emf1: Field, emf2: Field, gam0: (real, real), gam1: (real, real), bdt: (real, real))

  /** The field between the stages of a step, and the field and the source container after both.  `p` holds
      the two before. */
  ghost function Halfway(su: Setup, reconnect: bool, p: (Field, Field), s: StepInput): Field
    requires SetupOk(su)
  {
    StageResult(su, reconnect, p.0, p.0, s.emf1, p.1, s.gam0.0, s.gam1.0, s.bdt.0)
  }

  ghost function Stepped(su: Setup, reconnect: bool, p: (Field, Field), s: StepInput): (Field, Field)
    requires SetupOk(su)
  {
    var src := Sourced(su.m, Treated(su, s.emf1), p.1);
    (StageResult(su, reconnect, p.0, Halfway(su, reconnect, p, s), s.emf2, src, s.gam0.1, s.gam1.1, s.bdt.1),
     Sourced(su.m, Treated(su, s.emf2), src))
  }

  /** The same after all steps. */
  ghost function Evolved(su: Setup, reconnect: bool, p: (Field, Field), inputs: seq<StepInput>): (Field, Field)
    requires SetupOk(su)
  {
    if inputs == [] then p
    else Stepped(su, reconnect, Evolved(su, reconnect, p, inputs[..|inputs| - 1]), inputs[|inputs| - 1])
  }

  /** One step takes the field before it to the field after it by two stages, each by the law of a stage: the
      first starts from the old field alone, the second combines it with the field between. */
  ghost predicate StepLaw(su: Setup, reconnect: bool, before: Field, s: StepInput, after: Field)
    requires SetupOk(su)
  {
    exists half ::
      && StageLaw(su, reconnect, before, before, s.emf1, s.gam0.0, s.gam1.0, s.bdt.0, half)
      && StageLaw(su, reconnect, before, half, s.emf2, s.gam0.1, s.gam1.1, s.bdt.1, after)
  }

  /** `after` comes of `before` by such steps, one for each input in turn. */
  ghost predicate EvolvesTo(su: Setup, reconnect: bool, before: Field, inputs: seq<StepInput>, after: Field)
    requires SetupOk(su)
  {
    if inputs == [] then after == before
    else
      var n := |inputs| - 1;
      exists b :: EvolvesTo(su, reconnect, before, inputs[..n], b) && StepLaw(su, reconnect, b, inputs[n], after)
  }

  lemma SteppedObeys(su: Setup, reconnect: bool, p: (Field, Field), s: StepInput)
    requires SetupOk(su) && (reconnect ==> su.m.ndim == 3)
    ensures StepLaw(su, reconnect, p.0, s, Stepped(su, reconnect, p, s).0)
  {
    hide StageLaw, StageResult, Sourced, Treated;
    var src := Sourced(su.m, Treated(su, s.emf1), p.1);
    StageObeys(su, reconnect, p.0, p.0, s.emf1, p.1, s.gam0.0, s.gam1.0, s.bdt.0);
    StageObeys(su, reconnect, p.0, Halfway(su, reconnect, p, s), s.emf2, src, s.gam0.1, s.gam1.1, s.bdt.1);
  }

  lemma {:induction false} EvolvedObeys(su: Setup, reconnect: bool, p: (Field, Field), inputs: seq<StepInput>)
    requires SetupOk(su) && (reconnect ==> su.m.ndim == 3)
    ensures EvolvesTo(su, reconnect, p.0, inputs, Evolved(su, reconnect, p, inputs).0)
  {
    hide StepLaw, Stepped;
    if inputs != [] {
      var n := |inputs| - 1;
      EvolvedObeys(su, reconnect, p, inputs[..n]);
      SteppedObeys(su, reconnect, Evolved(su, reconnect, p, inputs[..n]), inputs[n]);
    }
  }

  /** One stage, given its EMF, on containers that satisfy the run invariant. */
  method GoodStage(su: Setup, reconnect: bool, full: FieldData, sub: FieldData, out: FieldData, src: FieldData,
                   emf: FieldData, avg: FieldData, e: Field, gam0: real, gam1: real, bdt: real)
    requires SetupOk(su) && (reconnect ==> su.m.ndim == 3)
    requires full.Valid() && sub.Valid() && out.Valid() && src.Valid() && emf.Valid() && avg.Valid()
    requires full.m == sub.m == out.m == src.m == emf.m == avg.m == su.m
    requires Separate(full, out) && Separate(sub, out)
    requires src.Repr() !! full.Repr() && src.Repr() !! sub.Repr() && src.Repr() !! out.Repr()
    requires emf.Repr() !! full.Repr() && emf.Repr() !! sub.Repr() && emf.Repr() !! out.Repr()
             && emf.Repr() !! src.Repr()
    requires avg.Repr() !! out.Repr() && avg.Repr() !! src.Repr() && avg.Repr() !! emf.Repr()
    requires Good(su, full.contents) && Good(su, sub.contents)
    modifies out.Repr(), src.Repr(), emf.Repr(), avg.Repr()
    ensures out.Valid() && src.Valid() && emf.Valid() && avg.Valid() && Good(su, out.contents)
    ensures out.contents == StageResult(su, reconnect, old(full.contents), old(sub.contents), e, old(src.contents),
                                        gam0, gam1, bdt)
    ensures src.contents == Sourced(su.m, Treated(su, e), old(src.contents))
  {
    hide Stores, StageResult, StageLaw, Sourced, Treated, Good;
    ghost var f, s := full.contents, sub.contents;
    Load(e, emf);
    StageResultIsGood(su, reconnect, f, s, e, src.contents, gam0, gam1, bdt);
    StageTasks(su, reconnect, full, sub, out, src, emf, avg, gam0, gam1, bdt);
  }

  /** One two-stage step. */
  method StepTasks(su: Setup, reconnect: bool, base: FieldData, half: FieldData, src: FieldData, emf: FieldData,
                   avg: FieldData, s: StepInput)
    requires SetupOk(su) && (reconnect ==> su.m.ndim == 3)
    requires base.Valid() && half.Valid() && src.Valid() && emf.Valid() && avg.Valid()
    requires base.m == half.m == src.m == emf.m == avg.m == su.m
    requires base.Repr() !! half.Repr()
    requires src.Repr() !! base.Repr() && src.Repr() !! half.Repr()
    requires emf.Repr() !! base.Repr() && emf.Repr() !! half.Repr() && emf.Repr() !! src.Repr()
    requires avg.Repr() !! base.Repr() && avg.Repr() !! half.Repr() && avg.Repr() !! src.Repr()
             && avg.Repr() !! emf.Repr()
    requires Good(su, base.contents)
    modifies base.Repr(), half.Repr(), src.Repr(), emf.Repr(), avg.Repr()
    ensures base.Valid() && half.Valid() && src.Valid() && emf.Valid() && avg.Valid() && Good(su, base.contents)
    ensures (base.contents, src.contents) == Stepped(su, reconnect, old((base.contents, src.contents)), s)
  {
    hide Stores, StageResult, Sourced, Treated, Good;
    GoodStage(su, reconnect, base, base, half, src, emf, avg, s.emf1, s.gam0.0, s.gam1.0, s.bdt.0);
    GoodStage(su, reconnect, base, half, base, src, emf, avg, s.emf2, s.gam0.1, s.gam1.1, s.bdt.1);
  }

  /** Any number of two-stage steps.  The second stage of each writes over the container it averages
      with, as the driver's last stage does. */
  method Evolve(su: Setup, reconnect: bool, base: FieldData, half: FieldData,
                src: FieldData, emf: FieldData, avg: FieldData, inputs: seq<StepInput>)
    requires SetupOk(su) && (reconnect ==> su.m.ndim == 3)
    requires base.Valid() && half.Valid() && src.Valid() && emf.Valid() && avg.Valid()
    requires base.m == half.m == src.m == emf.m == avg.m == su.m
    requires base.Repr() !! half.Repr()
    requires src.Repr() !! base.Repr() && src.Repr() !! half.Repr()
    requires emf.Repr() !! base.Repr() && emf.Repr() !! half.Repr() && emf.Repr() !! src.Repr()
    requires avg.Repr() !! base.Repr() && avg.Repr() !! half.Repr() && avg.Repr() !! src.Repr()
             && avg.Repr() !! emf.Repr()
    requires Good(su, base.contents)
    modifies base.Repr(), half.Repr(), src.Repr(), emf.Repr(), avg.Repr()
    ensures base.Valid() && Good(su, base.contents) && DivFree(su.m, base.contents)
    ensures (base.contents, src.contents) == Evolved(su, reconnect, old((base.contents, src.contents)), inputs)
    ensures EvolvesTo(su, reconnect, old(base.contents), inputs, base.contents)
  {
    hide EvolvesTo, Stepped, Stores;
    ghost var p := (base.contents, src.contents);
    for n := 0 to |inputs|
      invariant base.Valid() && half.Valid() && src.Valid() && emf.Valid() && avg.Valid()
      invariant Good(su, base.contents)
      invariant (base.contents, src.contents) == Evolved(su, reconnect, p, inputs[..n])
    {
      hide Good;
      assert inputs[..n + 1][..n] == inputs[..n];
      StepTasks(su, reconnect, base, half, src, emf, avg, inputs[n]);
    }
    assert inputs[..|inputs|] == inputs;
    EvolvedObeys(su, reconnect, p, inputs);
  }
}
