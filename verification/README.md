# KHARMA: divergence-free transport and exact tensor algebra

A Dafny model of the parts of KHARMA that promise something exact, with proofs of what they promise.

**Magnetic field.** KHARMA keeps a discrete divergence of B at zero through many separate stencil
codes.  Each of them is modelled here as kernels over three-dimensional arrays, proved to leave the
value of a specification function.  Of that function the conservation law is proved, and what it is on
every edge, face or zone, in indices, sums and differences of what was there before.

- `Grid` is the mesh block: sizes, ghost zones, spacings, index ranges, arrays as storage of a field,
  and the loop nest every kernel runs in.  `Sums`, `Remainders` and `GridSums` hold the arithmetic
  of sums and of coarse cells.
- `FaceCT`, `BoundaryEMF`, `Reconnect`, `Derefine`, `BothPoles`, `DerefineKernels` and
  `BoundaryClean` are the face-centred scheme: curl, circulation, weighted sums, boundary EMFs, polar
  reconnection, polar derefinement at one pole and at both, and outflow clean-up.  `Run` is the state
  machine over these operations, `Stages` the law of one stage of the integrator, face by face, and
  `Driver` the same on real storage, with containers that may alias.
- `Prolongation` is the divergence-preserving refinement of Olivares et al. (2019) of one zone, and
  `Refinement` that of a whole block, its calls in any order.
- `Emf`, `CentredEMF` and `EmfKernels` are the edge EMFs of the three constrained-transport schemes,
  from the primitive variables on, and `Upwinding` what each of them reads; `FourVectors` is the
  velocity and field four-vector of a zone.
- `FluxCT`, `FluxFix` and `FluxKernels` are the zone-centred scheme of Toth (2000) and the boundary
  flux fixes that go with it, and `FluxBudget` what they let through.
- `Orientation` fixes the sign and scale of curls and fluxes, which no divergence can see.
- `Cleanup` and `CleanupKernels` are the Poisson clean-up.

**Tensors and coordinates.** `Matrix` (adjugate inverse), `Determinants` (products), `Parity`
(permutation sign), `KerrSchild`, `ExternalGravity` and `Embedding` (the velocity pipeline from
Boyer-Lindquist to native coordinates), `Covectors` (the transforms of the other variance),
`Connection` (the discrete connection), `Christoffel` (its entries) and `RootFind` (the bisection
inverse).

Conventions.  Arrays are indexed (k, j, i).  A `Scalar` is a snapshot of one array as a function of
its indices, a `Field` three of them.  `Stores(m, a, s)` says the array holds the snapshot.  The
native grid is uniform and Cartesian, so face areas are products of two spacings and the volume of
all three.  "Net flux" is the flux out of all faces of a zone, which is the volume times `face_div`.
2D blocks have one layer of zones in X3.

## Where the code and its claims differ

Each entry names the condition under which the claim holds, for all inputs, and an input for which it
does not.

- **Refinement in 3D.**  The coefficients of `ProlongateInternalOlivares` switch on one sub-face
  offset while the differences they multiply are shifted by the other
  (`kharma/b_ct/b_ct_functions.hpp:212-253`).  Zero divergence is therefore not kept for all data:
  exactly when is `Prolongation.RefiningDivFreeIff` for one zone (`EighthEachIff` for equal shares) and
  `Refinement.BlockDivFreeIff` for a whole block.  A failing input for every unit-spaced mesh and zone
  is `Prolongation.UnrestrictedClaimFails`, and `Refinement.BlockStaysDivFree` shows that keying the
  pairs the other way round would make the claim unconditional.  In 2D the claim holds.
- **Derefinement** discards the flux through a pole it may not pass.  It keeps zero divergence exactly
  when there is none (`BothPoles.PolesDivFreeIff`); a failing input is
  `BothPoles.UniformPolarFluxIsLost`.  The treatment of the polar EMF is what keeps the flux zero
  (`Run.StageKeepsGood`).
- **Clean-up.**  With alpha positive a perfect solve leaves divergence unless there was none
  (`Cleanup.ExactSolveCleansIff`); a failing input is `Cleanup.AlphaLeavesDivergence`.
- **External gravity.**  `vec_from_bl` of `SphKSExtG` carries the one metric to the other, and
  `bl_fourvel_to_native` returns norm -1 for every velocity it can complete, exactly when the spin is
  zero (`ExternalGravity.IsometryExtGIff`, `Embedding.AllArriveIff`).  Otherwise one of three explicit
  velocities arrives with another norm (`Embedding.SpinLosesNorm`).
- **Covectors.**  `cov_vec_to_native` and `con_tensor_to_native` reuse the routine of the other
  variance with the same Jacobian, not its transpose.  That is right exactly for the Jacobians of
  `Covectors.PairingIff` and `Covectors.ProductsIff`; of the coordinate transformations only
  `FunkyTransform` is not among them, where the angle depends on the radius
  (`Covectors.TransformsRightIff`).  Failing inputs are `RadialCovectorFails` and
  `TimeRadiusProductFails`.

## Model

| member | source | states |
|---|---|---|
| `Run.SeededRunIsDivFree` | kharma/driver/imex_step.cpp:370-389 | Every container of every state reachable from the curl of a potential, by any sequence of stages (any EMFs, weights and step, output container possibly an input), reconnections, polar derefinements and outflow cleans, has zero divergence in every interior zone; a potential uniform along closed poles is asked for only where derefinement would discard polar flux |
| `Run.RunStaysDivFree` | kharma/driver/imex_step.cpp:370-389 | The same from any divergence-free start whose must-stay-closed poles are closed: the invariant holds along every legal run |
| `Run.StepKeepsGood` | kharma/driver/imex_step.cpp:370-389 | One operation of any kind keeps the invariant in all containers |
| `Run.StageKeepsGood` | kharma/b_ct/b_ct.cpp:717-778 | A stage keeps zero divergence, and keeps the flux through a treated pole zero, for every EMF and all weights |
| `Run.TreatedEMFBalances` | kharma/b_ct/b_ct_boundaries.cpp:48-202 | After the boundary treatment of both poles the EMFs on the edges of each treated polar face balance, whatever the treatment of the opposite pole did |
| `Run.ReconnectPolesKeepsGood` | kharma/b_ct/b_ct_boundaries.cpp:306-413 | Reconnection at either or both poles keeps the invariant |
| `Run.DerefineKeepsGood` | kharma/b_ct/b_ct_boundaries.cpp:415-606 | Derefinement at either or both poles keeps the invariant |
| `Run.CleanKeepsGood` | kharma/b_ct/b_ct_boundaries.cpp:204-304 | The outflow clean keeps the invariant, including closed poles that share edges with the cleaned side |
| `Run.CurlIsGood` | kharma/b_ct/b_ct_functions.hpp:78-123 | The seeded field satisfies the invariant when the potential is uniform along each pole that must stay closed |
| `Driver.TreatPoles` | kharma/b_ct/b_ct_boundaries.cpp:48-202 | The EMF container ends holding the treated EMF of the value it held, inner pole first |
| `Driver.ReconnectB3Task` | kharma/b_ct/b_ct_boundaries.cpp:306-343 | The container ends holding its reconnected field at every present pole |
| `Driver.StageTasks` | kharma/driver/imex_step.cpp:370-389 | Update, reconnection and derefinement in place, the output container possibly an input: the output holds what the law of a stage (below) says of the old contents, the EMF container the treated EMF, the source container its circulation |
| `Stages.StageObeys` | kharma/driver/imex_step.cpp:370-389 | The law of a stage: every interior face outside the derefined rows holds the combination of the old fields and the circulation of the treated EMF, less its column mean where B3 is reconnected; the derefined rows hold what coarse cells would carry of that field; columns reconnected but not derefined carry no net B3 |
| `Stages.StageOnX1` | kharma/driver/kharma_driver.cpp:616-671 | So an X1 face clear of derefinement holds gam0 sub + gam1 full + beta dt (E2 differenced along X3 less E3 along X2), face by face and in indices |
| `Stages.StageOnX2` | kharma/driver/kharma_driver.cpp:616-671 | An X2 face likewise, with E3 along X1 less E1 along X3 |
| `Stages.StageOnX3` | kharma/driver/kharma_driver.cpp:616-671 | An X3 face clear of reconnection likewise, with E1 along X2 less E2 along X1 |
| `Stages.StageClosesColumns` | kharma/b_ct/b_ct_boundaries.cpp:345-413 | After a stage with reconnection and no derefinement the sum of B3 over every treated column is zero, at both poles |
| `Stages.PlanarStage` | kharma/driver/imex_step.cpp:370-389 | From primitives to the new field: where the state varies along one axis, a stage combines the old fields and adds beta dt times the 1D conservative update, on every face away from what is done at the poles of the block |
| `Stages.OneDimensionalIs` | kharma/b_ct/b_ct.cpp:717-778 | That update: nothing along the axis, and for any other component minus the difference of its flux along the axis over the spacing |
| `Stages.TreatedBetween` | kharma/b_ct/b_ct_boundaries.cpp:48-202 | The treatments of both poles leave E2 everywhere, and E1 and E3 between the polar faces, as they were |
| `Stages.TreatedOnPole` | kharma/b_ct/b_ct_boundaries.cpp:48-202 | On a polar face: zeros where zeroing is on, the sum of the old EMF over its line shared equally where only averaging is (E3 zero if spherical), the old EMF with neither, whatever is done at the other pole |
| `Stages.RunsMakeStages` | kharma/driver/imex_step.cpp:370-389 | The operations of a run, in the driver's order, leave exactly the stage result in the output container and nothing new in the others |
| `Stages.StepsDoTheirWork` | kharma/driver/imex_step.cpp:370-389 | Every operation of a run leaves the other containers alone and does its work on its own: a bare stage the law above, reconnection no net B3 in its columns, derefinement coarse cells in its rows, the clean zero divergence in its zones |
| `Stages.StageResultIsGood` | kharma/driver/imex_step.cpp:370-389 | That stage result satisfies the run invariant whenever both inputs do |
| `Driver.Evolve` | kharma/driver/kharma_driver.cpp:616-671 | Any number of two-stage steps on real storage, the second stage overwriting the container it averages with, ends divergence-free with closed poles still closed, and at the field the old one evolves to by the inputs in turn, each step two stages that obey the law |
| `Driver.EvolvedObeys` | kharma/driver/kharma_driver.cpp:616-671 | The fold of the stages over the inputs is such an evolution: every step goes through a field between by the law of a stage, the second stage combining the old field with it |
| `FaceCT.NetIsDiv` | kharma/b_ct/b_ct_functions.hpp:48-57 | Net flux through the faces of a zone is its volume times face_div, and one vanishes exactly when the other does |
| `FaceCT.CurlIsDivFree` | kharma/b_ct/b_ct_functions.hpp:78-123 | The edge curl of any potential, in 2D and 3D and for any positive spacings, has zero face_div in every zone of the block, ghost zones included |
| `FaceCT.EdgeCurl` | kharma/b_ct/b_ct_functions.hpp:78-123 | The kernels overwrite exactly the faces of the block the curl is defined on and leave the rest |
| `FaceCT.CurlIsCirculation` | kharma/b_ct/b_ct_functions.hpp:78-123 | The flux of the curl through a face is the circulation of the potential around it, edge values being means of the two nodes in 3D: every face, in indices |
| `Orientation.CurlOfRamps` | kharma/b_ct/b_ct_functions.hpp:78-123 | For a linearly varying potential the edge curl equals the curl of the potential, so sign, index order and scale are fixed |
| `FaceCT.CurledElsewhere` | kharma/b_ct/b_ct_functions.hpp:78-123 | Entries that are no face of the block keep what was in the container |
| `FaceCT.SourcedElsewhere` | kharma/b_ct/b_ct.cpp:717-778 | So do faces of no interior zone in the source container |
| `FaceCT.SourceHasNoNet` | kharma/b_ct/b_ct.cpp:717-778 | The field change made from any edge EMFs carries no net flux out of any interior zone |
| `FaceCT.AddSource` | kharma/b_ct/b_ct.cpp:717-778 | The three circulation kernels leave exactly the circulation over area on interior faces of the source container and keep the rest |
| `FaceCT.NetOfStage` | kharma/driver/kharma_driver.cpp:616-671 | The net flux of a zone after a stage is the integrator's combination of the net fluxes before it |
| `FaceCT.NetOfWSum` | kharma/driver/kharma_driver.hpp:238-272 | Net flux is linear in the two inputs of a weighted sum |
| `FaceCT.WeightedSumDataFace` | kharma/driver/kharma_driver.hpp:238-272 | The output holds the weighted sum of what the inputs held on entry, also when it is one of them |
| `FaceCT.AddStateUpdate` | kharma/driver/kharma_driver.cpp:616-671 | Two aliasing weighted sums leave gam0 sub + gam1 full + beta dt source, taken from the old containers |
| `BoundaryEMF.AveragingFreezesFace` | kharma/b_ct/b_ct_boundaries.cpp:73-202 | After averaging the EMF at a boundary, in any direction, side and dimension, the field change on every interior face of that boundary is zero |
| `BoundaryEMF.ZeroingFreezesFace` | kharma/b_ct/b_ct_boundaries.cpp:48-71 | After zeroing the EMF the same holds |
| `BoundaryEMF.BalancedDrivesNothing` | kharma/b_ct/b_ct.cpp:748-762 | A face whose opposite edges carry equal EMFs does not change |
| `BoundaryEMF.AveragedIsUniform` | kharma/b_ct/b_ct_boundaries.cpp:105-200 | Averaged edges of one line hold one value |
| `BoundaryEMF.MeanOfLine` | kharma/b_ct/b_ct_boundaries.cpp:131-175 | The sum reduction returns the value that times the number of interior edges is their sum |
| `BoundaryEMF.AverageBoundaryEMF` | kharma/b_ct/b_ct_boundaries.cpp:73-202 | The container ends holding the averaged EMF (below), each line's mean taken before it is overwritten |
| `BoundaryEMF.AveragingKeepsSum` | kharma/b_ct/b_ct_boundaries.cpp:105-200 | Averaging keeps the sum of the EMF over the interior edges of every line it averages |
| `BoundaryEMF.AveragedOnX1` | kharma/b_ct/b_ct_boundaries.cpp:73-202 | On an X1 face every E2 of a line along X3 (in 3D) and every E3 of one along X2 ends with an equal share of the sum of the old values over the interior; every other edge, E1 included, keeps its value |
| `BoundaryEMF.AveragedOnX2` | kharma/b_ct/b_ct_boundaries.cpp:73-202 | On an X2 face likewise E1 along X3 (in 3D) and E3 along X1, or on a spherical grid E3 zero on the face and beyond; every other edge keeps its value |
| `BoundaryEMF.AveragedOnX3` | kharma/b_ct/b_ct_boundaries.cpp:73-202 | On an X3 face likewise E1 along X2 and E2 along X1 |
| `BoundaryEMF.ZeroBoundaryEMF` | kharma/b_ct/b_ct_boundaries.cpp:48-71 | The container ends holding the zeroed EMF (below) |
| `BoundaryEMF.ZeroedEdges` | kharma/b_ct/b_ct_boundaries.cpp:48-71 | The edges of the block that lie on the domain face, and do not cross it, are zero; every other edge keeps its value |
| `Reconnect.ReconnectKeepsNet` | kharma/b_ct/b_ct_boundaries.cpp:345-413 | Taking the mean B3 off the polar row changes no zone's net flux |
| `Reconnect.ReconnectedSumIsZero` | kharma/b_ct/b_ct_boundaries.cpp:345-413 | Afterwards the sum of B3 over the interior of every treated column is zero |
| `Reconnect.ReconnectedFaces` | kharma/b_ct/b_ct_boundaries.cpp:345-413 | The columns treated are those of the zone row next to the pole up to the buffer; all of a column loses one value; no other face changes |
| `Reconnect.ReconnectBoundaryB3` | kharma/b_ct/b_ct_boundaries.cpp:345-413 | The column loop leaves exactly that field, whatever the buffer, each sum read before its column is changed |
| `Derefine.DerefinedNetIsMean` | kharma/b_ct/b_ct_boundaries.cpp:455-601 | The pass at one pole, either one and any number of levels: the net flux of a derefined zone becomes the mean over its coarse cell, plus the polar flux the pass discards there |
| `Derefine.OtherZonesKeepNet` | kharma/b_ct/b_ct_boundaries.cpp:455-601 | The pass at one pole: all other interior zones keep their net flux, including those sharing faces with derefined rows |
| `Derefine.DerefineDivFreeIff` | kharma/b_ct/b_ct_boundaries.cpp:455-601 | The pass at one pole: a divergence-free field stays so if and only if no coarse cell on the pole has net flux through its polar face that gets discarded |
| `Derefine.ClosedPoleDiscardsNothing` | kharma/b_ct/b_ct_boundaries.cpp:500-508 | A closed pole, or one where flux is allowed, discards nothing |
| `Derefine.DerefinePolesKeepsDivFree` | kharma/b_ct/b_ct_boundaries.cpp:415-606 | Both poles one after the other keep zero divergence, and closed poles stay closed |
| `Derefine.CoarseFlux1Conserved` | kharma/b_ct/b_ct_boundaries.cpp:462-484 | The total flux through the X1 side of a coarse cell is conserved |
| `Derefine.CoarseFlux2Conserved` | kharma/b_ct/b_ct_boundaries.cpp:486-510 | The total flux through the X2 side of a coarse cell is conserved where it is not discarded |
| `Derefine.CoarseFlux3Kept` | kharma/b_ct/b_ct_boundaries.cpp:512-575 | The X3 faces between coarse cells are unchanged |
| `Derefine.HalfCellFluxConserved` | kharma/b_ct/b_ct_boundaries.cpp:486-510 | On the side away from the pole each half cell conserves its flux, although the next row is derefined one level less |
| `Derefine.DerefineIsProjection` | kharma/b_ct/b_ct_boundaries.cpp:455-601 | The pass at one pole done twice equals the pass done once, on all three kinds of face |
| `Derefine.SmallerCellsTile` | kharma/b_ct/b_ct_boundaries.cpp:440-461 | If the largest coarse cells tile the circle so do all smaller ones |
| `BothPoles.PolesProjection` | kharma/b_ct/b_ct_boundaries.cpp:415-606 | The routine run twice equals the routine run once, on all three kinds of face, whichever poles the block touches |
| `BothPoles.PolesNet` | kharma/b_ct/b_ct_boundaries.cpp:415-606 | After the routine each zone in a derefined row of either pole has the mean net flux of its coarse cell in the original field, plus the polar flux discarded there; every other zone keeps its net flux |
| `BothPoles.PolesDivFreeIff` | kharma/b_ct/b_ct_boundaries.cpp:415-606 | A divergence-free field stays so under the routine if and only if no coarse cell at a pole of the block has net polar flux that is discarded |
| `BothPoles.UniformPolarFluxIsLost` | kharma/b_ct/b_ct_boundaries.cpp:500-508 | The field of ones along X2 is divergence-free and is not after the routine, on every block at a pole where flux is not allowed |
| `BothPoles.PolesConserve` | kharma/b_ct/b_ct_boundaries.cpp:415-606 | The routine conserves the X1 and X2 fluxes through coarse faces in the derefined rows of both poles, but for what it discards, and keeps X3 faces between coarse cells |
| `BothPoles.RowsHold` | kharma/b_ct/b_ct_boundaries.cpp:415-606 | The derefined rows in full: row l from the inside has coarse cells of 2^(l+1) zones; every X1 face holds the mean over its cell, the X2 face on the polar side too (zero on an impermeable pole), the end X3 faces what they held, and those inside what makes every zone's net flux the mean over the cell but for the polar flux discarded |
| `BothPoles.EachPoleOnItsOwn` | kharma/b_ct/b_ct_boundaries.cpp:415-606 | Although the second pass reads what the first wrote, each derefined row holds what its own pole's pass makes of the original field |
| `DerefineKernels.AverageF1` | kharma/b_ct/b_ct_boundaries.cpp:462-484 | The first averaging pass fills the scratch array with coarse-cell means computed from the untouched field |
| `DerefineKernels.AverageF2` | kharma/b_ct/b_ct_boundaries.cpp:486-510 | Likewise for F2, zero on a pole without allowed flux |
| `DerefineKernels.AverageF3` | kharma/b_ct/b_ct_boundaries.cpp:512-575 | Likewise for F3, interpolated through the central flux that balances the two halves |
| `DerefineKernels.HalfSums` | kharma/b_ct/b_ct_boundaries.cpp:538-560 | The two running sums are the fluxes through the halves of the far side of the coarse cell |
| `DerefineKernels.DerefinePole` | kharma/b_ct/b_ct_boundaries.cpp:455-601 | Averaging into scratch and copying back leaves the derefined field of the old contents at one pole |
| `DerefineKernels.DerefinePoles` | kharma/b_ct/b_ct_boundaries.cpp:415-606 | The same for both poles, in order, on one container |
| `BoundaryClean.CleanLeavesNoDiv` | kharma/b_ct/b_ct_boundaries.cpp:204-303 | In each direction and on each side, face_div is zero in the last interior zone and in every ghost zone outward |
| `BoundaryClean.CleanChangesOnlyItsFaces` | kharma/b_ct/b_ct_boundaries.cpp:204-303 | Only the normal faces from the domain face outward may differ |
| `BoundaryClean.CleanIsTheOnlyExtension` | kharma/b_ct/b_ct_boundaries.cpp:204-303 | Any other extension of those normal faces that is divergence-free in those zones is equal to it |
| `BoundaryClean.CleanKeepsDivFree` | kharma/b_ct/b_ct_boundaries.cpp:204-303 | A divergence-free interior stays divergence-free |
| `BoundaryClean.CleanKeepsDomainFace` | kharma/b_ct/b_ct_boundaries.cpp:204-303 | For a divergence-free interior the reset of the domain face gives it the value it had |
| `BoundaryClean.DestructiveBoundaryClean` | kharma/b_ct/b_ct_boundaries.cpp:204-303 | The rank-by-rank loop, each rank reading what the last one wrote, leaves exactly that field |
| `Prolongation.QuarterEach` | kharma/b_ct/b_ct_functions.hpp:159-257 | In 2D every fine zone gets exactly a quarter of the coarse net flux, for all external faces and spacings |
| `Prolongation.QuarteringKeepsDivFree` | kharma/b_ct/b_ct_functions.hpp:159-257 | In 2D a coarse zone without net flux gives four divergence-free fine zones |
| `Prolongation.EighthEachIff` | kharma/b_ct/b_ct_functions.hpp:159-257 | In 3D all eight fine zones get an eighth if and only if the cross terms of the external faces are in the proportion D1(D2+D3) : D2(D3+D1) : D3(D1+D2), Dd the squared spacings |
| `Prolongation.RefiningDivFreeIff` | kharma/b_ct/b_ct_functions.hpp:159-257 | Of a 3D coarse zone without net flux all eight fine zones are divergence-free if and only if the cross terms are in that proportion |
| `Prolongation.BalanceIsProportion` | kharma/b_ct/b_ct_functions.hpp:159-257 | The three balance equations the coefficients ask for, each cross term a shape-weighted mean of the other two, have exactly that proportion as solution |
| `Prolongation.InSpacings` | kharma/b_ct/b_ct_functions.hpp:187-196 | The coefficients, and that proportion, in the spacings themselves: a1 is the difference of the squares of dx2 and dx3 over their sum, and so on in cyclic order |
| `Prolongation.ProportionIs` | kharma/b_ct/b_ct_functions.hpp:187-196 | That proportion written out in the squares of the spacings: x1 D2 (D3 + D1) is x2 D1 (D2 + D3), and x2 D3 (D1 + D2) is x3 D2 (D3 + D1), x being the cross terms |
| `Prolongation.FineNetDeparts` | kharma/b_ct/b_ct_functions.hpp:159-257 | The exact departure of each fine zone's net flux from its share, in terms of the cross terms |
| `Prolongation.Departure` | kharma/b_ct/b_ct_functions.hpp:206-255 | The algebra of that departure for any twelve pairs of external fluxes and any shape coefficients |
| `Prolongation.NoCrossTermsShareEqually` | kharma/b_ct/b_ct_functions.hpp:159-257 | External faces without cross terms always give equal shares, hence divergence-free fine zones |
| `Prolongation.MirroredEighthEach` | kharma/b_ct/b_ct_functions.hpp:159-257 | In the field the same routine leaves with the coefficient pairs keyed the other way round, every fine zone has an eighth of the coarse net flux, for all external faces and spacings |
| `Prolongation.MirroringKeepsDivFree` | kharma/b_ct/b_ct_functions.hpp:159-257 | So with the pairs keyed that way a coarse zone without net flux always gives eight divergence-free fine zones |
| `Prolongation.UnrestrictedClaimFails` | kharma/b_ct/b_ct_functions.hpp:159-257 | On every unit-spaced mesh, at every zone, a field on two faces of the top side has no coarse net flux and yet leaves a fine zone with net flux 1/4 and non-zero divergence |
| `Prolongation.FineNetIs` | kharma/b_ct/b_ct_functions.hpp:159-257 | Net flux of a fine zone from the external fluxes and the corrections alone |
| `Prolongation.SubFaceReadsOutside` | kharma/b_ct/b_ct_functions.hpp:128-157 | The value of an internal face depends on external faces only |
| `Prolongation.CallsCommute` | kharma/b_ct/b_ct_functions.hpp:159-257 | Calls for two directions leave the same faces in either order |
| `Prolongation.TwinSubFaces` | kharma/b_ct/b_ct_functions.hpp:206-255 | In 2D the repeated visits to one internal face write the same value |
| `Prolongation.FlatFillingIsIdle` | kharma/b_ct/b_ct_functions.hpp:206-255 | In 2D the call for F3 writes back what is there |
| `Prolongation.ProlongedInside` | kharma/b_ct/b_ct_functions.hpp:159-257 | After the three calls every internal face holds its value computed from the field on entry |
| `Prolongation.ProlongedOutside` | kharma/b_ct/b_ct_functions.hpp:159-257 | No external face changes |
| `Prolongation.ProlongateInternal` | kharma/b_ct/b_ct_functions.hpp:172-257 | The loop over the four elements, reading and writing one array, leaves exactly the filled field |
| `Prolongation.ProlongateFaces` | kharma/b_ct/b_ct_functions.hpp:159-257 | The calls for F1, F2, F3 leave the prolonged field |
| `Refinement.AfterHolds` | kharma/b_ct/b_ct_functions.hpp:159-257 | After any sequence of calls for any directions and zones of the block, each inside face whose call was made holds its value from the field on entry and every other face what it held |
| `Refinement.OrderIsFree` | kharma/b_ct/b_ct_functions.hpp:159-257 | Any order and repetition of the calls leaves the same field |
| `Refinement.SameNetAsAlone` | kharma/b_ct/b_ct_functions.hpp:159-257 | Every fine zone ends with the net flux that refining its own coarse zone alone would give it |
| `Refinement.EighthEachBesideOthers` | kharma/b_ct/b_ct_functions.hpp:159-257 | In 3D a coarse zone of a refined block shares its net flux equally if and only if its own cross terms are in proportion |
| `Refinement.BlockDivFreeIff` | kharma/b_ct/b_ct_functions.hpp:159-257 | A 3D block refined from a divergence-free coarse field is divergence-free in every interior zone if and only if the cross terms of every coarse zone are in proportion |
| `Refinement.BlockStaysDivFree` | kharma/b_ct/b_ct_functions.hpp:159-257 | A 2D block always is, and a 3D block always would be with the pairs keyed the other way round |
| `Refinement.RefineBlock` | kharma/b_ct/b_ct_functions.hpp:159-257 | The in-place loops over directions and all coarse zones leave that field, with the 2D claim and the 3D condition on storage |
| `Emf.PlanarEMF` | kharma/b_ct/b_ct.cpp:605-700 | For data varying along one axis with matching transverse fluxes, the gs05_0 and gs05_c edge EMFs equal the 1D flux, for all signs of the mass fluxes |
| `Emf.PlanarUpdate` | kharma/b_ct/b_ct.cpp:717-778 | Hence the field update of each component on each interior face is the 1D conservative update |
| `Emf.EdgeValue` | kharma/b_ct/b_ct.cpp:510-715 | The stored EMF on every interior edge is that 1D flux |
| `Emf.PlanarAverage` | kharma/b_ct/b_ct.cpp:532-575 | The averages alone (bs99) give the 1D flux on an edge across the flow if and only if that flux is the mean of the two centred EMFs beside it |
| `CentredEMF.PlanarStateUpdate` | kharma/b_ct/b_ct.cpp:577-778 | From primitives to update: where the state varies along one axis and fluxes across it are those of the zone, the field on every interior face is updated exactly as in 1D, for any metric and any mass fluxes |
| `CentredEMF.FlowIsPlanar` | kharma/flux/flux_functions.hpp:128-136 | The centred EMFs and the fluxes prim_to_flux gives a zone agree in sign and order: across the axis each flux is plus or minus the centred EMF |
| `CentredEMF.CentredFilled` | kharma/b_ct/b_ct.cpp:577-603 | Exactly the zones of the block, ghosts included, are filled, each with the centred EMF of its own state |
| `CentredEMF.StoredEMF` | kharma/b_ct/b_ct.cpp:577-603 | The state taken for a zone is the geometry, Lorentz factor and primitives stored for it, component by component, and its EMF the stored field across the coordinate velocity, times the metric determinant |
| `CentredEMF.FillCentred` | kharma/b_ct/b_ct.cpp:577-603 | The kernel leaves the centred EMF of every zone of the block, ghosts included, from the primitives stored there |
| `FourVectors.OnlyVelocity` | kharma/grmhd/grmhd_functions.hpp:155-164 | ucon is the one future-directed vector of norm -1 that fourvel_to_prim takes back to the primitive velocity, for every metric with its inverse |
| `FourVectors.OnlyField` | kharma/grmhd/grmhd_functions.hpp:169-173 | bcon is the one vector orthogonal to ucon that gives back the primitive field as bcon^i ucon^0 - bcon^0 ucon^i |
| `FourVectors.FieldStrength` | kharma/grmhd/grmhd_functions.hpp:169-175 | (ucon^0)^2 times bcon.bcov is the square of the primitive field plus (bcon^0)^2 |
| `FourVectors.EMFIsMotional` | kharma/b_ct/b_ct.cpp:593-602 | The centred EMF is B x v for the coordinate velocity v, densitised, though it is computed from bcon and ucon |
| `FourVectors.EMFIsIdeal` | kharma/b_ct/b_ct.cpp:593-602 | It has no part along the flow and none along the field |
| `FourVectors.PrimitivesHoldVelocity` | kharma/coordinates/coordinate_utils.hpp:199-214 | A Boyer-Lindquist velocity sent through bl_fourvel_to_native and fourvel_to_prim is the four-velocity the zone then has, if and only if the base transform kept its norm |
| `FourVectors.Calc4Vecs` | kharma/grmhd/grmhd_functions.hpp:155-176 | The loops leave ucon, ucov, bcon and bcov in their arrays, with ucon.ucov = -1 and bcon.ucov = 0 |
| `Upwinding.EdgeReads` | kharma/b_ct/b_ct.cpp:605-712 | What an edge EMF is made of in each scheme, zone by zone and face by face: for gs05_c every face at the edge gives its own EMF and the step from the centre of the zone its mass comes from to that zone's other face at the edge |
| `Upwinding.ZoneResponse` | kharma/b_ct/b_ct.cpp:605-712 | A change of the centred EMF of one of the four zones changes the edge by minus a quarter of it in gs05_0, and in gs05_c by a quarter for each of the zone's two faces at the edge that mass leaves it through |
| `Upwinding.ReadIff` | kharma/b_ct/b_ct.cpp:631-710 | gs05_c does not read a zone if and only if mass enters it through both its faces at the edge, for every combination of signs |
| `Upwinding.DownwindZoneIsNotRead` | kharma/b_ct/b_ct.cpp:631-710 | With all four mass fluxes up, the zone at the edge's own index is not read; with all down, the zone one step back along both directions |
| `Upwinding.FaceResponse` | kharma/b_ct/b_ct.cpp:510-712 | A change of one face's EMF changes the edge by a quarter of it, a half in gs05_0, and in gs05_c by a quarter and another for each face fed from its row or column |
| `Upwinding.EdgesFilled` | kharma/b_ct/b_ct.cpp:510-715 | Exactly the edges of interior zones are written |
| `EmfKernels.CalculateEMF` | kharma/b_ct/b_ct.cpp:510-715 | From primitives, geometry and fluxes: the averages, the EMF at zone centres and the in-place correction leave the EMF of the chosen scheme, as above, on every interior edge, all three schemes, 2D and 3D, and the centred EMF in its own container |
| `EmfKernels.BasePass` | kharma/b_ct/b_ct.cpp:532-575 | The first pass stores the mean of the four surrounding fluxes |
| `EmfKernels.CentredPass` | kharma/b_ct/b_ct.cpp:605-630 | The gs05_0 pass doubles it less the four cell-centred EMFs, in place |
| `EmfKernels.ContactPass` | kharma/b_ct/b_ct.cpp:631-710 | The gs05_c pass adds, in place, the four steps from the zones the mass comes from |
| `FluxCT.CellCurlHasNoCornerDiv` | kharma/b_flux_ct/b_flux_ct_functions.hpp:53-80 | A zone field that is the averaged curl of an edge field around a corner has zero corner_div there, in 2D and 3D |
| `FluxCT.SeedIsCornerFree` | kharma/b_flux_ct/b_flux_ct_functions.hpp:110-179 | The averaged curl of any potential has zero corner_div at every corner with zones of the block, ghosts included, all around it |
| `FluxCT.DivergedIsCurl` | kharma/b_flux_ct/b_flux_ct.cpp:400-430 | The divergence of the rewritten fluxes is the averaged curl of the edge EMF |
| `FluxCT.RewrittenIsCornerFree` | kharma/b_flux_ct/b_flux_ct.cpp:350-430 | For arbitrary input fluxes the divergence of the fluxes FluxCT leaves has zero corner_div at every interior corner |
| `FluxCT.StageKeepsCornerFree` | kharma/driver/kharma_driver.cpp:616-671 | A stage keeps zero corner_div |
| `FluxCT.RunStaysCornerFree` | kharma/b_flux_ct/b_flux_ct.cpp:350-430 | Any sequence of stages, over any containers, keeps it in all of them |
| `FluxCT.SeededRunIsCornerFree` | kharma/b_flux_ct/b_flux_ct_functions.hpp:110-179 | So every state reached from a seeded field has zero corner_div at every interior corner |
| `Orientation.SeedOfRamps` | kharma/b_flux_ct/b_flux_ct_functions.hpp:110-179 | For a linearly varying potential the averaged curl is the curl of the potential |
| `Orientation.SeedReadsCorners` | kharma/b_flux_ct/b_flux_ct_functions.hpp:110-179 | A zone is seeded from the potential at its own corners and from nothing else |
| `Orientation.CornerDivOfRamps` | kharma/b_flux_ct/b_flux_ct_functions.hpp:53-80 | corner_div of a linearly varying field is its divergence, in 2D and 3D |
| `Orientation.FaceDivOfRamps` | kharma/b_ct/b_ct_functions.hpp:48-57 | face_div of a linearly varying face field is its divergence |
| `Orientation.LinearEMFRecovered` | kharma/b_flux_ct/b_flux_ct.cpp:374-398 | The first pass recovers a linearly varying EMF exactly from the fluxes it induces |
| `Orientation.LinearFluxesKept` | kharma/b_flux_ct/b_flux_ct.cpp:350-430 | Fluxes induced by a linearly varying EMF are unchanged by FluxCT on all faces it rewrites, which fixes the sign and order of every rewritten flux |
| `FluxKernels.RewriteFluxes` | kharma/b_flux_ct/b_flux_ct.cpp:350-430 | The EMF pass followed by the in-place rewriting passes leaves the rewritten fluxes of the old ones |
| `FluxKernels.SeedByAveragedCurl` | kharma/prob/seed_B.cpp:454-470 | The seeding kernels leave the averaged curl on every zone of the block, ghost zones included, with zero corner_div |
| `FluxKernels.FluxDivergence` | kharma/driver/kharma_driver.hpp:312-336 | The kernel leaves minus the flux divergence of every component on interior zones |
| `FluxKernels.FluxStage` | kharma/b_flux_ct/b_flux_ct.cpp:307-346 | A whole Flux-CT stage, boundary fixes to weighted update: the source container holds the divergence of the fixed and rewritten old fluxes, with the budgets below, and zero corner_div is kept with the output container aliasing an input |
| `FluxBudget.KeptElsewhere` | kharma/b_flux_ct/b_flux_ct.cpp:350-430 | Edges, zones and faces outside the interior (outside the block, for seeding) keep what was in the EMF, source and field containers, as do E1 and E2 in 2D |
| `FluxBudget.FluxesKept` | kharma/b_flux_ct/b_flux_ct.cpp:400-430 | Fluxes through faces of no interior zone are not rewritten, nor in 2D those of B3 and along X3 |
| `FluxBudget.ZoneBudget` | kharma/b_flux_ct/b_flux_ct.cpp:307-430 | Every rewritten component of every interior zone changes by what passes the zone's faces, fixed faces of the domain left out |
| `FluxBudget.BlockBudget` | kharma/b_flux_ct/b_flux_ct.cpp:307-430 | Its total over the block changes by what passes the sides of the block that are not fixed, and by nothing else |
| `FluxBudget.StageAdvances` | kharma/b_flux_ct/b_flux_ct.cpp:350-430 | A stage of a run advances every interior zone by gam0 sub + gam1 full + beta dt times the averaged curl of the edge EMFs of its fluxes, and leaves the other containers alone |
| `FluxBudget.FixOnX1` | kharma/b_flux_ct/b_flux_ct.cpp:432-640 | Either fix of an X1 face in indices: the fluxes through the face zeroed or left, the ghost fluxes beside it mirrored with the face fluxes added or not, one zone beyond the interior across, nothing else |
| `FluxBudget.FixOnX2` | kharma/b_flux_ct/b_flux_ct.cpp:432-640 | The same for an X2 face |
| `FluxFix.FixSilences` | kharma/b_flux_ct/b_flux_ct.cpp:432-640 | Either fix makes every tangential EMF on its boundary face vanish |
| `FluxFix.FixKeepsQuiet` | kharma/b_flux_ct/b_flux_ct.cpp:432-640 | No later fix, of either kind, direction or side, disturbs a face already quiet, including at shared X1/X2 edges where it overwrites fluxes |
| `FluxFix.EveryFixedFaceIsQuiet` | kharma/b_flux_ct/b_flux_ct.cpp:307-346 | After any sequence of fixes every fixed face is quiet |
| `FluxFix.QuietFacePassesNothing` | kharma/b_flux_ct/b_flux_ct.cpp:400-430 | All B fluxes through a quiet face that FluxCT rewrites are zero |
| `FluxFix.PlanFixes` | kharma/b_flux_ct/b_flux_ct.cpp:307-346 | The parameters fix exactly the faces they name: the sequence contains a fix for a face if and only if polar or that face's own fixing is asked for |
| `FluxFix.FixedFacesPassNothing` | kharma/b_flux_ct/b_flux_ct.cpp:307-346 | For every setting of the parameters, no rewritten B flux passes a fixed face after FixFlux; in 2D the flux of B3 is not rewritten |
| `FluxKernels.ZeroBoundaryFlux` | kharma/b_flux_ct/b_flux_ct.cpp:432-536 | The kernels leave exactly the zeroed and mirrored fluxes of the old ones |
| `FluxKernels.Bflux0` | kharma/b_flux_ct/b_flux_ct.cpp:538-640 | The kernels leave exactly the matched fluxes of the old ones |
| `FluxKernels.FixFlux` | kharma/b_flux_ct/b_flux_ct.cpp:307-346 | The fixes in their order, then FluxCT, leave the rewritten fixed fluxes |
| `Cleanup.KernelsApplyA` | kharma/b_cleanup/poisson_equation.hpp:151-217 | CalculateFluxes followed by FluxMultiplyMatrix applies A, the weighted second differences less alpha, on every interior zone |
| `Cleanup.AIsLinear` | kharma/b_cleanup/poisson_equation.hpp:299-352 | A is linear |
| `Cleanup.InnerIsEnergy` | kharma/b_cleanup/poisson_equation.hpp:151-352 | On periodic grids of any size the inner product of v with A u is minus a form symmetric in u and v |
| `Cleanup.SelfAdjoint` | kharma/b_cleanup/poisson_equation.hpp:151-352 | A is self-adjoint on periodic grids |
| `Cleanup.NegativeSemidefinite` | kharma/b_cleanup/poisson_equation.hpp:151-352 | A is negative semidefinite for non-negative D and alpha |
| `Cleanup.OnlyConstantsVanish` | kharma/b_cleanup/poisson_equation.hpp:151-352 | For positive D the inner product of u with A u vanishes only if u has one value in all interior zones, so only constants are in the kernel |
| `Cleanup.TotalOfA` | kharma/b_cleanup/poisson_equation.hpp:151-352 | The total of A u is minus alpha times the total of u, so an alpha-free solve needs a right-hand side of zero total |
| `Cleanup.DiagonalIsExact` | kharma/b_cleanup/poisson_equation.hpp:105-150 | What SetDiagonal stores is the exact diagonal: raising u in one zone by t changes A u there by t times it |
| `Cleanup.DivergenceLeft` | kharma/b_cleanup/b_cleanup.cpp:337-363 | With D = 1, face_div after ApplySolution is the old one less A u, less alpha u: the solver residual corrected for alpha |
| `Cleanup.ExactSolveCleans` | kharma/b_cleanup/b_cleanup.cpp:247-335 | An exact solve with alpha = 0 leaves zero divergence in every interior zone |
| `Cleanup.ExactSolveCleansIff` | kharma/b_cleanup/b_cleanup.cpp:247-363 | On periodic blocks, for alpha not negative, an exact solve leaves zero divergence if and only if alpha is zero or there was none |
| `Cleanup.AlphaLeavesDivergence` | kharma/b_cleanup/poisson_equation.hpp:151-352 | On every periodic block with an even number of zones along X1 and for every alpha > 0, a field and its exact solution after which divergence is left |
| `Cleanup.ExactSolveLeaves` | kharma/b_cleanup/b_cleanup.cpp:337-363 | What an exact solve leaves in a zone is minus alpha times the solution there |
| `Cleanup.InitialisedIsOne` | kharma/b_cleanup/b_cleanup.cpp:226-245 | The faces InitializeD leaves unset enter neither the operator nor its diagonal on interior zones |
| `Cleanup.DivFreeDoesNoWork` | kharma/b_ct/b_ct_functions.hpp:64-76 | On periodic grids a divergence-free field is orthogonal to every face gradient |
| `Cleanup.CleaningIsAProjection` | kharma/b_cleanup/b_cleanup.cpp:337-363 | Hence an exact clean is the orthogonal projection: field energy before is that after plus that of the removed gradient, and never grows |
| `Cleanup.CorrectedFaces` | kharma/b_cleanup/b_cleanup.cpp:337-363 | Face by face: on every zone index with a lower neighbour in the block each face loses the gradient of the solution, X3 faces in 3D only; no other face changes |
| `Cleanup.PassesWrite` | kharma/b_cleanup/poisson_equation.hpp:151-217 | The fluxes of the potential are written on faces of interior zones, the unit coefficient on the lower faces of every zone, and nothing elsewhere |
| `CleanupKernels.InitializeD` | kharma/b_cleanup/b_cleanup.cpp:226-245 | The coefficient is one on the lower faces of every zone; the outermost face in each direction keeps what it held |
| `CleanupKernels.CalculateFluxes` | kharma/b_cleanup/poisson_equation.hpp:151-217 | The kernel with its extra last layers leaves the gradient fluxes on all faces of interior zones |
| `CleanupKernels.FluxMultiplyMatrix` | kharma/b_cleanup/poisson_equation.hpp:299-352 | The kernel leaves alpha term plus flux differences over volume on interior zones |
| `CleanupKernels.Ax` | kharma/b_cleanup/poisson_equation.hpp:58-79 | The two together leave A u on interior zones |
| `CleanupKernels.SetDiagonal` | kharma/b_cleanup/poisson_equation.hpp:105-150 | The kernel leaves the exact diagonal on interior zones |
| `CleanupKernels.CalcDivB` | kharma/b_ct/b_ct.cpp:872-895 | The right-hand side is face_div on interior zones |
| `CleanupKernels.ApplySolution` | kharma/b_cleanup/b_cleanup.cpp:337-363 | The in-place correction leaves field less gradient on the corrected faces |
| `CleanupKernels.FinishCleanup` | kharma/b_cleanup/b_cleanup.cpp:337-363 | On storage the new divergence is the old less A u less alpha u, and zero everywhere if the solve was exact with alpha = 0 |
| `GridSums.ByParts` | kharma/b_cleanup/poisson_equation.hpp:151-352 | Summation by parts over the block for periodic data |
| `Matrix.TimesAdjoint` | kharma/coordinates/matrix.hpp:56-94 | For every 4x4 real matrix, m times its adjoint is its determinant times the identity |
| `Matrix.AdjointTimes` | kharma/coordinates/matrix.hpp:56-94 | And in the other order |
| `Matrix.DeterminantOfTranspose` | kharma/coordinates/matrix.hpp:90-94 | The determinant, expanded along the first row, is that of the transpose |
| `Matrix.InverseWorks` | kharma/coordinates/matrix.hpp:99-110 | The inverse is two-sided whenever the determinant is not zero |
| `Matrix.InverseUndoes` | kharma/coordinates/matrix.hpp:99-110 | It undoes the matrix on every vector, both ways |
| `Determinants.InvertibleIff` | kharma/coordinates/matrix.hpp:99-110 | A matrix has an inverse if and only if the determinant is not zero |
| `Determinants.DeterminantOfTimes` | kharma/coordinates/matrix.hpp:90-94 | The determinant of a product is the product of the determinants |
| `Matrix.FillAdjoint` | kharma/coordinates/matrix.hpp:67-88 | The routine fills the array with the adjoint |
| `Matrix.DeterminantOf` | kharma/coordinates/matrix.hpp:90-94 | The routine returns the determinant of the stored matrix |
| `Matrix.Invert` | kharma/coordinates/matrix.hpp:99-110 | The routine returns the determinant, and where that is not zero the filled array is a two-sided inverse of the input |
| `Parity.Pp` | kharma/coordinates/matrix.hpp:112-140 | For every n and every permutation the cycle-walking loops terminate and return the sign, (-1) to the number of inversions |
| `Parity.WalkCycle` | kharma/coordinates/matrix.hpp:120-135 | Walking one cycle settles it: the parity of the swaps it counts is that of the part walked |
| `Parity.SwapFlipsSign` | kharma/coordinates/matrix.hpp:112-140 | Exchanging any two entries of a permutation flips its sign |
| `Parity.SkipOne` | kharma/coordinates/matrix.hpp:124-132 | Marking the next entry of a cycle corresponds to one exchange |
| `Parity.IdentityIsEven` | kharma/coordinates/matrix.hpp:112-140 | The identity has no inversions and sign 1 |
| `Parity.SymbolIsAntisymmetric` | kharma/coordinates/matrix.hpp:143-170 | Exchanging any two distinct arguments flips the symbol, equal arguments give 0, distinct ones 1 or -1, for every n |
| `Parity.OnlyAlternatingFunction` | kharma/coordinates/matrix.hpp:143-170 | Any function that alternates under exchanges and is 1 on the identity is the symbol on all permutations |
| `Parity.Antisym4` | kharma/coordinates/matrix.hpp:143-157 | antisym of four indices returns the symbol |
| `Parity.Antisym3` | kharma/coordinates/matrix.hpp:159-170 | antisym of three indices returns the symbol |
| `KerrSchild.FromBLIsIsometry` | kharma/coordinates/coordinate_systems.hpp:164-177 | vec_from_bl carries the Boyer-Lindquist form into the Kerr-Schild form exactly, for any two vectors |
| `KerrSchild.BLEntries` | kharma/coordinates/coordinate_systems.hpp:305-325 | The metric built from DD and mu is the textbook one |
| `KerrSchild.DeterminantKS` | kharma/coordinates/coordinate_systems.hpp:131-160 | The determinant of the Kerr-Schild metric is minus rho^4 sin^2, so it is singular on the axis only |
| `KerrSchild.RoundTripBL` | kharma/coordinates/coordinate_systems.hpp:164-194 | vec_to_bl and vec_from_bl undo each other when Delta is not zero |
| `KerrSchild.CompletedNorm` | kharma/coordinates/coordinate_utils.hpp:184-197 | Completing the time component gives norm -1 whenever g_tt is not zero and the root squares to the discriminant |
| `KerrSchild.FutureRoot` | kharma/coordinates/coordinate_utils.hpp:184-197 | For g_tt negative the time component set_ut writes is the latest one with which the vector has norm -1, and it is positive for every velocity whose spatial part has norm above -1 |
| `Embedding.TransformKeepsForm` | kharma/coordinates/coordinate_embedding.hpp:581-591 | Transforming vectors with dXdx and the metric with dxdX keeps every inner product, provided dxdX dXdx is the identity |
| `Embedding.PullbackForm` | kharma/coordinates/coordinate_embedding.hpp:622-637 | The transformed tensor takes vectors as the original takes their images |
| `ExternalGravity.IsometryExtGIff` | kharma/coordinates/coordinate_systems.hpp:250-266 | With external gravity vec_from_bl carries the Boyer-Lindquist form into the Kerr-Schild form if and only if the spin is zero |
| `ExternalGravity.NormShift` | kharma/coordinates/coordinate_systems.hpp:200-266 | What it adds to the norm of any vector, exactly |
| `Embedding.SpinLosesNorm` | kharma/coordinates/coordinate_embedding.hpp:733-769 | With external gravity and spin, of any radial velocity, its opposite and one with an angular part added, at least one leaves bl_fourvel_to_native with a norm that is not -1 in gcov_native |
| `Embedding.AllArriveIff` | kharma/coordinates/coordinate_embedding.hpp:733-769 | With external gravity every velocity set_ut can complete arrives with norm -1 if and only if the spin is zero, wherever there are a radial and a radial-angular velocity it can complete |
| `Embedding.PipelineNorm` | kharma/coordinates/coordinate_embedding.hpp:733-769 | For all four base systems the completed, carried and transformed velocity has norm -1 in the native metric if and only if the step to the base coordinates keeps its norm, which it does without external gravity, without spin, and for velocities without radial part |
| `Embedding.ToBaseKeepsNorm` | kharma/coordinates/coordinate_embedding.hpp:755-767 | That step keeps the norm if and only if the shift of external gravity vanishes on the vector |
| `Embedding.SafeVelocities` | kharma/coordinates/coordinate_embedding.hpp:733-769 | The shift vanishes without spin or without radial part |
| `Covectors.PairingIff` | kharma/coordinates/coordinate_embedding.hpp:592-602 | cov_vec_to_native, which multiplies covectors by the Jacobian for vectors, keeps what every covector says of every vector if and only if the Jacobian is symmetric |
| `Covectors.TransformsRightIff` | kharma/coordinates/coordinate_systems.hpp:759-782 | For dxdX of every transformation, diagonal but for the entry s that FunkyTransform has below the diagonal, each of the four routines for covectors and contravariant tensors is right if and only if s is zero |
| `Covectors.RadialCovectorFails` | kharma/coordinates/coordinate_embedding.hpp:592-602 | The covector dr and an angular vector, whose pairing is 0 before and s after |
| `Covectors.TimeRadiusProductFails` | kharma/coordinates/coordinate_embedding.hpp:638-648 | The product of the time and radius axes, whose native image has the entry -s/(e q) that the routine leaves 0 |
| `Covectors.ProductsIff` | kharma/coordinates/coordinate_embedding.hpp:638-648 | con_tensor_to_native carries products of vectors into products of the transformed vectors if and only if the Jacobian is symmetric or antisymmetric |
| `Embedding.TransformVec` | kharma/coordinates/coordinate_embedding.hpp:570-591 | The accumulation loops leave matrix times vector |
| `Embedding.PullbackInto` | kharma/coordinates/coordinate_embedding.hpp:622-637 | The four nested accumulation loops leave the transformed tensor |
| `Embedding.SetUt` | kharma/coordinates/coordinate_utils.hpp:184-197 | Only the time component is overwritten, with the chosen root |
| `Embedding.VecFromBL` | kharma/coordinates/coordinate_systems.hpp:164-177 | The loops leave the image of the vector |
| `Embedding.VecFromBLExtG` | kharma/coordinates/coordinate_systems.hpp:250-266 | The same with external gravity |
| `Embedding.VecToBL` | kharma/coordinates/coordinate_systems.hpp:179-194 | The loops, with the numerically inverted matrix, leave a vector that vec_from_bl takes back to the input |
| `Embedding.BLFourvelToNative` | kharma/coordinates/coordinate_embedding.hpp:733-769 | On storage, for all four base systems: the result has norm -1 in gcov_native if and only if the step to the base coordinates keeps the norm |
| `Connection.ConnIsSymmetric` | kharma/coordinates/coordinate_embedding.hpp:678-727 | The connection is symmetric in its lower indices for any symmetric invertible metric field |
| `Connection.LoweringUndoesRaising` | kharma/coordinates/coordinate_embedding.hpp:706-727 | Lowered again it is the rearranged metric differences |
| `Connection.ConnIsMetricCompatible` | kharma/coordinates/coordinate_embedding.hpp:678-727 | Lowered and summed over the two index orders it equals the centred metric difference exactly, for every step size |
| `Connection.OnlyConnection` | kharma/coordinates/coordinate_embedding.hpp:696-704 | No other symmetric lowered connection is compatible with the same differences |
| `Connection.NativeConnection` | kharma/coordinates/coordinate_embedding.hpp:678-727 | Off the axis, for the Kerr-Schild metric pulled back by any Jacobian that is not singular, the connection is symmetric and compatible with the metric differences |
| `Connection.NativeMetricIsRegular` | kharma/coordinates/coordinate_embedding.hpp:649-666 | That metric is symmetric and not singular |
| `Connection.PullbackIsSymmetric` | kharma/coordinates/coordinate_embedding.hpp:622-637 | The transform of a covariant tensor keeps symmetry, for any Jacobian |
| `Connection.ConnNative` | kharma/coordinates/coordinate_embedding.hpp:678-727 | Differences, rearrangement and raising through one array used for input and output leave the connection in all 64 entries (their values in the rows below) |
| `Christoffel.CentredOfQuadratic` | kharma/coordinates/coordinate_embedding.hpp:684-699 | For a metric entry quadratic along the coordinate the difference is its derivative at the point, for every step |
| `Christoffel.CentredOfAffine` | kharma/coordinates/coordinate_embedding.hpp:684-699 | For one affine in all coordinates it is the slope in that coordinate, with nothing from the others |
| `Christoffel.ConnOfOneCoordinate` | kharma/coordinates/coordinate_embedding.hpp:678-727 | All entries for a metric that depends on one coordinate: each lower index that is this coordinate brings the raised difference of the other, less the difference raised from this coordinate |
| `Christoffel.DiagonalConnection` | kharma/coordinates/coordinate_embedding.hpp:678-727 | All entries for a diagonal metric field, in its differences |
| `Christoffel.DiagonalOfOneCoordinate` | kharma/coordinates/coordinate_embedding.hpp:678-727 | Those of a diagonal metric that depends on one coordinate are the textbook ones, all others zero |
| `Christoffel.SphericalConnection` | kharma/coordinates/coordinate_systems.hpp:96-115 | For SphMinkowskiCoords: Gamma^1_22 = -r, Gamma^1_33 = -r sin^2, Gamma^2_12 = Gamma^3_13 = 1/r exactly for every step, the two others with the difference of the squared sine for its derivative, and no more |
| `RootFind.Bisect` | kharma/coordinates/root_find.hpp:78-96 | The result lies in the bracket, a return before the limit maps within the tolerance, and for every L-Lipschitz map bracketing the target the loop ends by the tolerance test within n steps, for any n up to 1000 with L times width below tolerance times 2 to the n |
| `RootFind.FindX2` | kharma/coordinates/root_find.hpp:52-97 | The same for the two overlapping halves ROOT_FIND searches |
| `RootFind.FindX1` | kharma/coordinates/root_find.hpp:99-140 | The same for the interval ROOT_FIND_1 searches |
| `RootFind.KeepsBracket` | kharma/coordinates/root_find.hpp:85-96 | Either choice of half keeps the target bracketed, although the upper value is never refreshed |
| `RootFind.SignTest` | kharma/coordinates/root_find.hpp:90-96 | The product test tells on which side the target lies |
| `RootFind.MidpointIsNear` | kharma/coordinates/root_find.hpp:85-91 | The midpoint of a bracket maps within half of L times its width of the target |
| `RootFind.NotYet` | kharma/coordinates/root_find.hpp:85-96 | A midpoint still out of tolerance means steps remain within the bound |

## Left out

- Blocks: one block is modelled.  Exchange between blocks, refinement boundaries and flux correction are Parthenon's.
- Geometry: the native grid is uniform Cartesian, as Parthenon's is here; metric factors enter through the field (densitised B).
- Arithmetic: exact reals; no rounding, overflow or NaN.  A square root is a parameter whose square is given.
- Parallel loops: `par_for` runs its points in index order, which the proofs do not depend on beyond each point being written once.  A kernel writing several arrays is modelled array by array.
- One dimension: the curls throw there; only 2D and 3D are modelled.
- `ReconnectBoundaryB3` in 2D divides by an empty sum's length; it is modelled in 3D.
- Task order: the order update, reconnect, derefine is that of `kharma/driver/imex_step.cpp:370-389`.  `kharma/driver/kharma_step.cpp:392` starts the conversion to primitives without waiting for derefinement.
- FluxKernels.Bflux0 needs two ghost zones, since its range reaches one zone beyond the first; reconstruction already needs as many.
- FluxKernels.FixFlux needs two ghost zones for the same reason.
- EmfKernels.CalculateEMF takes the fluxes as given, and the square roots in `calc_4vecs` as parameters whose squares are given; `sg07` is the same branch as `gs05_c`.
- Cleanup.SelfAdjoint is stated on periodic blocks, where the operator has no boundary terms.
- Cleanup.NegativeSemidefinite is stated on periodic blocks likewise.
- Cleanup.OnlyConstantsVanish is stated on periodic blocks likewise.
- Cleanup.CleaningIsAProjection is stated on periodic blocks likewise.
- Cleanup.ExactSolveCleansIff is stated on periodic blocks and for alpha not negative; for negative alpha the operator is indefinite.
- Solvers: conjugate gradients, BiCGSTAB and multigrid are Parthenon's.  `SetFluxBoundaries` and the normalised divergence are optional paths with other operators.
- CleanupKernels.Ax leaves out the optional flux boundaries and flux correction between its two kernels.
- Matrix.Invert promises nothing of the entries for a zero determinant, by which the code divides; there is no inverse then.
- Coordinates: the transformations themselves.  dxdX and dXdx are any matrices whose product is the identity; cos² and sin² of the angle are given with sum 1, so the pole excision is outside the model.  The potential of external gravity (a real power) is a given number, and `vec_to_bl` of `SphKSExtG` is left out, being `vec_to_bl` with another shear.
- RootFind.FindX2 takes the coordinate map as any function; its bracketing and Lipschitz constant are hypotheses, since the maps use exp, sin and pow.
- RootFind.FindX1 takes the coordinate map in the same way.
- Packages: parameters, restarts, output, `b_cd`, turbulence driving, equation of state, inversion, floors, EMHD, `TransmitSetTE`.
