# SMASH collision grid and its configuration decisions, in Dafny

This project models the core of SMASH, a hadronic transport code, and proves
properties of that model.

**The collision-finding grid** (`grid.cc`, `grid.h`):
- `find_min_and_length` gives the bounding box of the particles.
- The `Grid` constructor sizes the cells per axis:
  - Normal and periodic boundaries;
  - the Optimal and Largest strategies;
  - the particle-number limit on the cell count;
  - the integer-overflow and "box too small" errors;
  - the `index_factor` nudge;
  - the dilute fallback to a single cell.
  It then places every eligible particle into its cell.
- The two `iterate_cells` specialisations walk the cells in z-y-x order and
  report each cell with its forward neighbours. The periodic one reports the
  wrapped neighbours with a translated copy of the search cell.

**Smaller decision tables and state updates:**
- `particledata.cc`: `ParticleData::set_history`, the formation branches of
  `xsec_scaling_factor`, and the warn-once mass repair of
  `create_valid_smash_particle_matching_provided_quantities`.
- `scatteractionphoton.cc`:
  - the photon reaction classification and the outgoing hadron;
  - the rho mass and the kinematic gate;
  - the rules that fix up cross-section values;
  - the collision-branch flag and the final-state checks.
- `input_keys.h`: the `Key<T>` version lifecycle, its queries, label
  comparison and string conversion.
- `collidermodus.cc`: the `ColliderModus` constructor's validation:
  - the collision energy, the nuclei and their deformation;
  - the impact-parameter settings and the initial distance;
  - the custom nucleus file paths.
- `oscaroutput.cc`: the OSCAR output factory (format, contents, name), the file
  name, and which blocks are written at the start and end of an event.

**How C++ constructs are represented:**
- Doubles are exact reals.
- Thrown exceptions are `Err` values of a `Result` (module `Outcomes`).
- The callbacks of `iterate_cells` are replaced by the sequence of callback
  invocations (`Visit`) the method returns.
- The grid's fields never change after construction, so `Grid` is a class with
  `const` fields. `ParticleData`, `ScatterActionPhoton`, the warning flags and
  the OSCAR output are classes whose methods update their fields.

Modules:
- `GridIndex`: flat cell indices.
- `GridSizing`: bounding box, cell counts and index factors.
- `GridNeighbors`: neighbour lookup lists and the specification of the visit
  sequence.
- `GridClass`: the `Grid` class.
- `ParticleRecords`, `PhotonReactions`, `InputKeys`, `ColliderModus`,
  `OscarOutputs`.

## Model

| member | source | states |
|---|---|---|
| GridIndex.MakeIndexOf | smash/smash-main/src/include/smash/grid.h:185-187 | make_index of an index array is make_index of its three components |
| GridIndex.MakeIndexInBounds | smash/smash-main/src/grid.cc:289-293 | coordinates inside the grid give a flat index in [0, nx*ny*nz) |
| GridIndex.MakeIndexOrder | smash/smash-main/src/grid.cc:289-293 | flat indices are ordered exactly as z-y-x raster order, and distinct cells have distinct indices |
| GridIndex.MakeIndexShift | smash/smash-main/src/grid.cc:335-337 | make_index is additive, so search index + di is the index of the neighbour at offset (dx, dy, dz) |
| GridIndex.MakeIndex | smash/smash-main/src/grid.cc:289-293 | make_index: the flat index x + nx*(y + ny*z); its bounds and raster order are stated by MakeIndexInBounds and MakeIndexOrder |
| GridSizing.FindMinAndLength | smash/smash-main/src/grid.cc:86-110 | every particle lies in [min, min + length] on each axis, and the minimum and the maximum of each axis are attained by some particle |
| GridSizing.WidenKeeps | smash/smash-main/src/grid.cc:97-105 | one step of the min/max fold keeps all particles seen so far inside the box and keeps a witness for each bound |
| GridClass.ExtentNonNegative | smash/smash-main/src/grid.cc:106-108 | the lengths of a box that encloses a non-empty particle list are non-negative |
| GridSizing.CbrtFloor | smash/smash-main/src/grid.cc:142-145 | the truncated cube root k satisfies k^3 <= N < (k+1)^3 |
| GridSizing.MaxCellsAsWritten | smash/smash-main/src/grid.cc:142-145 | max_cells as written: floor(cbrt(N)) in normal mode, at least 2 in periodic mode (it is 0 for an empty normal grid) |
| GridSizing.MaxCells | smash/smash-main/src/grid.cc:142-145 | the corrected max_cells: at least 1 (at least 2 periodic), equal to the source's value for N >= 1, and its cube is at most N unless it is at most 2 |
| GridSizing.AxisCells | smash/smash-main/src/grid.cc:153-192 | the cell count of one axis is at least 1 (at least 2 periodic), at most max_cells under the particle-number limit, and 2 for periodic Largest |
| GridSizing.LimitCount | smash/smash-main/src/grid.cc:168-192 | clamping a floor count: 0 becomes 1 in normal mode, periodic counts below 2 are an error, and the particle-number limit caps at max_cells |
| GridSizing.AxisCellsErrors | smash/smash-main/src/grid.cc:156-188 | the overflow error occurs exactly for Optimal with length > INT_MAX * max_interaction_length; "box too small" occurs exactly for periodic Optimal with a box shorter than two interaction lengths |
| GridSizing.AxisCellsWide | smash/smash-main/src/grid.cc:156-167 | a count never exceeds INT_MAX, and an Optimal count above 1 never makes cells shorter than the interaction length |
| GridSizing.FloorCount | smash/smash-main/src/grid.cc:165-166 | floor(length / max_interaction_length) as n with n*m <= length < (n+1)*m |
| GridSizing.CountVersusMultiple | smash/smash-main/src/grid.cc:174-175 | a floor count is below k exactly when the length is below k interaction lengths |
| GridSizing.ChooseGeometry | smash/smash-main/src/grid.cc:142-205 | the per-axis loop yields the cell counts of the specification or its error, with index factors that keep every position inside the grid; it uses the corrected cap MaxCells, so for an empty normal grid under the particle-number limit it gives one cell per axis where the source never returns (see Findings) |
| GridSizing.AxisGeometry | smash/smash-main/src/grid.cc:153-204 | one axis: the specified count or error, and an index factor with index_factor * length < n |
| GridSizing.NudgedFactor | smash/smash-main/src/grid.cc:196-203 | the nudge loop ends with 0 < index_factor and n - 1 < index_factor * length < n |
| GridSizing.NudgeStaysClose | smash/smash-main/src/grid.cc:197-202 | one step of nextafter toward 0 from n / length already satisfies the loop's exit condition |
| GridSizing.CellsBoundedByParticles | smash/smash-main/src/grid.cc:138-145 | under the particle-number limit the total cell count is at most the particle count (at most 8 or N for periodic grids) |
| GridSizing.PeriodicLargestHasEightCells | smash/smash-main/src/include/smash/grid.h:37-43 | the Largest strategy with periodic boundaries gives 2 x 2 x 2 cells |
| GridSizing.OptimalFactorCoversInteractionLength | smash/smash-main/src/grid.cc:147-152 | with Optimal sizing the index factor is at most 1 / max_interaction_length, so cells are at least one interaction length wide |
| GridSizing.EmptyNormalGridNeverStopsNudging | smash/smash-main/src/grid.cc:196-202 | as written, an empty particle list under the particle-number limit gives an axis 0 cells, and the nudge loop's condition still holds after any number of steps |
| GridSizing.ZeroIsNudgeFixpoint | smash/smash-main/src/grid.cc:200-202 | nextafter toward 0 leaves an index factor of 0 unchanged |
| GridNeighbors.PairsZ | smash/smash-main/src/grid.cc:431-484 | every neighbour visit of the three offset loops comes from the search cell |
| GridNeighbors.CellVisits | smash/smash-main/src/grid.cc:318-341 | every visit reported while a cell is the search cell names that cell |
| GridNeighbors.CountZ | smash/smash-main/src/grid.cc:431-478 | a neighbour is reported once if its three lookups are in the lists and it passes the index test, and never otherwise |
| GridNeighbors.CountLayers | smash/smash-main/src/grid.cc:312-314 | the z-y-x raster loops report each cell's visits exactly once in the trace |
| GridNeighbors.AgreeingTrace | smash/smash-main/src/grid.cc:312-314 | the trace assembled from any per-cell visit function that agrees with the specification is the specified trace |
| GridNeighbors.TraceCount | smash/smash-main/src/grid.cc:312-345 | a visit from cell c occurs in the whole trace as often as among c's own visits |
| GridNeighbors.NormalLookups | smash/smash-main/src/grid.cc:321-331 | the normal dx/dy lists cover exactly the in-grid offsets -1..1 and the dz list 0..1, without repeats |
| GridNeighbors.NormalPairsOnce | smash/smash-main/src/grid.cc:295-345 | with normal boundaries the pair (p, q) is reported exactly once if the cells are adjacent and p comes first in raster order, and never otherwise |
| GridNeighbors.NormalCellPairs | smash/smash-main/src/grid.cc:332-338 | the pair count restricted to the search cell p, which is what the di > 0 test yields |
| GridNeighbors.OffsetIndexSign | smash/smash-main/src/grid.cc:335-336 | the flat offset di of a unit offset is positive exactly for the 13 forward directions |
| GridNeighbors.ForwardOrBackward | smash/smash-main/src/include/smash/grid.h:148-156 | of each non-zero offset and its negation exactly one is forward, so 13 of the 26 directions are searched |
| GridNeighbors.PeriodicLookups | smash/smash-main/src/grid.cc:386-419 | the periodic lookup lists have no repeats, hold the wrapped neighbour of every offset (dz only the forward ones), and the virtual index reverses the wrap |
| GridNeighbors.PeriodicPairsOnce | smash/smash-main/src/grid.cc:431-478 | with periodic boundaries each cell reports its wrapped neighbour image exactly once for each forward offset and never for a backward one |
| GridNeighbors.PeriodicEachImagePairOnce | smash/smash-main/src/grid.cc:365-488 | for each unit offset, the image pair is reported exactly once: either from p toward q or from q back toward p, with opposite translations |
| GridNeighbors.WrapBack | smash/smash-main/src/grid.cc:399-418 | wrapping from c by o and back by -o returns to c with the opposite length shift |
| GridNeighbors.TranslateByZero | smash/smash-main/src/grid.cc:469-476 | translating by the zero vector leaves the search cell unchanged |
| GridNeighbors.DzOffsets | smash/smash-main/src/grid.cc:321 | the normal dz_list: ZERO on the last layer, ZERO_ONE elsewhere; what it covers is stated by NormalLookups |
| GridNeighbors.DxyOffsets | smash/smash-main/src/grid.cc:322-331 | the normal dy_list and dx_list: ZERO for a single cell, ZERO_ONE at the first, MINUS_ONE_ZERO at the last, all three offsets elsewhere; stated by NormalLookups |
| GridNeighbors.DzList | smash/smash-main/src/grid.cc:386-392 | the periodic dz_list: the layer itself and the next one, wrapping to layer 0 with a minus-length shift after the last; stated by PeriodicLookups |
| GridNeighbors.DxyList | smash/smash-main/src/grid.cc:394-419 | the periodic dy_list and dx_list: the coordinate, then its neighbours, wrapping at either end with the matching length shift; stated by PeriodicLookups |
| GridNeighbors.Trace | smash/smash-main/src/grid.cc:312-345 | all callbacks of one iterate_cells call in z-y-x raster order; TraceCount, TraceMember, SearchCellOnce, NormalTraceSound and PeriodicTraceSound state what it holds |
| GridNeighbors.TraceMember | smash/smash-main/src/grid.cc:312-345 | every callback of the trace comes from a search cell inside the grid and is one of that cell's own callbacks |
| GridNeighbors.SearchCellOnce | smash/smash-main/src/grid.cc:312-345 | the search callback of a cell occurs in the trace exactly once if the cell is inside the grid and never otherwise |
| GridNeighbors.NormalTraceSound | smash/smash-main/src/grid.cc:302-345 | in normal mode every search callback is for an in-grid cell with a valid list index, and every neighbour callback pairs it with an adjacent in-grid cell that comes later in raster order, without wrapping, handing over that cell's particle list |
| GridNeighbors.PeriodicTraceSound | smash/smash-main/src/grid.cc:366-488 | in periodic mode every search callback is for an in-grid cell, and every neighbour callback is the image of a forward unit offset of that cell, wrapped into the grid and translated by the matching multiple of the box length |
| GridClass.Eligibles | smash/smash-main/src/grid.cc:225-233 | the copy_if keeps exactly the eligible particles: each eligible particle as often as it was given, no ineligible one |
| GridClass.AllEligible | smash/smash-main/src/grid.cc:221-224 | with unformed particles included, every particle is kept |
| GridClass.Grid.SingleCell | smash/smash-main/src/grid.cc:126-132 | a one-cell normal grid holding the given particles, with volume the product of the lengths |
| GridClass.Grid.Full | smash/smash-main/src/grid.cc:236-250 | a grid with the given counts and one particle list per cell |
| GridClass.Grid.NewGrid | smash/smash-main/src/grid.cc:115-287 | (Built) Normal Largest gives one cell of all particles; otherwise the errors are exactly those of the cell-count specification; a dilute normal grid gives one cell of eligible particles; else each cell holds exactly the eligible particles mapped to it. The cell counts use the corrected cap MaxCells: for an empty normal grid under the particle-number limit it returns one cell where the source never returns (see Findings). Unformed particles are excluded and the Optimal strategy is used unless asked otherwise, as the defaults of grid.h:145-146 |
| GridClass.Grid.FromCounts | smash/smash-main/src/grid.cc:207-284 | the dilute fallback or the full grid, from known counts and factors |
| GridClass.Grid.NewGridAround | smash/smash-main/src/include/smash/grid.h:113-123 | the result is exactly what the constructor with explicit bounds builds (Built: errors, Largest and dilute single cells, buckets) for the particles' bounding box; the same defaults as grid.h:115-116 |
| GridClass.BoundingBoxUnique | smash/smash-main/src/grid.cc:86-110 | the particles determine their bounding box: two boxes that enclose them and touch them on every face are equal |
| GridClass.CellVolumesTile | smash/smash-main/src/grid.cc:238-240 | cell_volume times the number of cells is the volume of the box |
| GridClass.AxisCellInRange | smash/smash-main/src/grid.cc:256-261 | a coordinate in [0, length] maps to a cell in [0, n) |
| GridClass.CellOfInGrid | smash/smash-main/src/grid.cc:267-281 | every position in the box maps to a cell inside the grid, so the out-of-bounds check never fires |
| GridClass.CellOf | smash/smash-main/src/grid.cc:256-260 | cell_index_for: each coordinate of the position, less the minimum, scaled by the index factor and truncated; CellOfInGrid states that box positions land inside the grid |
| GridClass.PlaceParticles | smash/smash-main/src/grid.cc:249-283 | after the loop, cells_ has nx*ny*nz entries and each holds exactly the eligible particles mapped to it, in order |
| GridClass.BucketCount | smash/smash-main/src/grid.cc:262-283 | a particle occurs in cell k as often as in the input if it is eligible and maps to k, else never |
| GridClass.PlacedOnce | smash/smash-main/src/grid.cc:262-283 | an eligible particle is in exactly the one cell its position maps to |
| GridClass.Bucket | smash/smash-main/src/grid.cc:262-283 | the contents of cell k after the placement loop: the eligible particles that map to k, in input order; BucketCount and PlacedOnce state its counts |
| GridClass.SkippedNowhere | smash/smash-main/src/grid.cc:263-266 | an ineligible particle is in no cell |
| GridClass.CountsChosen | smash/smash-main/src/grid.cc:168-192 | chosen counts are positive, and at least 2 per axis with periodic boundaries |
| GridClass.Grid.IterateCellsNormal | smash/smash-main/src/grid.cc:301-345 | the normal iterate_cells reports exactly the specified trace |
| GridClass.Grid.NormalLayers | smash/smash-main/src/grid.cc:312-344 | the z loop reports the layers of the trace in order |
| GridClass.Grid.NormalLayer | smash/smash-main/src/grid.cc:313-343 | the y loop of one layer, advancing the search index by one layer |
| GridClass.Grid.NormalRow | smash/smash-main/src/grid.cc:314-342 | the x loop of one row, advancing the search index by one row |
| GridClass.Grid.NormalCell | smash/smash-main/src/grid.cc:315-341 | one search cell: its search callback and its forward neighbours |
| GridClass.NormalPairsY | smash/smash-main/src/grid.cc:333-340 | the dy loop reports the specified pairs |
| GridClass.NormalPairsX | smash/smash-main/src/grid.cc:334-339 | the dx loop reports the pairs with di > 0 |
| GridClass.Grid.IterateCellsPeriodic | smash/smash-main/src/grid.cc:365-488 | the periodic iterate_cells reports exactly the specified trace |
| GridClass.Grid.PeriodicLayers | smash/smash-main/src/grid.cc:386-487 | the z loop with its dz lookup list |
| GridClass.Grid.PeriodicLayer | smash/smash-main/src/grid.cc:394-486 | the y loop with its dy lookup list |
| GridClass.Grid.PeriodicRow | smash/smash-main/src/grid.cc:407-485 | the x loop with its dx lookup list |
| GridClass.Grid.PeriodicCell | smash/smash-main/src/grid.cc:421-484 | one search cell: a local copy of the cell, translated only when the wrap vector changes |
| GridClass.PeriodicPairsY | smash/smash-main/src/grid.cc:437-483 | the dy loop, keeping the local copy equal to the cell translated by the current wrap vector |
| GridClass.PeriodicPairsX | smash/smash-main/src/grid.cc:446-480 | the dx loop with the index test and the translation on wrap change |
| GridClass.NextDzList | smash/smash-main/src/grid.cc:387-393 | the updated dz list is the specified lookup list of layer z |
| GridClass.NextDxyList | smash/smash-main/src/grid.cc:395-419 | the updated dy or dx list is the specified lookup list |
| GridClass.TranslateCompose | smash/smash-main/src/grid.cc:469-475 | translating by wrap - current after current is translating by wrap |
| GridClass.PeriodicStep | smash/smash-main/src/grid.cc:427-465 | the index test on the virtual search index selects exactly the processed neighbours, and the wrap vector is that of the three lookups |
| ParticleRecords.ParticleData.SetHistory | smash/smash-main/src/particledata.cc:33-83 | the new history is the per-process-type update of the old one |
| ParticleRecords.HistoryAfter | smash/smash-main/src/particledata.cc:33-83 | the history record after set_history; CountersUnlessWall, ParentsByFamily and SetHistoryIdempotent state its properties |
| ParticleRecords.CountersUnlessWall | smash/smash-main/src/particledata.cc:36-41 | process id and type are always set; collision count and time only when the process is not a wall crossing |
| ParticleRecords.ParentsByFamily | smash/smash-main/src/particledata.cc:43-81 | the parents per process family: decay/wall, kept, two parents, or none |
| ParticleRecords.SetHistoryIdempotent | smash/smash-main/src/particledata.cc:33-83 | recording the same process twice gives the same history as once |
| ParticleRecords.FormedScalesByOne | smash/smash-main/src/particledata.cc:85-117 | a particle formed by t + dt scales by 1 |
| ParticleRecords.UnformedScalesByInitial | smash/smash-main/src/particledata.cc:85-117 | before the formation time the factor is the initial one, under the step function always and under the smooth rise while formation has not begun |
| ParticleRecords.StepScaling | smash/smash-main/src/particledata.cc:89-98 | with formation power at most 0 the factor is the initial one exactly before the formation time, including between the begin and the formation time, and 1 from the formation time on |
| ParticleRecords.XsecScalingFactor | smash/smash-main/src/particledata.cc:85-119 | xsec_scaling_factor: 1 once formed, the initial factor before formation starts, and the power-law interpolation in between; FormedScalesByOne, UnformedScalesByInitial, StepScaling and ScalingFactorBetween state its values |
| ParticleRecords.ScalingFactorBetween | smash/smash-main/src/particledata.cc:99-117 | for a power law with values in [0, 1] the factor lies between the initial factor and 1 |
| ParticleRecords.ValidMomentumOnShell | smash/smash-main/src/particledata.cc:201-231 | the repaired four-momentum keeps the three-momentum and is on shell for the (pole or given) mass |
| ParticleRecords.ValidMomentumIdempotent | smash/smash-main/src/particledata.cc:201-231 | repairing a repaired momentum changes nothing |
| ParticleRecords.ValidMomentum | smash/smash-main/src/particledata.cc:201-231 | the momentum create_valid_smash_particle_matching_provided_quantities sets: pole mass for stable particles with a wrong mass, the given mass on shell when off shell, the input otherwise; ValidMomentumOnShell and ValidMomentumIdempotent state its properties |
| ParticleRecords.CreateValidParticle | smash/smash-main/src/particledata.cc:164-232 | the particle with the repaired momentum; each warning is logged iff its flag was set and its condition holds, and that flag is then cleared |
| PhotonReactions.PhotonReactionType | smash/smash-main/src/scatteractionphoton.cc:36-40 | anything but two particles is no_reaction |
| PhotonReactions.ReactionTypeSymmetric | smash/smash-main/src/scatteractionphoton.cc:45-48 | the classification does not depend on the order of the pair |
| PhotonReactions.ReactionTypeIff | smash/smash-main/src/scatteractionphoton.cc:50-86 | a pair gets a reaction type exactly when it is that reaction's pi/rho pair, in either order |
| PhotonReactions.NoReactionIff | smash/smash-main/src/scatteractionphoton.cc:50-86 | no_reaction exactly for pairs that undergo none of the ten reactions |
| PhotonReactions.ReactionTypeExamples | smash/smash-main/src/tests/photons.cc:112-119 | pi+ pi- and rho+ pi- react; n pi- and pi+ eta do not |
| PhotonReactions.Classify | smash/smash-main/src/scatteractionphoton.cc:50-86 | the switch over the packed codes with the pion first; ReactionTypeIff and ReactionTypeSymmetric state which pairs get which type |
| PhotonReactions.OutgoingHadronConserves | smash/smash-main/src/scatteractionphoton.cc:101-145 | no hadron exactly for no_reaction; otherwise charge is conserved and the hadron is a rho iff both incoming are pions |
| PhotonReactions.OutgoingHadronExamples | smash/smash-main/src/tests/photons.cc:126-135 | the pairs of the photon tests give rho+, rho-, pi-, rho0 and pi0, in either order |
| PhotonReactions.OutgoingHadron | smash/smash-main/src/scatteractionphoton.cc:101-145 | the outgoing hadron of each reaction type and none for no_reaction; OutgoingHadronConserves states charge conservation |
| PhotonReactions.RhoMassIsTheRho | smash/smash-main/src/scatteractionphoton.cc:312-336 | the sampled outgoing mass when the rho is produced, the incoming rho's effective mass otherwise, an error for no_reaction |
| PhotonReactions.KinematicGateIff | smash/smash-main/src/scatteractionphoton.cc:153-188 | possible exactly for a reaction, not pi0 rho0 under the pion mediator, not the pi-rho to pi0 channels below the omega mass under the omega mediator, and sqrt(s) at least the hadron's threshold |
| PhotonReactions.KinematicThresholdExample | smash/smash-main/src/scatteractionphoton.cc:175-187 | for pi+ pi- to rho0 the gate opens at the rho's minimal spectral mass plus really_small |
| PhotonReactions.RhoMass | smash/smash-main/src/scatteractionphoton.cc:312-336 | rho_mass, with the no_reaction exception as an error; RhoMassIsTheRho states which mass it is |
| PhotonReactions.IsKinematicallyPossible | smash/smash-main/src/scatteractionphoton.cc:153-188 | the chain of early returns of is_kinematically_possible; KinematicGateIff states when it holds |
| PhotonReactions.TotalCrossSectionValue | smash/smash-main/src/scatteractionphoton.cc:414-435 | the result is non-negative and keeps positive values; a raw 0 becomes the dummy 0.01 before the branch exists and is 0 exactly after it was created; a negative value becomes 0.1 |
| PhotonReactions.ZeroAfterCreation | smash/smash-main/src/scatteractionphoton.cc:414-425 | the branch flag changes the value exactly for a raw 0 |
| PhotonReactions.DiffCrossSectionValue | smash/smash-main/src/scatteractionphoton.cc:565-568 | non-negative values are kept, negative ones become 0.01 |
| PhotonReactions.ClampCosTheta | smash/smash-main/src/scatteractionphoton.cc:237-246 | cos(theta) is clamped into [-1, 1] and unchanged inside it |
| PhotonReactions.ScatterActionPhoton.constructor | smash/smash-main/src/scatteractionphoton.cc:26-34 | the reaction of the two incoming particles and the sampled outgoing mass |
| PhotonReactions.ScatterActionPhoton.TotalCrossSection | smash/smash-main/src/scatteractionphoton.cc:350-437 | an error for no_reaction (rho_mass throws), otherwise a non-negative value |
| PhotonReactions.ScatterActionPhoton.DiffCrossSection | smash/smash-main/src/scatteractionphoton.cc:502-569 | the differential value is non-negative |
| PhotonReactions.ScatterActionPhoton.CreateCollisionBranch | smash/smash-main/src/scatteractionphoton.cc:338-348 | one branch of hadron and photon with the total cross section computed before the flag is set, then the flag is set |
| PhotonReactions.ScatterActionPhoton.GenerateFinalState | smash/smash-main/src/scatteractionphoton.cc:190-246 | an error unless exactly one photon process exists; otherwise the pion first and the clamped cos(theta) |
| PhotonReactions.SwapKeepsReaction | smash/smash-main/src/scatteractionphoton.cc:45-48 | putting the pion first keeps the reaction type |
| InputKeys.MakeKey | smash/smash-main/src/include/smash/input_keys.h:93-117 | an error exactly for a version count other than 1 to 3; the labels and default are kept |
| InputKeys.MakeKeyVersions | smash/smash-main/src/include/smash/input_keys.h:104-113 | the versions are recovered in order from the key, and a removed key is deprecated |
| InputKeys.QueriesOfMadeKey | smash/smash-main/src/include/smash/input_keys.h:132-171 | deprecated iff 2 or more versions, allowed iff fewer than 3; each accessor fails exactly when its optional is empty and otherwise returns its version or default |
| InputKeys.IsDeprecated | smash/smash-main/src/include/smash/input_keys.h:164 | is_deprecated: a deprecation version is present; QueriesOfMadeKey relates it to the versions given |
| InputKeys.IsAllowed | smash/smash-main/src/include/smash/input_keys.h:171 | is_allowed: no removal version is present; QueriesOfMadeKey relates it to the versions given |
| InputKeys.DefaultValue | smash/smash-main/src/include/smash/input_keys.h:132 | default_value, with the empty optional as an error; QueriesOfMadeKey states when it is one |
| InputKeys.DeprecatedIn | smash/smash-main/src/include/smash/input_keys.h:148 | deprecated_in, with the empty optional as an error; QueriesOfMadeKey states which version it is |
| InputKeys.RemovedIn | smash/smash-main/src/include/smash/input_keys.h:157 | removed_in, with the empty optional as an error; QueriesOfMadeKey states which version it is |
| InputKeys.EqualRangesIff | smash/smash-main/src/include/smash/input_keys.h:181-184 | std::equal of the two ranges holds exactly when they are the same sequence |
| InputKeys.HasSameLabelsIff | smash/smash-main/src/include/smash/input_keys.h:181-184 | same length and equal label by label, in order |
| InputKeys.HasSameLabels | smash/smash-main/src/include/smash/input_keys.h:181-184 | has_same_labels as std::equal over both ranges; HasSameLabelsIff states it elementwise |
| InputKeys.KeyToString | smash/smash-main/src/include/smash/input_keys.h:192-194 | the string is quoted at both ends |
| InputKeys.JoinQuoteExamples | smash/smash-main/src/tests/stringfunctions.cc:59-71 | join and quote behave as their tests require |
| InputKeys.KeyToStringInjective | smash/smash-main/src/include/smash/input_keys.h:192-194 | for colon-free labels, keys convert to the same string exactly when they have the same labels |
| InputKeys.JoinInjective | smash/smash-main/src/include/smash/input_keys.h:192-194 | joining colon-free labels with ": " can be undone |
| InputKeys.Join | smash/smash-main/src/include/smash/input_keys.h:193 | join of the labels with a separator; JoinQuoteExamples and JoinInjective state its behaviour |
| InputKeys.Quote | smash/smash-main/src/include/smash/input_keys.h:193 | quote: the string between two double quotes; KeyToString and JoinQuoteExamples state its behaviour |
| ColliderModus.SelectEnergy | smash/smash-main/src/collidermodus.cc:83-204 | the seven option blocks and the count checks give exactly the specified energy selection |
| ColliderModus.TakeEnergyOption | smash/smash-main/src/collidermodus.cc:91-105 | one option block: an invalid value fails at once, otherwise the counter and the choice advance |
| ColliderModus.RemainingIsSelection | smash/smash-main/src/collidermodus.cc:83-204 | reading the seven blocks from the first, with nothing counted yet, gives exactly the declarative selection: the first invalid input is reported, otherwise no input, more than one, or the single one |
| ColliderModus.RemainingFromList | smash/smash-main/src/collidermodus.cc:91-194 | reading options k to 7 block by block is the same as checking the list of the inputs those options give |
| ColliderModus.ListIsSelection | smash/smash-main/src/collidermodus.cc:195-204 | checking inputs one at a time, counting and remembering the last, after a valid prefix, agrees with the selection over the whole list |
| ColliderModus.EnergyAcceptedIff | smash/smash-main/src/collidermodus.cc:195-204 | accepted exactly when one energy input is given and it is valid |
| ColliderModus.EnergySelection | smash/smash-main/src/collidermodus.cc:83-204 | the energy options read in order and the single accepted one, or the error; EnergyAcceptedIff and SelectEnergy state it |
| ColliderModus.OneSidedBeamIgnored | smash/smash-main/src/collidermodus.cc:151-194 | a per-beam energy given for the projectile only does not count |
| ColliderModus.DeformationAcceptedIff | smash/smash-main/src/collidermodus.cc:283-315 | accepted exactly when automatic comes without parameters, or manual has a beta and no gamma without beta 2 |
| ColliderModus.CreateDeformedNucleus | smash/smash-main/src/collidermodus.cc:283-315 | create_deformed_nucleus: automatic deformation or the manual parameters, or the error; DeformationAcceptedIff states when it succeeds |
| ColliderModus.MinMaxOf | smash/smash-main/src/collidermodus.cc:235-239 | minmax_element finds a least and a greatest element of the list |
| ColliderModus.ImpactSpec | smash/smash-main/src/collidermodus.cc:206-251 | the impact-parameter block: Value, else Sample with Range and Max; ReadImpact, ValueWins, MaxOverridesRange and CustomSamplingIff state it |
| ColliderModus.ReadImpact | smash/smash-main/src/collidermodus.cc:206-251 | the sequential overrides give exactly the specified impact settings |
| ColliderModus.ValueWins | smash/smash-main/src/collidermodus.cc:208-211 | a Value fixes impact, minimum and maximum |
| ColliderModus.MaxOverridesRange | smash/smash-main/src/collidermodus.cc:242-250 | a Max sets the minimum to 0 and overrides Range |
| ColliderModus.CustomSamplingIff | smash/smash-main/src/collidermodus.cc:216-240 | Custom sampling succeeds exactly with both lists of equal non-zero length, and then spans the given values |
| ColliderModus.CustomFilePathShape | smash/smash-main/src/collidermodus.cc:457-465 | the path starts with the directory and ends in '/' and the file name; a trailing '/' does not change it |
| ColliderModus.SameFileDetected | smash/smash-main/src/collidermodus.cc:467-491 | the same file given with and without a trailing '/' is detected as the same input file |
| ColliderModus.CustomFilePath | smash/smash-main/src/collidermodus.cc:457-465 | custom_file_path: the directory with a trailing slash added if missing, then the file name; CustomFilePathShape states its shape |
| ColliderModus.SameInputFile | smash/smash-main/src/collidermodus.cc:467-491 | same_inputfile: the projectile path equals the target path when the target has a Custom section; SameFileDetected states it |
| ColliderModus.SameFileReadsTargetCustomSection | smash/smash-main/src/collidermodus.cc:41-58 | the shared-file flag is set exactly for a Custom-only projectile whose path equals that of the target's Custom section, even when the target also has a Deformed section and is built deformed, and never when the target has no Custom section or the projectile is Deformed or not Custom |
| ColliderModus.InitialZDisplacement | smash/smash-main/src/collidermodus.cc:257-262 | the displacement is half the given distance |
| ColliderModus.ColliderSpec | smash/smash-main/src/collidermodus.cc:31-271 | the settings the constructor builds, or its first error; NewColliderModus and EmptyNucleusRejected state them |
| ColliderModus.NewColliderModus | smash/smash-main/src/collidermodus.cc:31-271 | the constructor's checks give exactly the specified settings or error |
| ColliderModus.EmptyNucleusRejected | smash/smash-main/src/collidermodus.cc:56-72 | an empty projectile, then an empty target, is rejected, and an accepted collider has both non-empty |
| OscarOutputs.CreationIff | smash/smash-main/src/oscaroutput.cc:788-892 | created exactly for a known format and content, except extended 1999 for dileptons, photons and initial conditions; a known format with unknown content is an unknown-content error |
| OscarOutputs.CreationFormat | smash/smash-main/src/oscaroutput.cc:788-892 | a created output has a 2013 format exactly for "Oscar2013", the extended one exactly with its flag; the no-extended-1999 warning is logged exactly for 1999, known content and the flag set |
| OscarOutputs.CreateOscarOutput | smash/smash-main/src/oscaroutput.cc:810-892 | create_oscar_output: the format check, then the content table; CreationIff and CreationFormat state what it creates |
| OscarOutputs.CreateSelectFormat | smash/smash-main/src/oscaroutput.cc:789-807 | create_select_format: the 2013, 2013 extended or 1999 format, falling back to 1999 with a warning; CreationFormat states it |
| OscarOutputs.SelfSelected | smash/smash-main/src/oscaroutput.cc:839-890 | the dilepton, photon and initial-conditions outputs, which pick the format themselves and for extended 1999 warn and create nothing (the unknown-content error follows); CreationIff and CreationFormat state it |
| OscarOutputs.ParticlesAndCollisions | smash/smash-main/src/oscaroutput.cc:817-838 | the contents and names of the particles and collisions outputs |
| OscarOutputs.FileNameSuffix | smash/smash-main/src/oscaroutput.cc:23-28 | the file name is the name followed by ".oscar1999" for the 1999 format and ".oscar" otherwise |
| OscarOutputs.FileName | smash/smash-main/src/oscaroutput.cc:23-28 | the output file name: the name, ".oscar", and "1999" for the 1999 format; FileNameSuffix states it |
| OscarOutputs.OscarOutput.constructor | smash/smash-main/src/oscaroutput.cc:23-28 | a new output with its file name and nothing written |
| OscarOutputs.OscarOutput.AtEventStart | smash/smash-main/src/oscaroutput.cc:125-147 | records the event number and appends the start blocks |
| OscarOutputs.OscarOutput.AtEventEnd | smash/smash-main/src/oscaroutput.cc:149-193 | appends the end blocks; warns exactly for an initial-conditions output with particles left and no kinematic cut |
| OscarOutputs.EventBlocks | smash/smash-main/src/oscaroutput.cc:129-180 | particles at the start exactly with AtEventstart and without ParticlesIC; at the end exactly when due; the closing line is always last and is the null interaction exactly in 1999 |
| OscarOutputs.StartBlocks | smash/smash-main/src/oscaroutput.cc:125-147 | the blocks at_eventstart writes; EventBlocks states when particles are written |
| OscarOutputs.EndBlocks | smash/smash-main/src/oscaroutput.cc:150-194 | the blocks at_eventend writes; EventBlocks states when particles and the end line are written |
| OscarOutputs.FactoryOutputsWrite | smash/smash-main/src/oscaroutput.cc:817-883 | the initial-conditions output never writes particles; the IfNotEmpty particles output writes them only at the end of non-empty events |

## Left out

- Floating point: all doubles are exact reals, so rounding in the bounding box, the cell counts and the cell index is not modelled.
- GridSizing.CbrtFloor: `std::cbrt` followed by the conversion to int is the exact integer cube root; a cube root that rounds just below an integer is not modelled.
- GridSizing.NudgedFactor: `std::nextafter(x, 0.)` is a parameter with the properties of one IEEE step toward zero (positive, below x, within x / 2^52); the IEEE representation is not modelled, and with exact reals the loop runs once.
- The product `nx * ny * nz` is an unbounded integer; a 32-bit overflow of the cell product is not modelled (each count is at most INT_MAX).
- The particle type: a particle is a position plus an identity; the eligibility test `xsec_scaling_factor(dt) > 0` is a parameter of the constructor.
- GridClass.Grid.NewGrid: the particles must lie inside the given box. Otherwise the source indexes `cells_` out of bounds, and its check for that exists only in debug builds.
- The logging in grid.cc, particledata.cc, scatteractionphoton.cc, collidermodus.cc and oscaroutput.cc, and the `operator<<` printers.
- `iterate_cells` callbacks are recorded as visits; what the callbacks do with the particle lists is not modelled.
- ParticleRecords: the `ProcessType` enumeration is taken from the cases `set_history` names; the `pow` of the interpolating branch of `xsec_scaling_factor` is a parameter.
- ParticleRecords.CreateValidParticle: the on-shell energy sqrt(p^2 + m^2) is a parameter with its defining property; the particle type lookup is a parameter.
- PhotonReactions: the analytic cross sections and form factors (crosssectionsphoton.h, formfactors.h) are a parameter; the mass sampling, weights, momenta and angles of the final state are not modelled.
- PhotonReactions.ScatterActionPhoton.TotalCrossSection: the `else throw` for an unknown mediator is unreachable, since MediatorType has only SUM, PION and OMEGA.
- The list of photon processes is filled by code that is not part of this model; the method AddPhotonProcesses stands for it.
- ColliderModus: the kinematics (`total_s_`, `sqrt_s_NN_`, `get_velocities`), `sample_impact`, `rotate_reaction_plane`, `initial_conditions`, the Fermi-motion and frame settings, and the construction of the nuclei themselves are not modelled.
- ColliderModus: the header defaults are not part of this model. The initial displacement default is a parameter; the impact parameter defaults to 0 with Quadratic sampling.
- ColliderModus.ReadImpact: Custom sampling with both lists given and empty is undefined behaviour in the source; the model reports EmptySpectrum. With only one list given, `take` throws (MissingKey).
- The Configuration class is not part of this model; `take` on a missing key is the MissingKey error.
- InputKeys: the key table and user-guide text of input_keys.h beyond class `Key` are not modelled; join and quote are defined by the behaviour their unit tests fix.
- OscarOutputs: the text of every line (`fprintf`), the header written by the constructor, `at_intermediate_time`, `at_interaction` and the particle line formats are not modelled; a particle is an identity.
- pdgcode.h, constants.h and ParticleType are not part of this model; the PDG codes, really_small = 1e-6 and the omega mass 0.783 GeV are written out.

## Findings

| source | as written | input that shows it | evidently intended | confidence | as-written member | corrected member |
|---|---|---|---|---|---|---|
| smash/smash-main/src/grid.cc:142-145 | normal mode sets max_cells = cbrt(particle_count), which is 0 for an empty list; under the particle-number limit an axis with length >= max_interaction_length then gets 0 cells, index_factor = 0 / length = 0, and `while (0 * length >= 0)` never ends, since nextafter(0, 0) is 0 | explicit-bounds constructor, Normal, Optimal, ParticleNumber, no particles, length 2, max_interaction_length 1 | at least one cell per axis in normal mode, as for every other particle count | not executed | GridSizing.EmptyNormalGridNeverStopsNudging | GridSizing.MaxCells |
