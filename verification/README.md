# Clearing, compilation, mediation and governance: a verified model

This project models four cores of the payment system and proves what they promise, over every input and
every run.

**Clearing and netting.** `netting.dfy` and `netting_methods.dfy` turn a list of obligations into bilateral
pair nets or multilateral positions per asset and scale, with the dictionary loops, the first-seen order of
the pairs, the issued ordinals, the record guards and the optional valuation. `clearing_spec.dfy` is the
clearing engine as a state machine: eighteen commands, the handlers, and the kernel pipeline (command-id
reuse, actor, expected versions, handler, declared targets, version chain, journal). `clearing_engine.dfy` is
the engine as the object it is: `records` and its insertion order, the kernel's `store`, `journal` and
command-id table, and the `transitions` log, updated in place by `Submit`, `RestoreState` and the journal fold.
The laws are in `netting_laws`, `netting_optimum`, `netting_statement_laws`, `netting_order` and the other `clearing_*` files.
What a statement, a command or an engine step comes out as is also stated field by field, from the inputs alone:
`member_totals.dfy`, `netting_valuation.dfy` and `netting_exact.dfy` for netting, `clearing_effects.dfy` for what each
command writes, `clearing_kernel.dfy` for verdicts and state, `clearing_accounts.dfy` for the amounts booked;
`clearing_examples.dfy` runs the engine, command by command, to the states they speak of.

**The fulfillment compiler.** Routes (`routing.dfy`), exact FX execution (`chains.dfy`), gates (`gates.dfy`),
payment shapes (`shapes.dfy`, `combinations.dfy`), and the pipeline with its accounting gate, metrics and
ranking (`compile.dfy`, `compile_methods.dfy`). `plan_records.dfy` shows which check of the plan record's
constructors can fail. `execution_exact.dfy`, `compile_exact.dfy` and `compile_order.dfy` say over the records' own
fields what a payment reports, which shapes are feasible and which of two shapes the compiler prefers.
`compile_laws.dfy` proves that the result is the strict
minimum over a space stated without any enumeration; `compile_robustness.dfy` proves what the result does not
depend on; `compile_sharing.dfy` and `compile_scales.dfy` say exactly when capacity and scales hold up, and
`compile_examples.dfy` holds valid inputs where they do not.

**Mediation.** Rank points, selection, tie flag and rationale (`mediation.dfy`), their laws
(`mediation_laws.dfy`), and the decision book that re-derives every decision it records (`decisions.dfy`).

**Dependency graph check.** Kahn's loop (`governance.dfy`) and the layering loop (`layering.dfy`).

Methods carry the loops of the source and are proved equal to specification functions of the same file group
(`Netting.NettingResult`, `ClearingSpec.Handle`, `Compiler.Compile`, `Mediation.Evaluate`, ...); the lemmas
then prove the promised properties of those functions, and for the clearing engine of every run of them.
Identifiers are an opaque type, time is an integer, and a digest is an injective function of what it covers:
the statement digest carries the statement itself, the plan digest is a function parameter of the compiler.

## Where the code and its own words part

The model follows the code. Each point below is a theorem.

- Netting errors ask the caller to recalculate, but calculation is legal only from OPEN
  (`src/clearing/contracts.py:369`). A stale calculated cycle can only be cancelled:
  `ClearingStaleness.StaleNeverFinalizes`.
- Finalization rebuilds the valuation inputs with one rate per converted asset
  (`src/clearing/engine.py:1346-1360`). If two assets share a currency other than the base, the rebuilt
  inputs are refused (`src/clearing/netting.py:665-668`), so the cycle calculates and never finalizes.
  `ClearingStaleness.SharedCurrencyExample` is an input, `ClearingExamples.SharedCurrencyReached` a run to it;
  `ClearingFinalizable.FinalizesExactlyWhenFresh` states the exact condition for all inputs.
- Bilateral pairs are sorted by the direction seen first (`src/clearing/netting.py:768-808`), so the order in
  which members were added can move entries, and with them the issued ids; a pair that offsets fully is recorded
  in its first-seen direction (`src/clearing/netting.py:784-800`). `NettingOrder.OrderFreeExactly` says exactly when
  no order matters: every pair that trades both ways in a group has unequal totals there, and no direction traded
  by another pair of the group lies between its two directions. `NettingOrder.IssuedIdsDependOnOrder` and
  `NettingOrder.ZeroNetDirectionDependsOnOrder` are members that fail it. Amounts, counts and the direction of
  every pair with a nonzero net never depend on order: `NettingOrder.BilateralEntriesOrderFree`.
- Dispute is listed as legal from RESTRUCTURED (`src/clearing/contracts.py:347-354`), but the earlier dispute
  is still on the record, so it is always refused (`src/clearing/engine.py:1094`):
  `ClearingLifecycle.DisputedOnce` states exactly when a dispute is accepted.
- The shape documentation says capacity is consumed once (`src/compiler/shapes.py:11-12`). Capacity is
  checked per execution (`src/compiler/optimization.py:285-298`). `CompilerExamples.SharedHopDrawsTwice` is a valid
  input whose plan draws 20 from a hop with capacity 10. For all inputs: a hop is drawn on by exactly what the
  payments through it bring (`HopSharing.DrawExactly`), which is within capacity when no two of them share a hop
  (`HopSharing.DisjointWithinCapacity`), at most capacity times their number otherwise
  (`HopSharing.DrawBounded`), and for a hop that leaves the intent asset exceeds it exactly when the parts routed
  through it add up to more (`HopSharing.SourceHopDraw`). An input that allows one payment, or whose feasible routes
  share no hop, keeps every capacity (`HopSharing.CapacityKept`); an input whose routes do share one may keep it too.
- If a split has more parts than the intent has minor units, the zero part makes route execution raise
  (`src/compiler/candidates.py:127`), and the whole compilation fails even when a smaller shape would
  do: `CompilerExamples.SmallerShapeLost` is such an input, and `CompilerLaws.CompilesExactlyWhen` has the condition.
- The scale of a passthrough hop, and the scales at which two hops quote a currency that is not in the
  currency table, are never compared (`src/compiler/candidates.py:120-123`,
  `src/compiler/inputs.py:244-278`): `CompilerExamples.UnlistedScalesMayDisagree` is a valid input. Every considered
  route hands over matching scales if and only if the offers that join at an asset outside the table quote it at one
  scale and passthrough offers of the intent asset quote the intent's scale: `RouteScales.RoutesChainExactly`.
- Calculating a statement does not reserve the ids it would issue (`src/clearing/engine.py:1391-1415`,
  `src/transition/store.py:68-74`). A record made under one of them first keeps even a fresh statement from ever being
  finalized: `ClearingTakenIds.TakenNeverFinalizes`, `ClearingTakenIds.IssuedIdsNotReserved`, and on a run from the
  empty engine `ClearingExamples.FinalizesUnlessTaken`.
- The compiler accepts an input, ranks a best shape and only then may have its own plan refused: the plan's totals must
  not be negative (`src/compiler/plan.py:334-352`), and a completion before the epoch is. `PlanRecords.RecordExactly`
  shows that no other check of the plan record can fail; `CompilerExamples.CompilableButRefused` is an input.

## Model

| member | source | states |
|---|---|---|
| Money.RoundMonotone | src/money/rounding.py:27-70 | every rounding mode is monotone in the numerator |
| Money.RoundClose | src/money/rounding.py:27-70 | rounding moves the exact value by less than one unit, half-even by at most half a unit, floor never upward, and exact quotients not at all |
| Money.RoundsExactly | src/money/rounding.py:27-70 | a quotient is the rounded one if and only if it lies on the side, and within the bound, that the mode asks for, ties included; for all six modes |
| Money.PowersOfTen | src/money/fx.py:270-304 | the scale factor is the power of ten: one, ten, and multiplicative |
| Money.ConvertConserves | src/money/fx.py:270-304 | converted value plus residual is the exact value, and the residual is smaller than one unit |
| Money.ConvertMonotone | src/money/fx.py:270-304 | a larger source amount never converts to less |
| Money.AllocateEqualExact | src/money/allocation.py:47-63 | an equal split sums to the amount, is level to one unit, and the larger parts come first |
| Money.AllocateEqualZero | src/money/allocation.py:47-63 | some part is zero exactly when there are more parts than units |
| Tally.Accumulate | src/clearing/netting.py:760-767 | the get-and-add dictionary loop keeps keys in first-seen order and the exact total of every key |
| Tally.FirstSeenOrder | src/clearing/netting.py:760-767 | the keys stand in the order of their first occurrence |
| NettingMethods.GroupMembers | src/clearing/netting.py:735-739 | the grouping dictionary holds, per (asset, scale) in first-seen order, exactly the members of that key in member order |
| NettingMethods.VetMembers | src/clearing/netting.py:720-733 | the first member that is not nettable or repeats an id is reported |
| NettingMethods.OffsetDirections | src/clearing/netting.py:768-786 | the offsetting loop keeps, per unordered pair, the direction seen first, the first total less the reverse total, and the sum of both counts |
| NettingMethods.NumberPairs | src/clearing/netting.py:784-810 | pairs turn into their dominant direction and positive ones take the next ordinals, in canonical order |
| NettingMethods.BilateralPairs | src/clearing/netting.py:756-812 | the dictionary loops compute the net of every pair directly from the flows |
| NettingMethods.MultilateralPositions | src/clearing/netting.py:823-835 | the position loop carries the nonzero signed positions in participant order |
| NettingMethods.BuildGroups | src/clearing/netting.py:752-858 | groups are built over the sorted keys with one running ordinal, and building stops exactly when a group record is refused |
| NettingMethods.ComputeValuation | src/clearing/netting.py:870-941 | the valuation loop equals the specification, the first group that cannot be converted included; `NettingValuations.ValuationExactly` says what it returns |
| NettingMethods.ComputeNettingStatement | src/clearing/netting.py:702-867 | the whole computation, for every member list, mode and declared valuation, equals the specification; `NettingExact.StatementExactly` says what it returns |
| NettingMath.PositionByPairs | src/clearing/netting.py:768-786 | a participant's signed position is the sum of its net pair flows |
| NettingMath.OffsetByPairs | src/clearing/netting.py:23-33 | gross is the pairwise net total plus twice the smaller direction of every pair |
| NettingMath.PositionsConserve | src/clearing/netting.py:835-838 | positions sum to zero |
| NettingMath.FundingIsLeast | src/clearing/netting.py:23-33 | the sum of positive positions is at most the gross of any positive claims with the same positions |
| NettingLaws.BilateralPreservesPositions | src/clearing/netting.py:752-820 | the issued claims give every participant the same signed position as the originals |
| NettingLaws.BilateralReduction | src/clearing/netting.py:811-820 | the net total is the gross of the issued claims, and the reduction is exactly twice the smaller direction of every pair |
| NettingLaws.BilateralEntry | src/clearing/netting.py:787-812 | each entry's value is the absolute difference of the two flows, in the dominant direction, with the exact count of resolved members, and an id exactly when positive |
| NettingLaws.BilateralEntriesExact | src/clearing/netting.py:768-812 | one entry per unordered pair that trades: none repeated, none missing |
| NettingLaws.BilateralFixedPoint | src/clearing/netting.py:1109-1145 | netting the issued claims again reduces nothing and returns the same claims |
| NettingLaws.CarriedExact | src/clearing/netting.py:830-835 | the carried positions are exactly the nonzero positions, strictly ascending by participant |
| NettingLaws.MultilateralOptimal | src/clearing/netting.py:821-848 | positions sum to zero and the net total is at most the gross of any positive claims with the same positions |
| NettingOptimum.Settle | src/clearing/netting.py:821-848 | any balanced positions are settled by positive claims whose gross is the sum of the positive positions |
| NettingOptimum.MultilateralMinimum | src/clearing/netting.py:821-848 | the net total is attained by some claims with the same positions and undercut by none: it is the minimum |
| NettingLaws.MultilateralBelowBilateral | src/clearing/netting.py:23-33 | multilateral net is at most bilateral net, which is at most gross |
| NettingLaws.MultilateralByPositions | src/clearing/netting.py:821-848 | claims with equal positions have the same multilateral outcome |
| NettingLaws.NettingComposes | src/clearing/netting.py:1109-1145 | netting the bilaterally issued claims multilaterally gives the positions and net total of the originals |
| NettingStatementLaws.AcceptableResult | src/clearing/netting.py:460-484 | unacceptable members are refused for themselves and never by a record guard; for acceptable ones the guards can be dropped from the computation |
| NettingStatementLaws.GuardsNeverFire | src/clearing/netting.py:528-581 | without valuation a statement is returned if and only if members are present, nettable and distinct |
| NettingStatementLaws.ValuationNeverIncreases | src/clearing/netting.py:388-422 | a computed valuation passes its guards and never values the net above the gross, in any rounding mode; how each leg is converted is `NettingValuations.ConvertsExactly` |
| NettingStatementLaws.ValuedNetting | src/clearing/netting.py:870-941 | with valuation a statement is returned if and only if members are acceptable and every group converts; no guard ever fires |
| NettingValuations.ConvertsExactly | src/clearing/netting.py:870-941 | a group converts to a conversion if and only if that takes the declared currency at the group's scale and its rate, and gross and net leg are each, from their own source, target times denominator plus residual with the target rounded in the declared mode, or unchanged in the base currency |
| NettingValuations.ConvertsWhen | src/clearing/netting.py:870-941 | a group converts if and only if its asset is quoted: a declared currency at its scale that is the base or has a rate |
| NettingValuations.ValuationExactly | src/clearing/netting.py:870-941 | a valuation is returned if and only if it holds one such conversion per group, in order, and base totals that are their sums |
| NettingExact.StatementExactly | src/clearing/netting.py:702-867 | every field of a returned statement from the members alone: bindings, one group per asset and scale in ascending order, gross, pair entries with amount, direction, count and order, positions, issued ids one, two, three, totals and valuation |
| NettingExact.RefusedExactly | src/clearing/netting.py:720-733 | members are refused for an error if and only if the first member that is not nettable or repeats an id has that error |
| NettingStatementLaws.IssuedIdsConsecutive | src/clearing/netting.py:750-812 | positive pairs are numbered one, two, three, ... across all groups |
| NettingOrder.MultilateralOrderFree | src/clearing/netting.py:821-848 | the multilateral groups do not depend on member order |
| NettingOrder.BilateralEntriesOrderFree | src/clearing/netting.py:756-812 | in every order a pair keeps its amount, its count, whether it issues, and, unless it offsets fully, its direction |
| NettingOrder.SafeGroup | src/clearing/netting.py:768-812 | a group that meets the condition nets to the same entries, directions and ids whatever order its totals came in |
| NettingOrder.UnsafeDiffers | src/clearing/netting.py:768-812 | a group that fails it has two orders of the members with different entries |
| NettingOrder.OrderFreeExactly | src/clearing/netting.py:754-820 | bilateral groups, ids included, are the same in every member order if and only if each pair that trades both ways has unequal totals and no direction traded by another pair lies between its two |
| NettingOrder.OneWayOrderFree | src/clearing/netting.py:754-820 | in particular when no pair of a group trades both ways |
| NettingOrder.IssuedIdsDependOnOrder | src/clearing/netting.py:768-808 | three members whose statement gives the first issued id to a different pair when two of them are swapped |
| NettingOrder.ZeroNetDirectionDependsOnOrder | src/clearing/netting.py:784-800 | two members that offset fully are recorded in the direction of whichever came first |
| ClearingStatements.ComputeClearingStatement | src/clearing/cycle.py:369-412 | the gross loop equals the specification, and every entry names its own parties, asset, scale and gross |
| ClearingStatements.StatementExactly | src/clearing/cycle.py:369-412 | a statement is the computed one if and only if its time and member count are the given ones and, in ascending order, it has exactly one entry per asset and scale and per obligor, obligee, asset and scale that some member has, each with the sum of the members' amounts |
| ClearingStatements.StatementFeedsNetting | src/clearing/cycle.py:369-412 | the cleared totals are what netting starts from: the same groups with the same gross, and each directed pair gross is the flow netting offsets between the parties the entry names |
| ClearingLifecycle.ObligationCommandsStep | src/clearing/engine.py:1049-1207 | every accepted obligation command takes one legal step of its target and keeps its identity; the fields it writes are in the rows of `ClearingEffects` |
| ClearingLifecycle.FactChecksNeverRefuse | src/clearing/obligations.py:616-637 | the state-fact checks refuse no handler step; the only refused record has a new amount that is not positive or in another asset |
| ClearingLifecycle.DisputedOnce | src/clearing/engine.py:1085-1110 | a dispute is accepted exactly from a validated state without an earlier dispute; from RESTRUCTURED it is listed but always refused |
| ClearingLifecycle.NettingResolves | src/clearing/engine.py:1375-1389 | a member resolved by netting stays lawful, keeps its identity and amount, and moves strictly down the progress measure |
| ClearingEffects.RecognitionExactly | src/clearing/engine.py:988-1047 | what recognition accepts and the obligation and cycle records it writes, field by field |
| ClearingEffects.ValidationExactly | src/clearing/engine.py:1049-1062 | validation is accepted, with given records, if and only if the target was recognized and only state and version change |
| ClearingEffects.AmendmentExactly | src/clearing/engine.py:1064-1083 | likewise for an amendment: amount and window are the payload's where given and the old ones otherwise, the marker is the time, everything else stays |
| ClearingEffects.DisputeExactly | src/clearing/engine.py:1085-1110 | likewise for a dispute and its marker |
| ClearingEffects.RestructureExactly | src/clearing/engine.py:1112-1142 | likewise for a restructure: new terms from the payload, its marker set and the due marker cleared |
| ClearingEffects.MarkDueExactly | src/clearing/engine.py:1144-1166 | likewise for marking due, which needs the time to have reached the start of the window |
| ClearingEffects.DefaultExactly | src/clearing/engine.py:1168-1189 | likewise for a default |
| ClearingEffects.ResolutionExactly | src/clearing/engine.py:1191-1207 | likewise for a resolution and what it refers to |
| ClearingEffects.CycleFinalizationExactly | src/clearing/engine.py:922-938 | a cycle finalizes if and only if it is validated, has members, and all have passed validation; it then holds the clearing statement of exactly those members |
| ClearingEffects.AdditionExactly | src/clearing/engine.py:1230-1263 | a member is added if and only if it is settled, cleared, held by no live cycle, not issued by this one and not yet a member; it goes last |
| ClearingEffects.RemovalExactly | src/clearing/engine.py:1265-1283 | a member is removed if and only if it is one, and the others keep their order |
| ClearingEffects.CalculationExactly | src/clearing/engine.py:1285-1305 | calculation succeeds if and only if the cycle is open, has members, all are nettable and, with a valuation, quoted; what is stored is the statement `NettingExact.StatementExactly` describes |
| ClearingEffects.FinalizationExactly | src/clearing/engine.py:1307-1421 | when a calculated cycle finalizes, and the resolved members and issued obligations it then writes, field by field |
| ClearingEffects.CommandsDo | src/clearing/engine.py:891-1434 | for all eighteen commands on a lawful index: a handler succeeds if and only if some such effect exists, and what it returns is one |
| ClearingInvariants.ObligationStepKeeps | src/clearing/engine.py:1049-1207 | a legal obligation step keeps the invariant of the index: lawful obligations, cycle-cleared and exclusive members, calculated statements that are stale or derived, finalized statements that resolved exactly their members |
| ClearingInvariants.CycleStepKeeps | src/clearing/engine.py:891-947 | creating or advancing a clearing cycle keeps the invariant |
| ClearingInvariants.RecognitionKeeps | src/clearing/engine.py:988-1047 | recognizing an obligation under a fresh id keeps the invariant |
| ClearingInvariants.NettingEditKeeps | src/clearing/engine.py:1209-1305 | creating, adding, removing, calculating and cancelling keep the invariant |
| ClearingInvariants.CalculateEdits | src/clearing/engine.py:1285-1305 | an accepted calculation replaces one open cycle by one whose statement binds exactly its members, at versions the index has, and is what the computation returns for them |
| ClearingInvariants.AddEdits | src/clearing/engine.py:1230-1263 | an accepted addition leaves a cycle whose members are all cycle-cleared and held by no other live cycle |
| ClearingFinalize.FinalizeApplies | src/clearing/engine.py:1307-1421 | an accepted finalization changes the index exactly so: the cycle is finalized, each bound member is resolved by it, and the issued obligations appear under ids that did not exist |
| ClearingFinalize.FinalizeKeeps | src/clearing/engine.py:1307-1421 | finalization keeps the invariant |
| ClearingRuns.AcceptedKeeps | src/clearing/engine.py:1436-1488 | whichever of the eighteen commands is accepted, the invariant is kept |
| ClearingRuns.RunKeeps | src/clearing/engine.py:374-390 | every run of commands, accepted or refused, keeps the invariant, the store agreement and the journal agreement |
| ClearingRuns.ReplayAgreement | src/clearing/engine.py:1436-1488 | on every reachable state the journal fold is the live index, in order, and each (id, version) pair denotes one record for all time |
| ClearingRuns.NettedAtMostOnce | src/clearing/engine.py:464-491 | an obligation is in at most one live and at most one finalized netting cycle, never in both; it is resolved by netting exactly when it is in the finalized cycle its resolution names, with that statement's digest; every member is issued or cycle-cleared |
| ClearingKernel.ExpectedExactly | src/transition/engine.py:548-574 | declared versions pass if and only if each is met, and a rejection names the first that is not, and why |
| ClearingKernel.AcceptedMeans | src/transition/engine.py:453-663 | an accepted command was unseen, from a known actor, met every declared version, did what its payload says, and wrote distinct declared objects, each at its next version and in its own family |
| ClearingKernel.AcceptedWhen | src/transition/engine.py:453-663 | an admitted command that has an effect is accepted when its effects keep to that |
| ClearingKernel.RejectedExactly | src/transition/engine.py:453-574 | the exact condition for a duplicate and for every rejection reason |
| ClearingKernel.NextExactly | src/transition/engine.py:604-663 | what store, index, order, journal and command-id table hold after each kind of outcome, entry by entry |
| ClearingProgress.AcceptedMoves | src/clearing/engine.py:1049-1207 | how any accepted command may move any obligation: unchanged, created fresh, or strictly down the progress measure unless it is an amendment |
| ClearingProgress.BoundedLife | src/clearing/contracts.py:334-364 | in every run an obligation takes at most six transitions other than amendments, at most one dispute, and always satisfies its state facts |
| ClearingProgress.TerminalForever | src/clearing/contracts.py:334-364 | a defaulted or resolved obligation never changes again |
| ClearingStaleness.Rederives | src/clearing/engine.py:1340-1373 | re-derivation with the rebuilt inputs reproduces the statement whenever they are accepted, which is exactly when no two converted assets share a currency |
| ClearingStaleness.SharedCurrencyExample | src/clearing/engine.py:1346-1360 | two members in assets of one currency: their valued statement is computed, its rebuilt inputs are refused, and finalizing it is refused in every index |
| ClearingExamples.SharedCurrencyReached | src/clearing/engine.py:1346-1360 | a run from the empty engine reaches such a statement, with fresh members and unused ids, and no continuation finalizes it |
| ClearingStaleness.CalculatedFate | src/clearing/contracts.py:365-376 | one command leaves a calculated cycle as it is, cancels it, or is its own finalization |
| ClearingStaleness.DoomedRefused | src/clearing/engine.py:1307-1373 | finalizing a stale statement, or one whose inputs cannot be rebuilt, is refused |
| ClearingStaleness.StaleNeverFinalizes | src/clearing/engine.py:1307-1373 | once a statement is stale or its inputs cannot be rebuilt, every continuation leaves the cycle calculated or cancels it |
| ClearingFinalizable.FinalizesExactlyWhenFresh | src/clearing/engine.py:1307-1421 | a properly addressed finalize command is accepted if and only if all members keep their bound versions, no two converted assets share a currency, and the ids to issue are unused |
| ClearingTakenIds.TakenNeverFinalizes | src/transition/store.py:68-74 | once an id the statement would issue is in use, every continuation leaves the cycle calculated or cancels it |
| ClearingTakenIds.IssuedIdsNotReserved | src/clearing/engine.py:891-913 | one accepted command puts such an id in use, however fresh the statement is |
| ClearingExamples.FinalizesUnlessTaken | src/clearing/engine.py:1391-1415 | a state reached from the empty engine in which finalizing would be accepted, and in which opening a cycle under an id the statement would issue is accepted and rules finalizing out for good |
| ClearingConservation.AcceptedBooks | src/clearing/engine.py:988-1421 | every accepted batch changes a participant's live position by exactly what its command type books |
| ClearingConservation.StatementHandsOn | src/clearing/engine.py:1375-1405 | what a statement issues plus what it carries is, for every participant and key, the position of its members |
| ClearingConservation.FinalizationByMode | src/clearing/engine.py:1307-1421 | a bilateral finalization changes no position; a multilateral one removes exactly the members' position |
| ClearingConservation.ConservationOverRuns | src/clearing/engine.py:988-1421 | over every run: live position = recognized + amendment and restructure deltas - resolved - defaulted - carried by finalized statements |
| ClearingAccounts.AccountsMove | src/clearing/engine.py:988-1421 | an accepted command moves the account of its own type by what its payload says, for amend and restructure by the payload's amount less the old one, and no other account; the account of netting finalizations is in `ClearingConservation.FinalizationByMode` |
| ClearingSnapshots.RestoreAfterSnapshot | src/clearing/engine.py:1493-1551 | on every reachable state a snapshot passes the restore checks and restores that state |
| ClearingSnapshots.SnapshotUnique | src/clearing/engine.py:1493-1504 | a state has one snapshot, so restoring one and taking another reproduces it |
| ClearingSnapshots.RestoreIsSound | src/clearing/engine.py:1506-1551 | any snapshot that passes the checks restores an index keyed by its own ids, in order, and agreeing with the store |
| ClearingSnapshots.RestoresExactly | src/clearing/engine.py:1506-1551 | a snapshot passes if and only if every record is lawful and stored under its own id with its own version and state, no object is stored twice and no command id is journalled twice |
| ClearingSnapshots.RestoredMeans | src/clearing/engine.py:1506-1551 | what is restored, entry by entry: index, order, store, journal and command ids are the snapshot's |
| ClearingSnapshots.RebuildsExactly | src/clearing/engine.py:1554-1591 | a journal is accepted if and only if its records are lawful and no command id repeats |
| ClearingSnapshots.RebuildAgrees | src/clearing/engine.py:1553-1591 | rebuilding from the journal of any reachable state gives that state, except that command ids are forgotten |
| ClearingEngines.ClearingEngine.constructor | src/clearing/engine.py:213-237 | a new engine is the empty state with an empty decision log |
| ClearingEngines.ClearingEngine.RequireExclusivity | src/clearing/engine.py:476-491 | the scan over the records finds a live cycle exactly when one holds the obligation |
| ClearingEngines.ClearingEngine.CollectMembers | src/clearing/engine.py:493-494 | the members in order, or the first unknown one |
| ClearingEngines.ClearingEngine.Addition | src/clearing/engine.py:1230-1263 | the checks of an addition in the source's order |
| ClearingEngines.ClearingEngine.Calculation | src/clearing/engine.py:1285-1305 | calculation over the collected members through the netting loops |
| ClearingEngines.ClearingEngine.Finalization | src/clearing/engine.py:1307-1421 | binding, re-derivation, comparison, resolution and issuance, through their loops |
| ClearingEngines.ClearingEngine.Dispatch | src/clearing/engine.py:255-284 | the handler registered for each of the eighteen command types; what each does is `ClearingEffects.CommandsDo` |
| ClearingEngines.ClearingEngine.CheckPreconditions | src/transition/engine.py:548-574 | the first declared version the store does not meet decides the rejection |
| ClearingEngines.ClearingEngine.CommitStore | src/transition/store.py:48-92 | all or nothing: the batch is published exactly when it is non-empty, distinct and advances every version chain by one |
| ClearingEngines.ClearingEngine.Process | src/transition/engine.py:453-663 | the pipeline in its order, and the exact new store, journal and command-id table for each outcome |
| ClearingEngines.ClearingEngine.StoreRecord | src/clearing/engine.py:427-428 | one index entry is replaced in place or appended; nothing else changes |
| ClearingEngines.ClearingEngine.ApplyEvent | src/clearing/engine.py:1443-1488 | a committed event is applied record by record |
| ClearingEngines.ClearingEngine.Submit | src/clearing/engine.py:374-390 | the whole new state is the step function of the old one; an acceptance did what the command says and committed, indexed and journalled exactly that; a rejection is only remembered; a duplicate is only logged; a raised error changes nothing at all; the invariant is kept |
| ClearingEngines.ClearingEngine.SnapshotState | src/clearing/engine.py:1493-1504 | the index in insertion order, the journal, and the stored envelopes in id order |
| ClearingEngines.ClearingEngine.RestoreState | src/clearing/engine.py:1506-1551 | a snapshot is checked entirely before anything changes; a refusal leaves the engine as it was |
| ClearingEngines.ClearingEngine.RebuildFromJournal | src/clearing/engine.py:1553-1591 | the journal fold gives the rebuilt state, with no decision log and no remembered command ids |
| Routing.GroupBySource | src/compiler/routing.py:52-57 | the dictionary loop collects the offers of every source asset, each group sorted by hop id |
| Routing.Extend | src/compiler/routing.py:74-106 | the depth-first recursion appends exactly the extensions of its prefix |
| Routing.EnumerateRoutes | src/compiler/routing.py:29-71 | the search followed by the in-place sort is the specified enumeration |
| Routing.RoutesExact | src/compiler/routing.py:29-106 | a route is enumerated if and only if it is a chained path of at most the hop limit from the source back to it, through distinct allowed intermediates |
| RoutingLaws.RoutesAscend | src/compiler/routing.py:42-71 | the enumeration is strictly ascending by length and hop ids, hence free of duplicates |
| RoutingLaws.RouteOrderMeans | src/compiler/routing.py:53-71 | a route is before another if and only if it is shorter, or as long and has the smaller hop id at the first position where they differ |
| RoutingLaws.RoutesCanonical | src/compiler/routing.py:42-71 | any ordered listing of exactly the simple routes is the enumeration |
| RoutingLaws.RoutesOrderFree | src/compiler/routing.py:53-71 | offers in another order give the same routes in the same order |
| RoutingLaws.PassthroughAlone | src/compiler/routing.py:87-96 | a passthrough hop occurs only in a one-hop route, and no hop occurs twice |
| RoutingLaws.AssetSimple | src/compiler/routing.py:93-106 | no asset is left twice, and every asset between is an allowed intermediate |
| Chains.ExecuteHops | src/compiler/candidates.py:130-147 | the running-value loop delivers what the recursive execution says |
| Chains.RouteCostInBase | src/compiler/candidates.py:164-199 | the suffix-product loop computes the specified cost |
| Chains.ExecuteRoute | src/compiler/candidates.py:117-161 | delivery, cost, latency, reliability, risk, capital time and liquidity of a route |
| ChainLaws.DeliveryBounds | src/compiler/candidates.py:53-97 | delivery is at most the exact rational product and falls short by at most the sum of the suffix rates, strictly when the last hop converts |
| ChainLaws.DeliveryMonotone | src/compiler/candidates.py:117-161 | paying more never delivers less |
| ChainLaws.DeliverySuperadditive | src/compiler/candidates.py:117-161 | splitting a payment over one route never delivers more |
| ChainLaws.DeliveryNonNegative | src/compiler/candidates.py:117-161 | a non-negative payment has non-negative inputs, outputs and fees at every hop |
| ChainLaws.RoundTripNeverGains | src/compiler/candidates.py:53-97 | a route out and back at the reciprocal rates never returns more than was sent |
| ChainCosts.ScaledSuffix | src/compiler/candidates.py:164-199 | the integer fraction used for the cost is exactly the product of the suffix rates, scales included |
| ChainCosts.ReportedCostClose | src/compiler/candidates.py:164-199 | the reported cost is within half a unit per hop of the exact fees carried to the base asset |
| ExecutionExact.HopExecutesExactly | src/compiler/candidates.py:53-97 | a hop's input, output, residual and fee: passed on or converted downward, the basis-point fee rounded downward plus the flat fee |
| ExecutionExact.RouteExecutesExactly | src/compiler/candidates.py:117-161 | a list is the execution of a route if and only if every hop takes what the one before put out and executes so |
| ExecutionExact.PaymentReports | src/compiler/candidates.py:117-199 | everything else a payment reports, from the offers: cost hop by hop with its one rounding, latency, capital time, reliability, utilization, risk and intermediaries |
| Gates.FirstFailing | src/compiler/optimization.py:128-150 | no rejection exactly when all four gates pass; otherwise the named gate fails and every earlier one passes |
| Gates.OneFirst | src/compiler/optimization.py:128-150 | the rejecting gate is unique |
| CompilerExact.GatesExactly | src/compiler/optimization.py:128-261 | which gate stops a route, over the fields of offers, policy, slack and intent |
| Gates.EvaluateRoute | src/compiler/optimization.py:128-261 | the early-return scans of the four gates report the first failing gate |
| Gates.FailingHopPoisons | src/compiler/optimization.py:128-261 | a hop that fails a per-hop compliance, authority, safety or window check makes every route through it infeasible |
| Combinations.SubsetsExact | src/compiler/shapes.py:107-113 | over an ascending list the k-combinations are exactly the ascending selections of size k |
| Combinations.SubsetsCount | src/compiler/shapes.py:92-106 | there are as many k-combinations as the binomial coefficient says |
| Combinations.SubsetsNoDup | src/compiler/shapes.py:107-113 | no combination occurs twice |
| Combinations.BinomialFormula | src/compiler/shapes.py:122-125 | the recursion is the factorial formula |
| Shapes.EnumerateShapes | src/compiler/shapes.py:72-119 | the counting loop, the bound, the splitting loop and the sort equal the specified enumeration |
| Shapes.AllShapesExact | src/compiler/shapes.py:107-119 | a shape is enumerated if and only if its routes are an ascending selection of at most k feasible routes and its amounts are the equal split |
| Shapes.AllShapesCount | src/compiler/shapes.py:92-106 | the number of shapes is the sum of binomials that the bound is checked against |
| Shapes.AllShapesNoDup | src/compiler/shapes.py:107-119 | no shape occurs twice |
| Shapes.SplitIsExact | src/compiler/shapes.py:107-113 | parts sum to the intent amount and differ by at most one unit |
| Shapes.ZeroPartExactly | src/compiler/candidates.py:127 | a shape has an empty payment exactly when it has more payments than minor units |
| Shapes.ProjectInjective | src/compiler/shapes.py:62-69 | different routing decisions have different digest projections |
| CompilerMethods.GateRoutes | src/compiler/compile.py:115-124 | the gate loop keeps the feasible routes in order and counts each rejection under its first failing gate |
| CompilerMethods.EvaluateAccounting | src/compiler/optimization.py:272-315 | the accounting gate: fill window and capacity of every execution, funding when all sources are capped, delivery within slack |
| CompilerMethods.ShapeMetrics | src/compiler/optimization.py:318-351 | the metric loops compute the specified totals |
| CompilerMethods.EvaluateShapes | src/compiler/compile.py:143-170 | the shape loop keeps the candidates that pass accounting, and stops the compilation at the first empty payment |
| CompilerMethods.RankFeasible | src/compiler/optimization.py:397-418 | enumeration, evaluation and ranking of the feasible candidates, or why there is none; nothing is preferred to what stands before it, in the sense of `CompilerOrder.BetterExactly` |
| CompilerMethods.CompileFulfillment | src/compiler/compile.py:84-218 | the whole pipeline with its loops, failures included, equals the specification; a returned plan pays by the first of the ranking, lists the next two, and reports what it pays and counts |
| CompilerLaws.SpaceExact | src/compiler/compile.py:104-141 | the enumerated shapes are exactly the declared space: at most the payment limit of distinct, allowed, statically feasible routes under the equal split |
| CompilerLaws.RankingExact | src/compiler/optimization.py:354-418 | the ranking lists exactly the feasible shapes, each strictly better than the next; what better means is `CompilerOrder.BetterExactly` |
| CompilerLaws.CompileIsArgmin | src/compiler/compile.py:104-218 | the returned plan pays for the strict lexicographic minimum over all feasible shapes, and its runner-up digests are the next ones of the unique ranking; over the metrics themselves in `CompilerOrder.CompilesBest` |
| CompilerOrder.BetterExactly | src/compiler/optimization.py:354-394 | one candidate is better if and only if, at the first listed objective on which their metrics differ, it has lower cost, higher reliability, earlier completion then lower latency, fewer hops, smaller distance, fewer payments, lower liquidity, lower risk or lower privacy, credit never deciding; with none, the smaller digest |
| CompilerOrder.CompilesBest | src/compiler/compile.py:104-218 | the plan pays by the feasible shape preferred, in that sense, to every other, and its runner-ups are the next two in that order |
| CompilerExact.ContractExactly | src/compiler/compile.py:93-344 | the input contract is met if and only if intent, policy and slack are live, refer to each other and share the request's scope with every offer, the request precedes the deadline, the slack brackets the amount in its asset and scale, no hop id repeats and the currency is known at that scale |
| CompilerExact.RouteExactly | src/compiler/compile.py:104-141 | the feasible routes over the offers' fields: a chain of at most four hops from the intent asset back to it, through permitted assets each reached once, that no gate stops |
| CompilerExact.SpaceMeans | src/compiler/shapes.py:72-119 | the shapes over the routes' own order: distinct routes ascending, at most the payment limit, parts level to one unit, the larger first, summing to the intent |
| CompilerExact.AccountingExactly | src/compiler/optimization.py:272-315 | accounting passes if and only if fills keep window and capacity, spend keeps the caps when all are capped, and delivery keeps the slack |
| CompilerExact.MetricsTotal | src/compiler/optimization.py:318-351 | every metric as the sum, product, count or maximum of what the payments report |
| CompilerExact.FeasibleExactly | src/compiler/compile.py:143-170 | a shape is feasible if and only if it is in that space, runs and passes that accounting |
| CompilerExact.CompiledPlan | src/compiler/compile.py:171-238 | every field of a returned plan: references, amounts, ordinals, executions, totals, rejections per gate and the counts of considered, feasible and rejected shapes |
| CompilerLaws.ListingUnique | src/compiler/optimization.py:397-418 | there is one such ranking, hence one winner |
| PlanRecords.RecordExactly | src/compiler/plan.py:334-462 | of all numeric and structural checks of the plan, payment and hop records, the plan of the best shape fails none, except that its completion must not lie before the epoch |
| CompilerLaws.CompilesExactlyWhen | src/compiler/compile.py:93-222 | compilation succeeds if and only if the input contract holds, some route is feasible, the shapes stay within the bound, no part is empty, some shape is feasible, and the best shape completes at or after the epoch, which it always does when the request lies there |
| CompilerRobustness.BeforeEpochRefused | src/compiler/plan.py:334-352 | an input that must be completed before the epoch is never compiled, however much of it is feasible |
| CompilerExamples.CompilableButRefused | src/compiler/plan.py:334-352 | a valid input with a feasible shape within every bound, whose plan the plan record refuses |
| CompilerLaws.SourceNeverSubstitute | src/compiler/routing.py:47-51 | the check that the source is not an intermediate never fires on a valid input |
| CompilerRobustness.CompileOrderFree | src/compiler/routing.py:53-71 | offers in another order give the identical result: plan, gate report and runner-ups, or the same failure |
| CompilerRobustness.HardGatesDominate | src/compiler/optimization.py:128-261 | adding offers that fail a per-hop check changes nothing but the gate report, however cheap they are; a failure stays the same failure |
| CompilerRobustness.FeasibleWithinLimits | src/compiler/optimization.py:285-351 | every feasible shape keeps fills within window and capacity, delivery within slack, spend within caps when all are capped, and completion within earliest and the smaller of deadline and latest |
| CompilerRobustness.PlanWithinLimits | src/compiler/compile.py:179-218 | every returned plan keeps those limits |
| HopSharing.DrawExactly | src/compiler/optimization.py:285-298 | what a feasible shape draws from a hop is the sum of what the hops before it deliver, over the payments through it, hence within capacity exactly when that sum is |
| HopSharing.DrawBounded | src/compiler/optimization.py:285-298 | that is at most the hop's capacity times the number of payments through it |
| HopSharing.DisjointWithinCapacity | src/compiler/shapes.py:9-12 | a feasible shape whose routes share no hop draws at most its capacity from every hop |
| HopSharing.CapacityKept | src/compiler/shapes.py:9-12 | so does every feasible shape of an input that allows one payment, or whose feasible routes share no hop |
| HopSharing.SourceHopDraw | src/compiler/optimization.py:285-298 | a hop that leaves the intent asset is drawn on by exactly the parts routed through it, hence beyond capacity exactly when they add up to more |
| CompilerExamples.SharedHopDrawsTwice | src/compiler/optimization.py:285-298 | a valid input whose compiled plan draws 20 from a hop with capacity 10 |
| CompilerExamples.SmallerShapeLost | src/compiler/candidates.py:127 | a valid input with a feasible one-payment shape on which compilation fails |
| RouteScales.RoutesChainExactly | src/compiler/inputs.py:244-278 | every considered route hands over matching scales ending at the intent's if and only if offers that join at an unlisted asset quote it at one scale and passthrough offers of the intent asset quote the intent's |
| RouteScales.ListedRouteScales | src/compiler/inputs.py:244-278 | when every asset of a considered route is in the currency table, its scales match along the chain and a passthrough hop stands alone |
| RouteScales.AgreedCostClose | src/compiler/candidates.py:164-199 | the cost bound for every payment of every feasible shape when the offers agree |
| RouteScales.FeasibleCostClose | src/compiler/candidates.py:164-199 | the cost bound for every payment of every feasible shape over listed assets |
| CompilerExamples.UnlistedScalesMayDisagree | src/compiler/candidates.py:120-123 | a valid input with a statically feasible route through an unlisted currency whose scales do not match |
| Mediation.EvaluatePolicy | src/agents/mediation.py:688-777 | the scoring, sorting and tie loops equal the specification, refusals included |
| MediationLaws.EvaluationExact | src/agents/mediation.py:688-777 | an evaluation exists if and only if there are at least two distinct candidates; who wins, and whether by tie-break, stated without sorting |
| MediationLaws.ScoresExactly | src/agents/mediation.py:715-737 | a candidate's points are, metric by metric, the weight times the candidates with higher cost, higher latency or lower reliability |
| MediationLaws.EvaluatesExactly | src/agents/mediation.py:688-777 | an evaluation is returned if and only if there are two or more distinct candidates and it ranks exactly them with those points, most points first, then the smaller id, with selection, tie flag and rationale to match |
| MediationLaws.RankingExact | src/agents/mediation.py:738-758 | the ranking holds exactly the scored candidates in strict order |
| MediationLaws.DominationScores | src/agents/mediation.py:715-737 | a Pareto-dominating candidate scores strictly more |
| MediationLaws.WinnerUndominated | src/agents/mediation.py:688-777 | the winner is dominated by no candidate |
| MediationLaws.EvaluationOrderFree | src/agents/mediation.py:688-777 | ranking, winner, tie flag and rationale do not depend on the order of the candidates |
| MediationLaws.BeatenPairs | src/agents/mediation.py:715-737 | the rank points of one metric count every strictly ordered pair once, at most n(n-1)/2 |
| MediationLaws.PointsConserved | src/agents/mediation.py:715-737 | all points together are the weighted number of strictly ordered pairs, at most 10000 n(n-1)/2 |
| Decisions.OutputExactly | src/agents/mediation.py:1158-1191 | the output checks accept exactly the decisions whose winner, tie flag, rationale and points are the policy's |
| Decisions.AcceptsExactly | src/agents/mediation.py:1114-1196 | a decision is accepted if and only if it is the only target, its id is new, it compares two or more, its mandate exists, belongs to its agent and is active at its time, every candidate is a recorded proposal of its context, and it is the policy's output |
| Decisions.AcceptedIsFaithful | src/agents/mediation.py:1116-1192 | whatever the verifier accepts is faithful and selects an undominated candidate |
| Decisions.FaithfulUndominated | src/agents/mediation.py:1158-1191 | a faithful decision selects an undominated candidate |
| Decisions.Mediate | src/agents/mediation.py:1262-1338 | the checks on the proposals, the context and the mandate, and the decision put back in proposal order; it returns one exactly when `Decisions.MediatesExactly` says |
| Decisions.MediatesExactly | src/agents/mediation.py:1262-1338 | a decision is returned if and only if two or more distinct recorded proposals of the one context are compared under an active mandate of its agent; its fields are then given from the inputs |
| Decisions.MediatedPasses | src/agents/mediation.py:1262-1338 | everything mediation builds from recorded proposals under an active mandate passes the verifier, and under a valid policy it is a decision record the book can take |
| Decisions.DecisionBook.ParseAndCheck | src/agents/mediation.py:1116-1192 | the verifier's checks in their order, the mandate included |
| Decisions.DecisionBook.ApplyCommand | src/agents/mediation.py:1106-1112 | a decision is recorded under its id exactly when `Decisions.AcceptsExactly` says, and nothing else changes; a refused one changes nothing; every recorded decision stays faithful |
| Governance.CountsEveryNode | scripts/validate_governance.py:226-236 | Kahn's loop counts every node if and only if the graph is acyclic |
| Governance.TopologicalIsAcyclic | scripts/validate_governance.py:230-236 | a graph whose nodes can all be finished in order has no cycle |
| Governance.StuckHasCycle | scripts/validate_governance.py:230-236 | a set in which every node depends on another of the set contains a cycle |
| Governance.RemainderHasCycle | scripts/validate_governance.py:236 | if Kahn's loop leaves a node, there is a cycle |
| Layering.DeriveLayers | scripts/validate_governance.py:336-341 | the layering loop finishes with a level for every node if and only if the graph is acyclic |
| Layering.DependencyLower | scripts/validate_governance.py:341 | every dependency has a strictly lower level |
| Layering.LevelIsLongestChain | scripts/validate_governance.py:338-342 | a node's level is the length of its longest dependency chain |
| Layering.LevelsAreLeast | scripts/validate_governance.py:338-344 | no valid layering puts any node earlier |
| Layering.ExpectedWaves | scripts/validate_governance.py:343 | the comprehension lists, level by level, the nodes in numeric order |
| Layering.WavesAreExact | scripts/validate_governance.py:343-344 | each node is in exactly its wave, no wave is empty, dependencies are in earlier waves, and no valid layering has fewer waves |

## Left out

- ChainCosts.ReportedCostClose: takes matching scales along the route as a precondition, because the code
  never compares them; `RouteScales.RoutesChainExactly` says when they match.
- CompilerLaws.CompileIsArgmin: assumes the digest is injective; two shapes with one SHA-256 digest would tie.
- CompilerOrder.CompilesBest: the same, as does `CompilerExact.CompiledPlan`; `CompilerMethods.RankFeasible` has the order without it.
- ClearingSnapshots.RestoredMeans: takes the index keys as distinct, because the model's index is a list of pairs and the code's a dictionary.
- NettingStatementLaws.GuardsNeverFire: identifiers are opaque, so the length bound of the pair record's issued id is
  not modelled (200 characters, `src/clearing/_validation.py:18`): a netting id of 188 characters or more can be created,
  and a bilateral calculation under it that issues an obligation is refused by the code.
- HopSharing.CapacityKept: one way for a whole input; the equivalence is stated shape by shape in `HopSharing.DrawExactly`.
- ClearingSnapshots.RestoreIsSound: the store of an accepted snapshot may hold envelopes the index lacks,
  because the code checks the agreement from index to store only.
- ClearingSnapshots.RebuildAgrees: command ids are forgotten by a journal rebuild, as the code documents.
- Decisions.Mediate: takes the simulated outcomes as inputs, as `Decisions.MediatedPasses` does.
- Decisions.MediatedPasses: simulated outcomes are inputs; running the candidate environments is not part of this model.
- ClearingEngines.ClearingEngine.Dispatch: only the handlers with loops are methods; the single-step handlers
  are called as the functions that specify them.
- Routing.Extend: the route list that the recursion shares is threaded through as a value and returned; sorting in
  place is a reassignment.
- Seals, SHA-256, canonical JSON, `to_dict`/`from_dict`: digests are injective functions of content.
- Identifier patterns, text lengths, timestamp syntax: identifiers are opaque, times are integers.
- Environment and domain ids of the clearing engine: one environment and one domain.
- Idempotency keys, nonces, the logical clock, event ids and provenance; a reused command id is modelled.
- Decoding of effect results into payment legs: the decoded leg is the command's payload.
- Error, rejection and reason texts; the rationale is the structured data its text is made from.
- The currency table's content: a table is a parameter.
- Fractions are real numbers; no rounding takes place in the source where they are used.
- The mandate and proposal books are a registry parameter of the decision book.
- `src/compiler/engine.py` and the plan's states (`src/compiler/plan.py:575-750`): a small lifecycle around compilation.
- `app/`, the capability, data-case and model registries, the settlement and simulation runtimes.
- File reading, git calls and pattern checks of `scripts/validate_governance.py`.
