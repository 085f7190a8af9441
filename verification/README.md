# A verified model of LiveRoute's core

LiveRoute keeps a traveller's day plan up to date while the day goes on.  This
project models, in Dafny 4.11, the parts of its C++ core whose correctness
depends on reasoning across many functions, and proves what they promise.

**The suffix planner.**  For each remaining activity a finite set of start
times is generated; sequences of decisions are scored with checked 64-bit
arithmetic, pruned by a lower bound and searched level by level with a beam.
The declarative side is `Alternatives`, `Scoring`, `SearchSpace` and `Search`;
the side that follows the code, with its mutable totals, columns, reused
buffers and path arena, is `ScoreLoop`, `PlannerColumns`, `Expansion`,
`PathArena`, `BeamSelection` and `BeamSearchRun`.  `Itineraries`,
`ProposalAssembler`, `ProposalTheorems` and `ChangeAgreement` turn the winner
into a proposal.  What all of this computes is said again without its own
terms: `OfferLaws` which intervals are offered, `Acceptance` which plans are
accepted, `ScoreTotals`, `ScoreChanges` and `Objective` what a plan is worth,
`SearchStops` why a search ended, and `ProposalTells` what a proposal says.

**The versioned trip runtime.**  `TripStates` applies events to a trip,
`RuntimeVersions` counts them, `EventCoordinator` admits them.  `TripRuntime`
is a step machine for one trip (bootstrap, event, finalization, deactivation,
completion, loss of an attempt) in which completions may arrive at any time;
`RuntimeTasks` are the tasks that update the trip in place, each proved to do
one step.  Safety, delivery, offers and coalescing are proved over all runs;
`UnfitStart`, `StaleCommits` and `PlannerSafety` say exactly what endangers it.
`RouteRequests` asks for the travel times of an attempt and `ReplanFacts`
derives what it says about the current plan; `PlanningPipeline` joins planner
and runtime end to end.  `EventEffects`, `EventVerdicts`, `AdmissionLaws`,
`PlanningStarts`, `Lifecycle`, `AttemptInputs` and `AttemptResults` say, of the
states before and after alone, what events, admissions, steps and attempts do.

**The route cache.**  `RouteCacheTable`, `CacheEviction` and `RouteCacheShard`
are an open addressing table with tombstones and clock eviction that refines a
plain map, `CacheHash` is its hash, `CacheLimit` its entry limit and
`ShardCrowds` the shards its keys go to;
`MatrixAssembly` builds a matrix from cached cells and one partial fetch.

**Strict JSON.**  `StrictJson` is the grammar and the canonical text over
bytes, `JsonParser` and `JsonPrinter` the cursor and the output buffer;
`JsonTheorems` and `JsonCanonical` prove the round trips.  `JsonGrammar` writes
documents out with their spaces and spellings, and `JsonStrings`,
`JsonLanguage`, `JsonParses` and `JsonCompact` prove that the parser's language
is exactly these and the canonical text the simplest of them.

**Local time.**  `TimeZones` inverts piecewise offsets, as in the data block of
section 3.2 of RFC 8536.

`dafny verify dfyconfig.toml` checks the whole project.

## What turned out not to hold

- *Infeasibility is not complete for a preferred duration of zero.*  The
  generator gives such an activity one second and the scorer rejects every
  visit to it, so a trip with a lawful plan can be answered "exhaustively
  infeasible" (`ZeroPreferred`).  `FeasibleIff` gives the exact condition: a
  lawful plan that visits only activities with a positive preferred duration.
- *A cache shard can pass its entry limit.*  The eviction scan looks at 64
  slots; when all of them are empty it falls back on slot 0, and when that is
  empty too nothing is evicted.  `Insert` states exactly when this happens; with
  at most 64 slots it never does.  `PassTheLimit` shows it for every hash and
  keys that pile up beyond the first 64 slots, and `PassOwnLimit` finds such keys
  for the cache's own FNV-1a hash, any number of shards and any limit of 33 to
  8192 entries for each, which includes the default of 16 shards and 8192.
- *Reusing an epoch can defeat the commit token.*  A trip that is erased and
  started again in the same epoch can reach the same token with another state,
  and a late result then goes on offer (`ReusedEpoch`).  An attempt is unfit for
  a start if it is of the epoch that starts, unless it was computed at planner
  version zero from the very state it starts in.  If no start leaves an unfit attempt out, no stale result
  is ever committed (`NoStaleCommit`), and epochs that grow on every restart
  ensure it (`GrowingEpochsFit`).  For tokens the guard is exact: one can mislead
  if and only if its attempt is unfit (`TokenMisleadsIff`).  For what the planner
  makes of the attempts it is more than is needed.  As long as nobody edits the
  trip, a result can be committed stale if and only if there is one and its
  attempt is harmful: unfit, computed for the trip's activities, and for its plan
  or for one the trip can still be given (`CommitsStaleIff`, `NoStaleResult`).
  An edit can make a harmless attempt harmful again (`EditedBack`).
- *A trip with no accepted mutation never gets a proposal.*  A proposal must
  name a non-zero mutation sequence, and a trip bootstrapped with sequence 0
  that has seen only observations has none (`PlannedExactlyWhenFound`).
- *An attempt can fail although there is a plan to find.*  Before it searches,
  an attempt replays the current plan in checked arithmetic; an overflow there,
  which the written contract calls an input failure, leaves no proposal for a
  trip the search can plan (`LongStop`).
  `FactsDeriveIff` gives the exact condition, and `SmallPlansDerive` bounds under
  which it always holds.
- *A missed reservation can be forgotten.*  If a later leg of the current plan
  does not exist and no reservation follows it, the replay overwrites the
  reservation it had already found at risk (`ForgottenRisk`).  `RiskIsReported`
  shows that this is the only way.

## Where the code and the documents differ

The model follows the code.

- LiveRoute's written contract lets the lower bound start from the current time
  when nothing is scheduled yet (its line 449, under `plans/`); the code starts
  from the end of the preserved prefix if that is later.
- The same contract lists staleness among the refusals that use up a mutation
  number (its line 185); in the code only a stale proposal does, while a stale
  sequence, revision or planner version leaves the counters alone.
- It calls a reservation at risk when replaying the plan arrives too late for it
  (its line 398); the code forgets one missed before a missing leg, as above, and
  also counts one that is never reached.

## How to read the proofs

Every imperative method is proved equal to a function, and the theorems are
lemmas about the functions.  `Folding.Ask` is a trigger: a predicate stated
as `forall now :: Ask(now) ==> P` stays folded until `Ask(true)` is asserted,
which keeps large facts out of proofs that do not need them.

## Model

| member | source | states |
|---|---|---|
| `Domain.CheckedArithmeticIsExact` | include/liveroute/planner/checked_int.hpp:9-43 | the checked sum, difference and absolute difference are the mathematical ones exactly when those fit in 64 bits (and, for the last, when the difference is not the least integer) |
| `CandidateScores.BetterStrictTotal` | include/liveroute/planner/candidate_score.hpp:82-102 | the order on complete scores is irreflexive, transitive and total on distinct scores |
| `CandidateScores.BetterPartialStrictTotal` | include/liveroute/planner/candidate_score.hpp:104-114 | the retention order on partial candidates is a strict total order on distinct pairs of score and decisions |
| `PlannerInput.IndexOfIsInverse` | src/planner/beam_search.cpp:164-172 | in a valid input, looking up an ordinal or an id finds the one activity that has it |
| `Alternatives.GenerateAlternatives` | src/planner/beam_search.cpp:528-602 | the generating loops, with sorting and removal of repeats, give exactly the declarative list of alternatives, with or without revalidating the input |
| `Alternatives.OfferedIffGenerated` | src/planner/beam_search.cpp:54-142 | an interval is among the alternatives if and only if it satisfies every hard constraint with the fixed duration and starts at the earliest time of some window with room or at the baseline |
| `Alternatives.OfferedIsLegal` | src/planner/beam_search.cpp:54-78 | every offered interval starts no earlier than the arrival and may lawfully be occupied: windows, reservation, deadline, horizon, duration |
| `Alternatives.EarliestStartDominates` | src/planner/beam_search.cpp:80-126 | whatever lawful interval a traveller could take after arriving, the generator offers one of the same length that starts no later |
| `Alternatives.EarlierArrivalStillOffers` | src/planner/beam_search.cpp:236-275 | arriving earlier never leaves an activity without a scheduled alternative, which is what makes the lower bound sound |
| `Alternatives.AlternativesAreOrdered` | src/planner/beam_search.cpp:578-602 | alternatives come in strictly ascending order of start, with the skip last and only for activities that may be skipped |
| `OfferLaws.CurrentIntervalIsOffered` | src/planner/beam_search.cpp:128-142 | the interval of the current plan is offered whenever it is still lawful and reached in time |
| `OfferLaws.OffersExactly` | src/planner/beam_search.cpp:54-142 | an interval is offered if and only if it is lawful, not before the arrival, and either the current plan's or starts at the latest of the arrival, the opening of a window that holds it and the reservation |
| `Scoring.AcceptedAppend` | src/planner/beam_search.cpp:731-854 | a longer sequence is accepted if and only if its front is and the last decision is for an undecided activity and is an allowed skip or a leg that lands in time without overflow |
| `ScoreLoop.ComputeScore` | src/planner/beam_search.cpp:613-894 | the scoring loop over mutable totals, flags and positions returns the declarative score, with or without columns and with or without revalidation |
| `ScoreLoop.ScoreDecision` | src/planner/beam_search.cpp:731-854 | one pass of the loop keeps the running state equal to the declarative state of the longer prefix, or rejects exactly an unacceptable prefix |
| `ScoreLoop.CountChanged` | src/planner/beam_search.cpp:861-888 | counting by flags and by two position tables gives the declarative number of changed activities, and never overflows |
| `ScoreLoop.AcceptedScoreIsValid` | src/planner/beam_search.cpp:890-894 | the score of an accepted sequence always passes its own validity check: no total is negative and the canonical key is well formed |
| `ScoreLoop.CollectRanks` | src/planner/beam_search.cpp:638-659 | the collected priority ranks are the sorted list without repeats |
| `ScoreTotals.ScoreTells` | src/planner/beam_search.cpp:731-894 | for every accepted sequence, in unbounded integers over its visits and skips: travel, lateness after the reservation or else the current start, shortfall, shift, final end, utility kept, skips of each rank from the most important on, and the canonical key |
| `ScoreChanges.ScoreCountsDifferences` | src/planner/beam_search.cpp:861-888 | the number of changes is the number of activities that are dropped, taken up, at another time, or at another place among what both plans schedule |
| `Objective.BetterWhen` | include/liveroute/planner/candidate_score.hpp:82-102 | one score is better than another if and only if at the first part in which they differ, in the order skips by rank, utility, lateness, shortfall, travel, changes, shift, final end, key, it has the lower cost or the higher utility |
| `Objective.DominatingIsBetter` | include/liveroute/planner/candidate_score.hpp:82-102 | a score that is no worse in any part and better in one is better |
| `Objective.BetterPartialWhen` | include/liveroute/planner/candidate_score.hpp:104-114 | retention goes by the score and then by the decisions, first difference first |
| `Acceptance.SuffixStartIsDeparture` | src/planner/beam_search.cpp:515-526 | the rest of the trip starts at the later of now and the last preserved end |
| `Acceptance.AcceptedIff` | src/planner/beam_search.cpp:731-854 | with times small enough not to overflow, decisions are accepted if and only if each activity is decided at most once, only optional ones are omitted, and each visit is on a way that exists, in time, lawful, of wanted duration, and the current plan's or as soon as can be |
| `Acceptance.ViableIff` | src/planner/beam_search.cpp:236-275 | an accepted prefix is gone on with if and only if each undecided activity that must be visited still has a lawful interval after the last visit |
| `Acceptance.OrderAscends` | src/planner/beam_search.cpp:998-1007 | activities are tried in the order of the trip |
| `PlannerColumns.PrepareColumns` | src/planner/beam_search.cpp:344-458 | columns are built exactly when every duration and grace period fits, and then each row says what the activity says |
| `PlannerColumns.FindOrdinal` | src/planner/beam_search.cpp:460-471 | the binary search over sorted ordinals returns what the linear scan returns |
| `PlannerColumns.FlagsReadBack` | src/planner/beam_search.cpp:402-434 | the packed flag bits give back the four facts that scoring reads from them |
| `Canonical.CanonicalFormScoresTheSame` | src/planner/candidate_itinerary.cpp:90-138 | moving the skips to the end in ordinal order leaves the score unchanged, canonical key and acceptance included, for every sequence of decisions |
| `Itineraries.ReadBackInverts` | src/planner/candidate_itinerary.cpp:46-88 | reading the segments of canonically ordered decisions back gives the decisions |
| `Itineraries.ReconstructionSucceeds` | src/planner/candidate_itinerary.cpp:90-138 | reconstruction of every complete accepted sequence succeeds, its closing validity check never fails, and its suffix reads back as the canonical form |
| `Itineraries.CheckItinerary` | src/planner/candidate_itinerary.cpp:46-88 | the validity loop accepts exactly the itineraries whose suffix reads back to a complete accepted sequence over the same prefix |
| `Itineraries.BuildItinerary` | src/planner/candidate_itinerary.cpp:90-138 | the reconstruction loops compute the declarative itinerary, failures included |
| `SearchSpace.ViablePrefix` | src/planner/beam_search.cpp:236-275 | pruning never discards a prefix of something it would keep: whatever passes the lower bound has a front that passes it |
| `SearchSpace.CompletePlanIsViable` | src/planner/beam_search.cpp:236-275 | no prefix of a complete accepted plan is ever pruned |
| `Feasibility.AcceptedIsLegal` | src/planner/beam_search.cpp:776-800 | a complete accepted plan decides each remaining activity exactly once, skips only optional ones, and every visit keeps travel time, windows, reservation, deadline, horizon and duration |
| `Feasibility.FeasibleIff` | src/planner/beam_search.cpp:97-142 | with times small enough not to overflow, some complete plan is accepted if and only if some lawful plan, at any start times, visits only activities with a positive preferred duration |
| `TripSearch.InfeasibleMeansNoLegalPlan` | src/planner/beam_search.cpp:1111-1123 | after the answer "exhaustively infeasible" no lawful plan exists at any start times, except plans that visit an activity whose preferred duration is zero |
| `ZeroPreferred.ZeroPreferredIsMissed` | src/planner/beam_search.cpp:97-126 | a concrete trip with a preferred duration of zero that has a lawful plan and is answered "exhaustively infeasible" |
| `Search.LevelEnds` | src/planner/beam_search.cpp:1009-1160 | every level keeps the expansion and candidate budgets and the beam width, and has a complete plan on hand exactly when it is the last and has a child, so the branch after the loop for a search without a plan is unreachable |
| `Search.RetainKeepsTheBest` | src/planner/beam_search.cpp:1125-1151 | the retained beam is a front of the sorted children: nothing dropped is better than anything kept |
| `Search.NextLevelIsCovered` | src/planner/beam_search.cpp:1012-1109 | if the beam holds every viable prefix of one length, its children hold every viable prefix of the next |
| `Search.SearchIsTruthful` | src/planner/beam_search.cpp:1009-1171 | for any search space closed under prefixes: results are plans with their own scores, budgets are kept, "infeasible" means no plan, and an untruncated complete result is a best plan |
| `TripSearch.SpaceIsRegular` | src/planner/beam_search.cpp:528-602 | the planner's search space is one: pruning is closed under prefixes and every viable extension is generated |
| `TripSearch.SearchIsTruthfulForTrips` | src/planner/beam_search.cpp:933-1171 | for every input, budget and interruption: a returned plan is complete, accepted and carries its own score; budgets are kept; "exhaustively infeasible" means no complete plan is accepted; a complete untruncated result is beaten by no accepted plan; invalid inputs are refused |
| `SearchStops.SearchHasCause` | src/planner/beam_search.cpp:946-1171 | for every search of a trip: a reported cancellation or deadline was answered by the very check before the next expansion and by none before, a limited or best-so-far answer used up a budget, was interrupted or truncated, and truncation means more different viable prefixes of one length than the beam holds |
| `SearchStops.TripsAreUnambiguous` | src/planner/beam_search.cpp:1031-1075 | no prefix is generated twice |
| `PathArena.PathOfChild` | src/planner/beam_search.cpp:288-298 | pushing a node under a parent makes a path that is the parent's path and the new decision |
| `PathArena.PathIsStable` | src/planner/beam_search.cpp:1057-1107 | growing the arena changes no path already in it |
| `PathArena.ReconstructDecisions` | src/planner/beam_search.cpp:288-298 | filling the buffer from the back along parent links gives exactly the candidate's decision sequence, of length its depth |
| `Expansion.PassesBound` | src/planner/beam_search.cpp:236-275 | the lower-bound check over a reused buffer passes exactly the declarative bound, whatever the buffer held |
| `Expansion.ArrivalOf` | src/planner/beam_search.cpp:190-234 | the arrival computed from the last scheduled decision is the declarative one |
| `BeamSelection.SelectChildren` | src/planner/beam_search.cpp:1125-1151 | partial selection and full sorting of arena candidates both keep exactly the declarative beam |
| `BeamSelection.PartialSortRetains` | src/planner/beam_search.cpp:1134-1146 | any permutation whose front is sorted has the declarative beam as its front |
| `BeamSearchRun.AdmittedMeansAdmit` | src/planner/beam_search.cpp:1094-1107 | adding a node, a child and perhaps a new best in place means adding that candidate to the declarative progress |
| `BeamSearchRun.PlannerScratch.Settle` | src/planner/beam_search.cpp:1076-1107 | a rejected child is popped from the arena and the working path without trace; an accepted one is admitted; a full candidate budget stops the search |
| `BeamSearchRun.PlannerScratch.ExpandActivities` | src/planner/beam_search.cpp:1031-1108 | the loop over activities, with the budget and interruption checks of each, makes the declarative step |
| `BeamSearchRun.PlannerScratch.KeepBest` | src/planner/beam_search.cpp:1125-1151 | swapping the buffers leaves the declarative beam in place |
| `BeamSearchRun.PlannerScratch.SearchLevels` | src/planner/beam_search.cpp:1009-1171 | the loop over depths returns what the declarative recursion returns; the beam is never wider than allowed and the loop never ends without a complete plan |
| `BeamSearchRun.PlannerScratch.RunBeamSearch` | src/planner/beam_search.cpp:933-1172 | whatever the scratch held before and whichever fast forms are on, the result is the plain search's, except that columns refuse an input whose durations do not fit in them |
| `ProposalTheorems.AssemblySucceeds` | src/planner/proposal_assembler.cpp:120-209 | a complete accepted plan over the trip's own activities assembles if and only if the source epoch, revision and mutation sequence are non-zero, and the assembled proposal is valid for the activities |
| `ProposalTheorems.ProposalIsValid` | src/domain/plan_proposal.cpp:98-154 | the built prefix and suffix run in sequence, name each activity exactly once and pass every segment check, so only the version numbers can make the proposal invalid |
| `ProposalTheorems.SuffixPointwise` | src/planner/proposal_assembler.cpp:166-204 | each suffix segment is the decision's, with the travel from the last scheduled place before it |
| `ProposalAssembler.Assemble` | src/planner/proposal_assembler.cpp:120-209 | the assembling loops compute the declarative proposal, failures included |
| `ChangeAgreement.ChangeCountsAgree` | src/planner/proposal_assembler.cpp:42-98 | the number of suffix segments the assembler calls changed is the score's number of changed activities |
| `ChangeAgreement.ChangesIffCounted` | src/planner/proposal_assembler.cpp:154-178 | the assembled proposal changes the current plan if and only if that number is positive |
| `ProposalTells.ProposalTellsPlan` | src/planner/proposal_assembler.cpp:120-209 | the proposal of a complete plan, segment by segment: the preserved prefix; each visit with its activity's place and zone, its times, the travel from the visit before, added, moved or preserved, and the reasons for that; the dropped activities after them in the order of the trip; the source's numbers; and it changes the plan if and only if some activity differs |
| `RuntimeVersions.TripRuntimeVersions.Bootstrap` | src/runtime/trip_runtime_versions.cpp:30-63 | a new epoch resets the counters; an older epoch, a conflicting repeat and a faithful repeat are told apart and change nothing |
| `RuntimeVersions.TripRuntimeVersions.AcceptDurable` | src/runtime/trip_runtime_versions.cpp:74-123 | accepts exactly the next mutation of the current epoch, revision and planner version with room in every counter, and then moves exactly the announced counters; the invariant is kept |
| `RuntimeVersions.TripRuntimeVersions.ResolveTerminal` | src/runtime/trip_runtime_versions.cpp:125-147 | uses up the next mutation number and nothing else |
| `RuntimeVersions.TripRuntimeVersions.AcceptObservation` | src/runtime/trip_runtime_versions.cpp:149-185 | accepts exactly a later observation of the current epoch and planner version with room in the counters |
| `RuntimeVersions.TripRuntimeVersions.AcceptAdvisory` | src/runtime/trip_runtime_versions.cpp:187-214 | accepts exactly a later observation number and moves that alone |
| `RuntimeVersions.TripRuntimeVersions.ConfirmFinalized` | src/runtime/trip_runtime_versions.cpp:216-229 | the finalized mutation only grows and never passes the accepted one |
| `RuntimeVersions.GenerationNeverRunsOutFirst` | src/runtime/trip_runtime_versions.cpp:116-121 | while the planner version has room the generation has, so refusing on the generation alone cannot happen |
| `TripStates.CheckTripState` | src/domain/trip_state.cpp:142-215 | the validity loops accept exactly the valid states |
| `TripStates.ApplyTripEvent` | src/domain/trip_state.cpp:217-374 | the mutating cases with roll-back leave the declarative state and give the declarative verdict |
| `TripStates.ApplyEdit` | src/domain/trip_state.cpp:264-311 | the four edit operations leave the declarative activities, delays and plan |
| `TripStateTheorems.StatusKeeps` | src/domain/trip_state.cpp:53-93 | every status change that is let through keeps the whole state valid: finished activities stay a prefix and at most the next is under way |
| `TripStateTheorems.EditKeeps` | src/domain/trip_state.cpp:264-311 | an edit that passed its own check leaves a valid state if and only if the new plan fits what is finished and under way |
| `TripStateTheorems.EventApplies` | src/domain/trip_state.cpp:217-374 | a well-formed event on a valid state applies if and only if it is no status change out of turn and its plan, if it brings one, fits what is finished and under way |
| `TripStateTheorems.AppliedEventLeaves` | src/domain/trip_state.cpp:352-374 | an event that does not apply changes nothing; one that does leaves a valid state, withdraws the proposal exactly if it is a planning input, changes the plan only if it is of a kind that may, and decides only the proposal on offer |
| `EventEffects.AppliedEventRecords` | src/domain/trip_state.cpp:217-374 | payload by payload, what an applied event leaves: the observation, the one activity, the one delay, the status with prefix and current activity, the edited activities, delays and plan, or the accepted plan is the event's, and everything else is as before but for the proposal |
| `EventVerdicts.AppliesIff` | src/domain/trip_state.cpp:217-374 | payload by payload, exactly which events apply to a valid state, and which decisions are about a proposal that is not on offer |
| `EventVerdicts.NewPlanFits` | src/domain/trip_state.cpp:142-215 | a new plan for the same activities leaves a valid state if and only if the finished activities are in front, in any order, and the one under way is next |
| `EventVerdicts.EditApplies` | src/domain/trip_state.cpp:264-311 | an edit applies if and only if the trip it describes, with its plan in the order of the activities, is a valid one |
| `EventCoordinator.CommitVersions` | src/runtime/event_coordinator.cpp:181-203 | after an accepted preview the commit is accepted, and moves the counters as declared |
| `EventCoordinator.Resolve` | src/runtime/event_coordinator.cpp:141-179 | a terminal refusal after an accepted preview uses up only the mutation number, and never for a mirrored command |
| `EventCoordinator.CoordinateEventAdmission` | src/runtime/event_coordinator.cpp:92-231 | admission in place does what the declarative admission does and never answers with an internal error, for every state and every valid counters up to the 64-bit limits |
| `AdmissionLaws.AdmittedIff` | src/runtime/event_coordinator.cpp:92-231 | an event is admitted if and only if it carries its own kind's numbers, is of the present epoch and version, is the next command on the present revision or a later observation, has room in the counters, is in time and applies; the state is then the one it leaves and the counters move as stated |
| `AdmissionLaws.RefusedUses` | src/runtime/event_coordinator.cpp:141-179 | a refusal uses up the number of a command in line that no store has taken, and changes nothing otherwise |
| `AdmissionLaws.AnswerTells` | src/runtime/event_coordinator.cpp:92-231 | what each refusal says, in terms of the numbers alone, and what the answer to an admitted event carries |
| `RuntimeSteps.AdmissionEffect` | src/runtime/event_coordinator.cpp:92-231 | an admission keeps state and counters valid and either leaves core state and token alone or advances planner version and generation together by one and seeds planning with exactly the new state |
| `RuntimeTasks.TripHost.TryBootstrap` | src/runtime/concurrent_trip_runtime.cpp:519-636 | the task in place does the step machine's bootstrap step |
| `RuntimeTasks.TripHost.TryApplyEvent` | src/runtime/concurrent_trip_runtime.cpp:638-809 | the task in place does the step machine's event step: admission, coalescing, dispatch |
| `RuntimeTasks.TripHost.TryConfirmFinalized` | src/runtime/concurrent_trip_runtime.cpp:811-823 | the task in place does the step machine's finalization step |
| `RuntimeTasks.TripHost.TryDeactivate` | src/runtime/concurrent_trip_runtime.cpp:857-923 | the task in place does the step machine's deactivation step, which erases the trip only when it is ready |
| `RuntimeTasks.TripHost.TryAbortDeactivation` | src/runtime/concurrent_trip_runtime.cpp:925-960 | the task in place does the step machine's abort step |
| `RuntimeTasks.TripHost.TryUnbind` | src/runtime/concurrent_trip_runtime.cpp:962-991 | the task in place does the step machine's unbind step |
| `RuntimeTasks.TripHost.Complete` | src/runtime/concurrent_trip_runtime.cpp:1129-1290 | a completion, with or without a proposal, does the step machine's finish or fail step on whatever trip is there by then |
| `RuntimeTasks.ActiveTrip.Plan` | src/runtime/concurrent_trip_runtime.cpp:765-803 | a new planning request is merged with the waiting one and the running attempt's claim, or dispatched |
| `RuntimeTasks.ActiveTrip.DispatchWaiting` | src/runtime/concurrent_trip_runtime.cpp:1292-1305 | a waiting request is dispatched unless the runtime is closing or an ordinary observation has newer work queued behind it |
| `RuntimeTasks.ActiveTrip.FinishPlanning` | src/runtime/concurrent_trip_runtime.cpp:1249-1276 | a result is committed only for the current token and a fitting proposal, and then waiting work is dispatched |
| `PlanningStarts.EventPlans` | src/runtime/concurrent_trip_runtime.cpp:638-809 | for every event step: whether planning is asked for (a moving traveller only renews planning that goes on, a refresh only starts planning that does not), and whether an attempt is handed out, waits, takes the place of one that waits, or neither, with its state, token, frame and priority |
| `PlanningStarts.CompletionPlans` | src/runtime/concurrent_trip_runtime.cpp:1249-1276 | after every completion the waiting attempt goes if the runtime takes work and nothing newer of its kind is queued, and nothing runs otherwise |
| `Lifecycle.BootTells` | src/runtime/concurrent_trip_runtime.cpp:519-636 | a bootstrap starts a trip if and only if its state is valid and fresh and its epoch is new, with the counters at zero; a faithful repeat at most binds it; anything else changes nothing |
| `Lifecycle.ConfirmTells` | src/runtime/concurrent_trip_runtime.cpp:811-823 | a confirmation counts if and only if it is of the epoch, new, and of an accepted command |
| `Lifecycle.WaitsIff` | src/runtime/concurrent_trip_runtime.cpp:857-960 | a trip waits for its end if and only if a final snapshot was asked for in its epoch with everything stored, until that is called off or a new epoch starts |
| `Lifecycle.ErasedIff` | src/runtime/concurrent_trip_runtime.cpp:857-923 | a trip is erased if and only if that is asked for in its epoch |
| `Lifecycle.FinalSnapshotHolds` | src/runtime/concurrent_trip_runtime.cpp:857-960 | after every run: while a trip waits for its end everything accepted is stored, and no step but one that ends the wait changes what the planner reads or the counters, or hands out planning |
| `Lifecycle.UnbindTells` | src/runtime/concurrent_trip_runtime.cpp:962-991 | unbinding the trip's own stream drops the waiting attempt and nothing else |
| `RuntimeSafety.SafeStep` | src/runtime/concurrent_trip_runtime.cpp:519-1305 | every step keeps every running or waiting attempt ready to be planned and of an epoch there has been, and each attempt that is not excused either out of date for the rest of its epoch or computed from the present state; a start must excuse the attempts unfit for it |
| `RuntimeSafety.AttemptsAreReady` | src/runtime/concurrent_trip_runtime.cpp:727-803 | after every run whatever, each attempt that is out carries a valid state, a valid planning context, non-zero epoch and revision, and a token that names the versions it was seeded at |
| `RuntimeSafety.RunIsSafe` | src/runtime/concurrent_trip_runtime.cpp:519-1305 | the invariant holds after every run with every attempt excused, and after every run all of whose starts are fit with none |
| `RuntimeSafety.SameVersionSameState` | src/runtime/trip_runtime_versions.cpp:231-247 | at any two moments of a run in which an erased trip comes back only in a newer epoch, equal epoch and planner version mean equal state apart from the proposal on offer |
| `RuntimeSafety.GrowingEpochsFit` | src/runtime/concurrent_trip_runtime.cpp:519-636 | in every run of that kind all starts are fit |
| `RuntimeSafety.NoStaleCommit` | src/runtime/planning_commit.cpp:5-22 | in every run whose starts are fit, and every interleaving, a completion that changes the trip only puts its proposal on offer, and was computed from exactly the state it is put on |
| `UnfitStart.TokenMisleadsIff` | src/runtime/trip_runtime_versions.cpp:231-247 | after any run and any start, an attempt's token can come to be current on a state it was not captured in, before the next start, if and only if the attempt is unfit for the start; over every continuation, edits included |
| `SamePlaces.ProposalFitsIff` | src/domain/plan_proposal.cpp:98-154 | a proposal that is valid for one trip's activities is valid for another's if and only if those are the same activities at the same places, in any order |
| `SamePlaces.EventStaysPut` | src/domain/trip_state.cpp:217-374 | no event but an edit changes which activities a trip has, or where they are |
| `StaleCommits.KeptThroughout` | src/runtime/concurrent_trip_runtime.cpp:638-809 | from a start to the next, without an edit: the activities stay where they are, nothing changes at planner version zero, and with a counter exhausted the plan never changes |
| `StaleCommits.CommitsStaleIff` | src/runtime/concurrent_trip_runtime.cpp:1249-1276 | after any run and any start, what the planner makes of an attempt still out can be committed on a state it was not computed from, in some continuation without a start or an edit, if and only if the planner makes something of it and the attempt is harmful: unfit, computed for the trip's activities, and for its plan or for one it can still be given |
| `PlannerSafety.NoStaleResult` | src/runtime/concurrent_trip_runtime.cpp:1249-1276 | in every run without edits that starts no epoch with such an attempt out, the planner's own results are committed only on the state they were computed from |
| `EditedBack.EditBringsBack` | src/domain/trip_state.cpp:264-311 | a concrete run in which an attempt that is unfit but not harmful is committed stale after one edit |
| `ReusedEpoch.ReusedEpochCommitsStale` | src/runtime/concurrent_trip_runtime.cpp:857-923 | unfit starts are reachable: a concrete run that erases a trip and starts it again in the same epoch, where two attempts are out at once and what the planner makes of the first, computed from the erased trip, goes on offer |
| `ReusedEpoch.OfferIsPlanned` | src/planner/replan_attempt.cpp:16-66 | the proposal of that run is the planner's own result for its attempt |
| `RuntimeOffers.OffersAreCurrent` | src/runtime/planning_commit.cpp:5-22 | after every run whatever, state and counters are valid, the generation equals the planner version, and a proposal on offer names the current epoch, planner version and plan |
| `RuntimeOffers.PlanChangesOnlyBy` | src/domain/trip_state.cpp:264-364 | the current plan changes only by an admitted edit or replacement, by acceptance of the very proposal on offer, or by a bootstrap in a newer epoch |
| `RuntimeOffers.FinishKeepsPlan` | src/runtime/concurrent_trip_runtime.cpp:1249-1276 | no planning completion ever changes the current plan |
| `RuntimeDelivery.RedeliveryIsIgnored` | src/runtime/event_coordinator.cpp:117-137 | a delivery whose number is not above its watermark changes nothing and is answered as repeated or out of date |
| `RuntimeDelivery.AdmissionIsCounted` | src/runtime/event_coordinator.cpp:92-231 | an admitted event takes the next mutation number or a later observation number; a refusal takes at most the next mutation number and changes nothing else |
| `RuntimeDelivery.DeliveredExactlyOnce` | src/runtime/event_coordinator.cpp:92-231 | after every run, duplicates, gaps and reorderings included, the state is the fold of the accepted events from the last bootstrap, each of which applied where it stands; mutation numbers were resolved one by one without gaps, and accepted numbers strictly ascend |
| `RuntimeCoalescing.MergedLeads` | src/runtime/concurrent_trip_runtime.cpp:1023-1033 | merging keeps the new request's token and state and the highest of all merged priorities with its trigger |
| `RuntimeCoalescing.RunIsOrderly` | src/runtime/concurrent_trip_runtime.cpp:727-803 | after every run with valid planning contexts and no erasure while an attempt is out: at most one attempt is out, a waiting request carries the current token and state, and none of the claims merged into it outranks it |
| `PlanningInputAssembly.AssembleInput` | src/planner/planning_input_assembler.cpp:36-107 | input is assembled exactly from a valid state with the clock in the horizon and a matrix of the right size, and is then a valid search input |
| `PlanningInputAssembly.InputIsValid` | src/planner/planning_input_assembler.cpp:36-107 | every valid trip state gives a valid search input: ordinals and ids distinct, prefix in order, activities planned |
| `PlanningInputAssembly.InputIsOwn` | src/planner/planning_input_assembler.cpp:84-103 | prefix and remaining activities of the input are together exactly the trip's own activities |
| `RouteRequests.MakeRouteRequest` | src/runtime/concurrent_trip_runtime.cpp:149-179 | the loop makes the declarative request: the traveller and then each remaining activity, with the mode in which it is reached |
| `RouteRequests.RequestFits` | src/runtime/concurrent_trip_runtime.cpp:149-179 | every valid state gives a request of one location more than activities remain, unless something remains and the traveller is nowhere known |
| `RouteRequests.Acquire` | src/runtime/concurrent_trip_runtime.cpp:181-264 | asking for one table per mode and combining them row by row gives the declarative matrix and its quality, failures included |
| `RouteRequests.AcquiredFits` | src/runtime/concurrent_trip_runtime.cpp:181-264 | a matrix is acquired exactly if nothing remains, or the traveller is somewhere and the provider serves every mode in use; it then has one location more than activities remain |
| `RouteRequests.CombinedAt` | src/runtime/concurrent_trip_runtime.cpp:232-257 | each leg of the combined matrix is the one of its destination's mode, and nothing leads back to the start |
| `AttemptInputs.AcquiredTells` | src/runtime/concurrent_trip_runtime.cpp:149-264 | a matrix is acquired if and only if nothing remains, or the traveller is somewhere known and the provider answers for their place followed by the places of the remaining activities in the mode of each; its way to an activity from anywhere is that answer, nothing leads back to the start, and it is stale if and only if one of the answers is |
| `AttemptInputs.InputTells` | src/planner/planning_input_assembler.cpp:36-107 | the input keeps the front of the plan that has begun and plans the rest anew, each with its activity, its place in the trip and its segment |
| `ReplanFacts.DeriveReplanFacts` | src/planner/result_metadata.cpp:98-176 | the loops derive the declarative facts, or nothing where a checked operation overflows |
| `ReplanFacts.FactsDeriveIff` | src/planner/result_metadata.cpp:98-176 | the facts derive if and only if the slack and every number met at a stop before the first missing leg fit in 64 bits; they then say, in unbounded arithmetic, how late the traveller is, the slack, and which reservations the replay finds at risk |
| `ReplanFacts.RiskIsReported` | src/planner/result_metadata.cpp:128-176 | a reservation is reported at risk if and only if one is reached too late or not at all, unless it is missed before a leg that does not exist and no reservation follows |
| `ForgottenRisk.MissedIsForgotten` | src/planner/result_metadata.cpp:138-148 | a concrete plan whose reservation is missed and not reported |
| `SmallPlans.SmallPlansDerive` | src/planner/result_metadata.cpp:98-176 | with times and travel small enough the facts always derive |
| `PlanningPipeline.FoundIsComplete` | src/planner/replan_attempt.cpp:16-38 | whatever an attempt's search finds is a complete accepted plan, found under one of the two outcomes the assembler takes |
| `PlanningPipeline.PlannedExactlyWhenFound` | src/runtime/concurrent_trip_runtime.cpp:1129-1230 | an attempt that acquired its matrix yields a stored proposal if and only if its facts derive, its search found a plan and the trip has an accepted mutation |
| `PlanningPipeline.EveryAttemptPlans` | src/runtime/concurrent_trip_runtime.cpp:1129-1230 | the same for every attempt of every run, with no condition on what it was seeded with: only the matrix, the facts, the search and the mutation decide |
| `LongStop.ReplayOverflowDropsPlan` | src/runtime/concurrent_trip_runtime.cpp:1154-1166 | a concrete attempt that has everything it needs, for which the search finds a plan, and which yields no proposal because replaying the current plan overflows |
| `PlanningPipeline.PlannedNames` | src/planner/replan_attempt.cpp:40-66 | the stored proposal is valid for the seed's activities and names the seed's epoch, planner version and plan |
| `AttemptResults.PlannedTells` | src/planner/replan_attempt.cpp:16-66 | what an attempt brings back is the plan its search found, written out, named after the seed, with the reasons of the derived facts, the depth and the qualities of search and routes |
| `AttemptResults.PlansWith` | src/runtime/concurrent_trip_runtime.cpp:1129-1230 | an attempt plans its own trip with the provider's travel times |
| `PlanningPipeline.PlannedGoesOnOffer` | src/runtime/concurrent_trip_runtime.cpp:1129-1276 | from state to search to proposal to commit: in every run whose starts are fit, a planned proposal goes on offer if and only if its token is still current, and the commit's own validity checks never refuse it |
| `RouteCacheTable.AtIsModulo` | src/routing/route_matrix_cache.cpp:259-263 | stepping round the table is addition modulo its size |
| `RouteCacheTable.ProbeDecides` | src/routing/route_matrix_cache.cpp:255-271 | a probe that meets a free slot or comes round has shown the key absent |
| `RouteCacheTable.EvictedTable` | src/routing/route_matrix_cache.cpp:400-408 | making a slot a tombstone keeps the chains and one slot per key, and removes exactly its key |
| `RouteCacheTable.WrittenTable` | src/routing/route_matrix_cache.cpp:411-418 | writing a key to a slot fit for it keeps the chains and one slot per key, and sets exactly that key |
| `RouteCacheShard.Shard.FindSlot` | src/routing/route_matrix_cache.cpp:255-271 | finds the key's slot, or shows that no slot holds it |
| `RouteCacheShard.Shard.FindInsertSlot` | src/routing/route_matrix_cache.cpp:273-296 | finds the key's own slot or, if it has none, the first unused slot on its probe; nothing is found only when every slot is taken by other keys |
| `CacheEviction.SweepMeans` | src/routing/route_matrix_cache.cpp:298-325 | which slot the scan takes: the first occupied one that is out of date or not in recent use, or else the first it comes back to, or else the last it met, and none exactly if it met none; only reference bits change |
| `RouteCacheShard.Shard.Scan` | src/routing/route_matrix_cache.cpp:298-318 | the loop in place does the declarative scan: the reference bits it clears and its choice |
| `RouteCacheShard.Shard.ChooseEviction` | src/routing/route_matrix_cache.cpp:298-325 | the choice is that one, the hand ends just past it, and when nothing was met the answer is slot 0 and nothing changes |
| `RouteCacheShard.Shard.Lookup` | src/routing/route_matrix_cache.cpp:342-377 | answers what the plain map answers at that age, never changes it, and a hit is the last estimate inserted for the key |
| `RouteCacheShard.AnswersByAge` | src/routing/route_matrix_cache.cpp:354-377 | an entry is fresh for six hours and stale from then until it is a day old |
| `RouteCacheShard.Shard.Insert` | src/routing/route_matrix_cache.cpp:389-420 | sets the key in the plain map, drops at most one other key, always finds a real slot, adds to a shard at its limit exactly when the key is new and there is nothing to evict, and below the limit only writes the slot fit for the key |
| `CacheLimit.SmallTableMeets` | src/routing/route_matrix_cache.cpp:298-325 | with at most 64 slots the scan meets every slot, so it meets an occupied one whenever there is one |
| `CacheLimit.InsertWithinLimit` | src/routing/route_matrix_cache.cpp:389-420 | with at most 64 slots the number of entries never passes the limit |
| `CacheLimit.PassTheLimit` | src/routing/route_matrix_cache.cpp:389-420 | for every hash and every limit above 32: as many different keys as the limit whose probes start beyond the first 64 slots and pile up there, and any one more, end with one entry more than the limit |
| `CacheHash.ComputeHash` | src/routing/route_matrix_cache.cpp:225-236 | the byte loops compute the FNV-1a hash of the key's bytes, most significant first |
| `CacheHash.EveryHomeHasKey` | src/routing/route_matrix_cache.cpp:225-236 | for every value of the low fourteen bits and every departure there is a key whose hash ends in them |
| `ShardCrowds.PassOwnLimit` | src/routing/route_matrix_cache.cpp:225-241 | with the cache's own hash, any number of shards and any limit of 33 to 8192 entries for each, keys that all go to one shard take it past the limit |
| `RouteCacheShard.NextPowerOfTwo` | src/routing/route_matrix_cache.cpp:243-253 | a power of two that is at least the value and at least two, and less than twice the value unless it is two: hence the least one |
| `MatrixAssembly.LookUpAll` | src/routing/osrm_travel_time_provider.cpp:287-308 | one pass over the cells leaves the fresh hits in place and lists every missing pair's source and destination, each cell once |
| `MatrixAssembly.BuildRequest` | src/routing/osrm_travel_time_provider.cpp:317-337 | the combined request names each cell once and its indexes pick out exactly the missing sources and destinations |
| `MatrixAssembly.FilledIsFull` | src/routing/osrm_travel_time_provider.cpp:388-413 | fresh hits and one grid of missing cells make the full table of the provider |
| `MatrixAssembly.HitsAreFull` | src/routing/osrm_travel_time_provider.cpp:309-315 | hits alone, when nothing is missing, make the full table of the provider |
| `MatrixAssembly.TrustGrows` | src/routing/osrm_travel_time_provider.cpp:374-387 | remembering what a fixed provider answered keeps the cache in agreement with it, whatever is evicted |
| `MatrixAssembly.FillStale` | src/routing/osrm_travel_time_provider.cpp:354-371 | stale entries fill the table exactly when every missing cell has one |
| `MatrixAssembly.GetMatrixCached` | src/routing/osrm_travel_time_provider.cpp:274-414 | for a provider that is a fixed function of the cell pair, the matrix built from hits and a partial fetch is the full table, the cache stays in agreement, and the exit for a missing cell is never taken; failures fall back on stale entries exactly when those suffice |
| `JsonTheorems.BytesRead` | src/providers/strict_json.cpp:156-206 | reading an escaped byte string back gives the bytes, for all bytes |
| `JsonTheorems.IntegerReads` | src/providers/strict_json.cpp:208-241 | reading a printed integer back gives it, for all 64-bit integers |
| `JsonTheorems.ValueReads` | src/providers/strict_json.cpp:38-116 | reading a value's canonical text in front of a delimiter gives the value and stops there |
| `JsonTheorems.ParseOfCanonical` | src/providers/strict_json.cpp:15-299 | parsing the canonical text of any value, nested to any depth, gives the value back |
| `JsonCanonical.ReadIsOrdered` | src/providers/strict_json.cpp:38-116 | whatever the parser reads has its object keys distinct and in order |
| `JsonCanonical.CanonicalizeIsIdempotent` | src/providers/strict_json.cpp:247-299 | canonicalizing a text that parses, and parsing again, gives the same value, so canonicalizing twice is canonicalizing once |
| `JsonCanonical.CanonicalIsInjective` | src/providers/strict_json.cpp:247-299 | different values have different canonical texts |
| `JsonStrings.Utf8Decodes` | src/providers/strict_json.cpp:117-133 | what is written for a code point decodes, by the bit patterns of section 3 of RFC 3629, to that code point |
| `JsonStrings.Utf8IsTheEncoding` | src/providers/strict_json.cpp:117-133 | and nothing else does |
| `JsonStrings.PiecesRead` | src/providers/strict_json.cpp:156-206 | every spelling of a string by plain bytes, the eight simple escapes, hexadecimal code units and surrogate pairs reads as the bytes it stands for |
| `JsonStrings.StringSpelled` | src/providers/strict_json.cpp:156-206 | and whatever reads as a string is such a spelling |
| `JsonParses.ParsesIff` | src/providers/strict_json.cpp:15-241 | for every text and value: the text parses as the value if and only if it is written, between spaces, as a document of the grammar that means the value: spaces, spellings, decimal digits without leading zeros, distinct keys in any order |
| `JsonCompact.CanonicalIff` | src/providers/strict_json.cpp:247-299 | a value's canonical text is the one document without spaces, with members in key order, bytes in their simplest form and lower-case digits |
| `JsonParser.Parser.ParseString` | src/providers/strict_json.cpp:156-206 | the cursor loop reads what the grammar reads, surrogate pairs and rejections included |
| `JsonParser.Parser.ParseInteger` | src/providers/strict_json.cpp:208-241 | the cursor loop reads what the grammar reads: no leading zeros, no fractions or exponents, no value out of range |
| `JsonParser.Parser.ParseObject` | src/providers/strict_json.cpp:54-90 | the cursor loop reads what the grammar reads and rejects a repeated key |
| `JsonParser.Parser.ParseValue` | src/providers/strict_json.cpp:38-52 | the recursive cursor reads what the grammar reads and moves on |
| `JsonParser.ParseText` | src/providers/strict_json.cpp:15-24 | the parser accepts and gives exactly what the grammar does, trailing bytes rejected |
| `JsonPrinter.Printer.Append` | src/providers/strict_json.cpp:273-299 | the recursive printer appends exactly the canonical text |
| `JsonPrinter.Canonicalize` | src/providers/strict_json.cpp:317 | the printed text is the canonical text |
| `TimeZones.OffsetAtUtc` | src/providers/tzif.cpp:466-488 | the binary search finds the offset of the last transition no later than the moment |
| `TimeZones.AvailableOffsets` | src/providers/tzif.cpp:490-498 | the list ascends and holds the offset of every moment |
| `TimeZones.UtcCandidates` | src/providers/seeded_hours_provider.cpp:27-38 | the candidates are exactly the moments that the local second names, each once, restricted to the required offset if one is given |
| `TimeZones.BuildDiscontinuities` | src/providers/tzif.cpp:178-205 | the loop lists the declarative gaps and folds |
| `TimeZones.OneTransition` | src/providers/tzif.cpp:178-205 | one more transition changes the number of moments a local second names by its gap or fold |
| `TimeZones.CandidateCount` | src/providers/tzif.cpp:466-498 | for every zone and footer, daylight time included: the number of moments a local second names is one, plus one for every fold and less one for every gap that holds it, less one if the last offset names a moment the footer speaks for, plus those the footer itself names |
| `TimeZones.EarlyCount` | src/providers/tzif.cpp:466-498 | the footer does not matter for a local second none of whose possible moments is after the last transition |
| `TimeZones.PlainCount` | src/providers/tzif.cpp:178-205 | without daylight time in the footer, a local second names one moment, plus one for every fold and less one for every gap that holds it, the jump to the footer's offset included, however they overlap |
| `TimeZones.GapsAndFolds` | src/providers/tzif.cpp:178-205 | with such jumps apart a local second names no moment in a gap, two in a fold and one elsewhere |

## Left out

- Libraries and stores (libcurl, gRPC, WebSocket, PostgreSQL, HTTP handlers), the Go services and the frontend: input and output over code that is not part of this model.
- Threads, executors and queues: each task of the runtime is one atomic step, queue depth and free permits are inputs of the step, and nothing is claimed about progress.
- Clocks, deadlines and stop tokens: read as arbitrary inputs at each poll; the stop source kept with a running attempt is not part of the trip.
- One trip and one cache shard: trips do not share state, and a key always goes to the shard its hash selects, so the map of trips and the array of shards are left out; where it matters which keys a shard receives, they are chosen accordingly (`ShardCrowds.PassOwnLimit`).
- The cache's `enabled` switch, its metrics and its configuration checks, and coordinate rounding: cells are abstract, the hash is a parameter of the shard (its own is `CacheHash.HashKey`), and masking with a power of two is written as a remainder.
- `MatrixAssembly.GetMatrixCached`: the provider's "no table" answer is not modelled, because its rule for the diagonal is positional; the size check on the request and the lease of a connection are failures of the fetch.
- Floating-point coordinates and distances: real or integer quantities; no result depends on rounding.
- `TimeZones.UtcCandidates`: the daylight rule of a footer is an arbitrary predicate of the moment, and the difference of local second and offset does not wrap; reading the bytes of a zone file and the calendar rules are not modelled.
- Byte-level arithmetic in JSON: UTF-8 and hexadecimal digits are written with division and remainder; an exception is `None`; an object is a sequence of members sorted by key, which is what the ordered map iterates over.
- Derived metadata: the reasons are an arbitrary function of the derived facts; notifications, planner statistics and stage timings are not modelled.
- Failure codes of an attempt: a matrix that cannot be acquired, facts that do not derive and a search that finds nothing are all "no proposal".
- `StaleCommits.CommitsStaleIff`: over continuations in which the traveller edits no activity; which sequences of edits lead from one trip's activities to another's is not worked out, and `EditedBack.EditBringsBack` shows that they matter.
- `PlannerSafety.NoStaleResult`: over runs without edits, for the same reason; `RuntimeSafety.NoStaleCommit` covers all runs, under a stronger guard.
- `ShardCrowds.PassOwnLimit`: for limits of up to 8192 entries a shard, the default; larger tables have more home slots than two bytes of a key are shown to reach.
- `RuntimeCoalescing.RunIsOrderly`: assumes valid planning contexts and no erasure while an attempt is out; with an erasure two attempts can be out, as `ReusedEpochCommitsStale` shows.
- `PlannerColumns.PrepareColumns`: the columns that no reader uses (shortening, and copies of the windows) are not modelled.
- Events always come with a planning context and durable events always advance the revision, as in every caller.
- Read-only snapshot requests, status mapping for callbacks, SHA-256, load generators, scripts and configuration: they would only add easy members.
