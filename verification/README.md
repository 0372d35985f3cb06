# A verified model of the GPU capacity controller

This project models, in Dafny, the decisions of a controller that shares GPUs
between calendar bookings, on-demand leases and best-effort pods on a Kubernetes
cluster, and proves properties of them. `dafny verify dfyconfig.toml` checks it.

| file | models |
|---|---|
| `Reservations.dfy` | the calendar, back-to-back chains and the runtime guarantee |
| `Commitments.dfy` | GPUs committed at an instant, their peak, guard 4 and batches of grants |
| `Occupancy.dfy` | the occupancy map, adoption and merge planning |
| `Admission.dfy` | optimistic admission as interleaved steps |
| `Preemption.dfy`, `Sweep.dfy` | boundary demand, victim pools and choices; the sweep over all boundaries |
| `Headroom.dfy` | the standing headroom goal and the notice its victims are given |
| `Forecast.dfy` | the preemption-risk forecast, over the reals |
| `Placement.dfy` | node selectors and required node affinity |
| `NodeAccounting.dfy`, `AccountingForms.dfy` | per-node free GPUs kept incrementally, and the three ways of counting them |
| `NodeFit.dfy` | guard 5 and the re-judging of the candidates it holds |
| `SingletonLease.dfy` | the singleton Lease protocol |
| `CoalescingRunner.dfy` | the lock and rerun flag of the admission runner |
| `LogFields.dfy` | the log-line printer and its parser |
| `Pods.dfy`, `Sums.dfy` | pod snapshots and views; sums over sequences and maps |

Code that updates state in place is a class or a method with loops, proved against
a specification function or predicate; the lemmas are about the specifications.
Protocols whose steps interleave (admission, the Lease, the runner) are state
machines, and their theorems hold for every run.

## What the proofs found

- **The guarantee is kept only for short chains.** A pod is promised its GPUs to the
  end of its chain, but a chain is recomputed empty once its first link has ended.
  `PromiseKeptIff` shows that the promise holds throughout if and only if the chain
  has at most one link (so long as the pod is not relinked to a later booking
  meanwhile); `PromiseBroken` gives three bookings that break it.
- **Killing can raise a boundary's demand.** If a booking opening at a boundary is
  itself already past its guarantee and has room left, killing its holder raises the
  demand the sweep was clearing. `SteadyExactly` shows that this is the only way.
- **A rollback after a lost reply is unsafe.** If the toleration patch landed but its
  reply was an error, releasing the record lets another pod take the same GPU.
  `RollbackIsSafeIff` gives the exact condition, `LostReplyOvercommits` a run.
  The same holds for a later attempt on a pod that is admitted already.
- **The Lease excludes only while holders renew.** `AtMostOneHolder` needs that the
  record of an instance holding the lease (or about to, its write having landed) never
  ages past its duration; from every state where one has, `StaleHolderCanBeJoined`
  reaches a second holder. While it does not, only a crash takes the lease from its
  holder (`OnlyCrashEndsHolder`).
- **A pass that raises can lose a wake-up.** It does so if and only if it raises while
  the rerun flag is set (`EndStrandsExactly`): the flag is set exactly while a trigger
  is unanswered (`FlagIsExact`). `RaisingLosesTrigger` gives a run.
- **A risk of zero is not a promise.** The forecast shows none in a bucket the guarantee
  covers, but a sweep may take the pod from the end of its first link on
  (`RiskFreeHonouredIff`, `LongChainIsNotHonoured`).
- **Guard 4 judges before it awaits.** A push landing between judgment and upsert can
  leave an instant beyond both bounds (`PushBetweenOvercommits`), by no more than it
  added (`RunBound`); the late lease itself is harmless exactly when it still fits
  (`LateGrantExactly`).
- **A grant guard 5 does not judge may not be placeable.** It can be placed beside the
  claims outstanding exactly when they claim fewer GPUs than the class has free
  (`UnjudgedExactly`, `RunBindableIff`), which the guard does not ask;
  `UnjudgedCanBreak` gives an instance.
- **A relink checks no budget.** A pod admitted while a relink's patch is awaited makes
  it overcommit its target (`RelinkRaceOvercommits`), by no more than was admitted
  (`RelinksBound`); it is harmless exactly when the target still has room
  (`RelinkKeepsBudgetIff`). A pod the watch has recorded under the target already may
  stay on both reservations (`RelinkKeepsOldRecord`, `RelinkSettlesExactly`).
- **An attempt on an admitted pod for another reservation records it twice**, and no
  other step of the admission protocol does (`SingleBrokenExactly`).

## Assumptions

Stated as preconditions of the theorems that need them, and nowhere else:

- bookings have `start < end`, and reservation ids and pod uids are distinct;
- clocks and snapshot instants do not run backwards (the accounting class tracks
  whether they ever did, and the merge result is claimed only if not), and the
  Lease's instances share one clock;
- a pod's class, GPU count and placement do not change, and a bound pod is not unbound;
- node labels and inventory are installed together;
- one admission attempt is in flight per pod uid;
- a granted lease lies within the window guard 4 judged for it, and the map from GPU
  class ids to labels does not change during a run of grants;
- no pod binds, ends or arrives from elsewhere during a run of guard-5 grants, so the
  free maps stay as they are and only the grants add claims;
- class and node names are not empty strings (for comparing the accounting forms).

Coverage of a boundary is claimed for classes that something wants there: the sweep
leaves alone a class that is over-committed but that nobody wants.

## Model

| member | source | states |
|---|---|---|
| Reservations.ChainFor | app/controller.py:1750-1827 | the walk over back-to-back bookings terminates and returns exactly the specified chain, although it walks a list sorted by start |
| Reservations.ChainShape | app/controller.py:1750-1827 | a chain abuts link to link from its anchor's end, repeats no booking, cannot be extended, takes the longest booking at each step, and holds only live bookings that may follow the anchor |
| Reservations.ChainMembers | app/controller.py:1797-1827 | field by field, a chain holds only live bookings of the anchor's user, class, size and (where groups count) group that are no no-shows, and every such booking that starts where the chain ends; an anchor without user or class has none |
| Reservations.LongestIsFirst | app/controller.py:1812-1824 | of the bookings a chain may go on with, the one taken is the first listed of those that end last |
| Reservations.ChainOverTime | app/controller.py:1797-1827 | at any instant the chain is the whole chain or empty: whole exactly while its first link has not ended |
| Reservations.ChainNeverChangesShape | app/controller.py:1797-1827 | from one instant to a later one a chain stays or becomes empty, and it is empty exactly when there is no first link or the first link has ended |
| Reservations.WholeChainAscends | app/controller.py:1797-1827 | ends strictly increase along a chain and all lie past the anchor's end |
| Reservations.AdmissionPromise | app/controller.py:1829-1847 | while the anchor has not ended the guarantee is the end of the whole chain |
| Reservations.PastGuaranteeExactly | app/controller.py:2631-2640 | a pod is past its guarantee exactly from the end of the first link of its chain (of its own booking when there is none), or when it has no reservation or one that is not listed |
| Reservations.PromiseKeptIff | app/controller.py:1829-1877 | the guarantee promised at admission is honoured at every instant before its end if and only if the chain has at most one link |
| Reservations.PromiseBroken | app/controller.py:1797-1877 | three concrete bookings back to back: promised to the end of the third, past its guarantee at the end of the second |
| Reservations.ClaimedExactly | app/controller.py:1879-1896 | a holder claims its own reservation and, if that is a user's booking, every link of its whole chain until the first of them has ended |
| Reservations.PastGuaranteeClaimsItself | app/controller.py:1879-1896 | so a pod past its guarantee claims its own reservation id and nothing else |
| Commitments.PeakCommitted | app/controller.py:2023-2066 | the returned peak bounds the committed GPUs at every instant of the interval, is attained, and is attained first at the returned instant |
| Commitments.InstantsDominate | app/controller.py:2023-2066 | every instant of the interval is dominated by one of the finitely many sampled instants, which is no later |
| Commitments.CommittedOneMore | app/controller.py:2023-2066 | one reservation more adds its GPUs exactly from its start up to its end, if it is a booking or an on-demand lease and no no-show, to the class the registry gives it, or its own label where that knows none |
| Commitments.PushedExactly | app/controller.py:74-97 | after a push each id is listed at most once: with the last pushed if that is active, not at all if it is not, and with what was listed last where nothing was pushed |
| Commitments.ChangesExactly | app/controller.py:74-97 | a cancelled id is no longer listed and every other is as it was; a refresh lists what it brings |
| Commitments.HoldOnOvercommit | app/main.py:1516-1545 | guard 4 holds an ask exactly when its class is overcommitted and, with the fit check on, some instant of the lease would exceed the physical count |
| Commitments.HeldExactly | app/main.py:1516-1545 | so, field by field: neither best-effort nor of another class, and at some instant of its lease beyond the physical count, which is 0 where none is known |
| Commitments.LateGrant | app/main.py:1516-1531 | a lease guard 4 let through, upserted into whatever calendar pushes and refreshes have left by then, leaves every instant at or below the larger of what it was when judged and the physical count, plus what they added there |
| Commitments.PushBetweenOvercommits | app/main.py:2854-2875 | a concrete ask that guard 4 lets through on an empty calendar, and a booking arriving while its answer is awaited, after which two GPUs of one are committed at an instant |
| Commitments.LateGrantExactly | app/main.py:2854-2875 | a new lease leaves the calendar it is upserted into no worse exactly when it still fits there throughout its own window |
| Commitments.CheckedGrantNoWorse | app/main.py:1516-1531 | upserting, with nothing in between, a lease guard 4 let through leaves every instant of every overcommitted class at or below the larger of what it was and the physical count |
| Commitments.RemovalNoWorse | app/controller.py:74-97 | cancelling a lease never raises what is committed |
| Commitments.GrantBatch | app/main.py:2854-2875 | a batch judges each ask against the calendar left by the grants before it and by the changes that arrived while their answers were awaited |
| Commitments.BatchBound | app/main.py:2854-2875 | a whole batch, interrupted or not: at every instant at most the larger of before and physical, plus what changes from outside added at that instant |
| Commitments.BatchNoWorse | app/main.py:2854-2875 | a batch that nothing interrupts leaves no instant worse than the larger of before and physical |
| Commitments.RunBound | app/main.py:1516-1531 | over any run of batches, cancellations, pushes and refreshes, however they interleave, only what comes from outside can push an instant beyond the larger of before and physical |
| Commitments.GuardedRunNoWorse | app/main.py:1516-1531 | and with nothing from outside no instant of the run is worse |
| Occupancy.OccupancyMap.AvailableOn | app/controller.py:2196-2210 | GPUs left on a reservation, clamped at zero, one pod excluded if asked |
| Occupancy.OccupancyMap.RecordPlacement | app/controller.py:2264-2279 | the pod's use is recorded under the reservation and nothing else changes |
| Occupancy.OccupancyMap.ReleasePod | app/controller.py:2281-2298 | a pod recorded once is removed, its reservation returned, and an emptied reservation dropped |
| Occupancy.OccupancyMap.RelinkPod | app/controller.py:2300-2311 | the pod leaves the one reservation it is first found on and is recorded under the new one; on record once before, it is on record once after |
| Occupancy.RelinkUse | app/controller.py:2300-2311 | with each pod on one reservation, a relink keeps it so and adds use only to its target |
| Occupancy.RelinkKeepsBudgetIff | app/controller.py:2300-2311 | a relink, which looks at no budget, leaves its target within the larger of its use before and its GPU count exactly when the target still has the pod's GPUs available, itself excluded, or has it on record with as many already |
| Occupancy.RelinkSettlesExactly | app/controller.py:2281-2311 | the pod ends on its target alone exactly when it was on record with no other reservation than the one released |
| Occupancy.FindOpenBooking | app/controller.py:1588-1637 | the open booking chosen can take the pod net of what the pass has assigned, and is the best by end, spare and id; none is returned only when none can take it |
| Occupancy.BestIsLongest | app/controller.py:1588-1637 | no booking that could take the pod ends later than the one chosen, or as late with more to spare, or as late with as much and a higher id |
| Occupancy.PlanRelinks | app/controller.py:2642-2760 | each pod of an adoption or merge pass is assigned the best booking that can take it given the assignments before, or stays |
| Occupancy.PlanWithinBudget | app/controller.py:2642-2760 | what one pass assigns to a reservation is at most what it had available when the pass began, and no pod is assigned its own reservation |
| Occupancy.PlannedMoves | app/controller.py:2642-2760 | field by field, only a live admitted pod past its guarantee (or, to merge, on an on-demand lease) is moved, and only to an open booking, no no-show, of its own user, class and, where groups count, group |
| Occupancy.NoneLeftBehind | app/controller.py:2642-2760 | where such a booking has room for such a pod even after all the moves planned, the pod is moved, or already sits on one that ends no sooner |
| Occupancy.CarryOut | app/main.py:4529-4560 | the loop that carries a plan out, with other coroutines changing occupancy while each pod is read and patched, leaves the occupancy specified |
| Occupancy.CarriedUse | app/main.py:4504-4675 | executing any subset of the planned relinks adds to each reservation at most what the plan assigned it, plus what other coroutines recorded meanwhile |
| Occupancy.RelinksBound | app/main.py:4504-4675 | whichever relinks land, whatever comes in between and wherever a pod is on record twice, every reservation uses at most the larger of what it used and its GPU count, plus what others recorded on it meanwhile |
| Occupancy.RelinksConserveBudget | app/main.py:4504-4675 | with nothing in between, at most the larger of what it used and its GPU count, and each pod is in one reservation |
| Occupancy.RelinkRaceOvercommits | app/main.py:4536-4560 | a concrete relink that, a pod having been admitted while the patch was awaited, uses two GPUs of a booking of one |
| Occupancy.RelinkKeepsOldRecord | app/controller.py:2281-2311 | a pod already recorded under the new reservation may lose that record instead of the old one, and stay on both |
| Admission.TryReserve | app/main.py:1007-1021 | a pod is recorded, before anything is awaited, exactly when its reservation has room for it |
| Admission.ReserveIsBegin | app/main.py:1007-1021 | the budget test of the imperative step is the enabling test of the protocol's first step |
| Admission.StepKeepsBooks | app/main.py:1007-1088 | every protocol step, attempts on pods already admitted included, keeps: use within each reservation's GPU count, and every patched live pod and every attempt in flight recorded |
| Admission.AdmissionSafe | app/main.py:1007-1088 | in every reachable state of any interleaving, use is within budget and every patched live pod is recorded |
| Admission.AttemptExactly | app/main.py:1007-1088 | an attempt that others' use leaves no room for changes nothing; any other ends with the pod recorded, patched and no longer in flight, or, rolled back, with everything as it was |
| Admission.AdmittedPodLeaves | app/main.py:3315-3398 | the watch's sight of a live admitted pod changes nothing, and its end frees its GPUs and changes nothing else |
| Admission.SingleBrokenExactly | app/main.py:1007-1053 | a step puts a pod on a second reservation exactly when it begins an attempt, with room for it, on a pod on record with another |
| Admission.RollbackIsSafeIff | app/main.py:1078-1088 | rolling an attempt back keeps the books if and only if its patch had not landed, its pod has ended, or the record released is not the one its patch names |
| Admission.LostReplyOvercommits | app/main.py:1078-1088 | a concrete run in which the patch lands, its reply is lost and the rollback lets one GPU be used twice |
| Preemption.ChainedGpus | app/controller.py:2762-2812 | GPUs of live pods per reservation their chain reaches |
| Preemption.BoundaryDemand | app/controller.py:2762-2812 | for each class, the GPUs bookings opening at the boundary still need beyond what is recorded or chained onto them |
| Preemption.WantedExactly | app/controller.py:2762-2812 | a class is wanted exactly when some user's booking of it that starts there, no no-show, has more GPUs than its own pods use and chained holders bring |
| Preemption.SuppliedWantsNothing | app/controller.py:2774-2812 | when holders chained onto the bookings that start at a boundary cover what is left of them, nothing is wanted there |
| Preemption.FreeCapacityByClass | app/controller.py:100-126 | free GPUs of each known class: capacity less live residents on counted nodes, possibly negative |
| Preemption.PlanBoundaryCandidates | app/controller.py:2814-2867 | exact shortfalls and, per short class, exactly the pods past their guarantee that may be preempted |
| Preemption.OfferedExactly | app/controller.py:2814-2867 | field by field, the pods offered are those of short classes that are admitted, live on a counted node, hold GPUs, and whose reservation is not listed or has seen its first following window end |
| Preemption.MapSelectedVictims | app/main.py:4741-4770 | whatever uids are answered, the choice is a legal one and picks an offered pod exactly when its uid was answered |
| Preemption.SelectVictimsLocally | app/controller.py:757-783 | each class takes from a permutation of its pool just until the shortfall is covered |
| Preemption.TakeUntilCovers | app/controller.py:757-783 | what is taken covers the shortfall or is the whole pool, and no prefix short of it would do |
| Preemption.SelectVictims | app/main.py:4773-4798 | the choice is the filtered answer when there is one and the local one otherwise |
| Preemption.LocalChoiceExhausts | app/controller.py:757-783 | the local choice leaves a class short only when it takes the whole pool |
| Preemption.BuildPreemptionPlan | app/controller.py:785-813 | the plan lists the chosen pods class by class, and reports exactly the shortfalls left |
| Preemption.JoinedVictims | app/controller.py:785-813 | the plan's victims are exactly the chosen pods, none twice, freeing per class what was chosen for it |
| Preemption.UnmetExactly | app/controller.py:785-813 | a class is reported unmet exactly when the plan's victims of it hold fewer GPUs than it needs, and by that difference |
| Sweep.RemovalKeepsDemand | app/controller.py:2762-2812 | killing pods past their guarantee changes no boundary's demand, when no booking opening there with room left is past its guarantee |
| Sweep.SteadyExactly | app/controller.py:2762-2812 | that condition is exact: without it some choice of victims raises the demand |
| Sweep.OverstayingHolder | app/controller.py:2762-2812 | a booking opening at the boundary with room left and already past its guarantee has a holder whose kill raises the demand |
| Sweep.RunningBookingsAreSteady | app/controller.py:2762-2812 | the condition holds whenever no booking opening at the boundary has ended |
| Sweep.ChoiceIsVictims | app/controller.py:2814-2867 | the victims of any legal choice are distinct pods past their guarantee |
| Sweep.ChoiceCovers | app/controller.py:785-813 | any legal choice covers its boundary: what is wanted is at most what is then free plus what is reported unmet |
| Sweep.KillsKeepCovered | app/main.py:4897-4935 | later kills of the sweep leave an earlier boundary covered |
| Sweep.PreemptionMarks.Fire | app/main.py:4897-4902 | a boundary is evaluated once in each phase |
| Sweep.ClearBoundary | app/main.py:4897-4935 | one boundary: its victims are the chosen ones and it ends covered |
| Sweep.ClearBoundaries | app/main.py:4897-4935 | after the whole loop, for any answers and any changes of occupancy while they are awaited: no pod is chosen twice, every victim is past its guarantee, every evaluated boundary is covered by the survivors as measured when it was evaluated, and each boundary's choice was made on the survivors of those before it |
| Sweep.CoveredLater | app/main.py:4897-4935 | once occupancy has moved on, a covered boundary wants more than is free or reported unmet only by what the moves added to its demand |
| Sweep.EvaluatedExactly | app/main.py:4897-4902 | the boundaries evaluated are exactly the ones in scope not yet marked for their phase, and all are marked afterwards |
| Sweep.PreemptionMarks.Prune | app/controller.py:3064-3072 | exactly the marks of boundaries a lead time or more past are dropped |
| Sweep.OncePerSide | app/main.py:4829-4904 | over any run of sweeps, marks being dropped as boundaries go out of scope, a sweep looks at a boundary exactly when every earlier sweep asked about it came before the boundary and this one does not: once before it comes and once from then on |
| Forecast.BucketsTile | app/controller.py:827-844 | three buckets, the first to the next full hour and the others an hour each; every instant of the horizon lies in exactly one |
| Forecast.CombineRisks | app/controller.py:866-877 | the combined risk is one minus the chance that every part spares the pod |
| Forecast.SurvivalMultiplies | app/controller.py:866-877 | that chance is a product: one part more multiplies it by one minus the part, clamped to [0, 1] |
| Forecast.CombinedCoversParts | app/controller.py:866-877 | the combined risk is at least each part's |
| Forecast.NoRiskExactly | app/controller.py:866-877 | it is zero exactly when no part is positive |
| Forecast.ForecastBoundaryNeed | app/controller.py:3100-3152 | demand, shortfalls and per class the pods that would be past their guarantee at the boundary |
| Forecast.EligibleExactly | app/controller.py:3100-3152 | field by field, the pods a boundary could cost their GPUs are the admitted, live ones on counted nodes whose guarantee has ended by the boundary, or that have none |
| Forecast.ForecastAgreesWithSweep | app/controller.py:3100-3152 | at the same instant the forecast needs exactly the sweep's kills, its pool contains the sweep's, and equals it at the boundary itself |
| Forecast.PodRisks | app/controller.py:3262-3299 | a pod's risk per bucket combines the boundaries that could preempt it there |
| Forecast.RiskExactly | app/controller.py:3262-3299 | every risk lies in [0, 1] and is zero exactly when no boundary contributes |
| Forecast.RiskWhen | app/controller.py:3262-3299 | a pod is at risk in a bucket exactly when some boundary takes pods of its class and some instant of the bucket lies in the lead time up to that boundary and not inside the guarantee |
| Forecast.ShareOfPool | app/controller.py:3262-3299 | a boundary's share is the GPUs it needs of those in its pool, at most the whole |
| Forecast.OneMoreBoundary | app/controller.py:3262-3299 | a boundary that contributes adds its share to the risks combined, any other nothing |
| Forecast.GuaranteedIsRiskFree | app/controller.py:3262-3299 | a bucket the pod's guarantee fully covers has risk exactly zero |
| Forecast.RiskFreeHonouredIff | app/controller.py:2814-2867 | no sweep at any instant of a bucket can take a live pod if and only if the bucket ends by the end of the first link of its chain (of its booking when there is none) |
| Forecast.ShortChainIsHonoured | app/controller.py:3262-3299 | so a bucket the guarantee covers, risk zero, is honoured by every sweep in it when the chain has at most one link |
| Forecast.LongChainIsNotHonoured | app/controller.py:3262-3299 | and with two or more links it is not: a sweep at the first link's end may take the pod while the forecast's guarantee runs on |
| Forecast.WholePoolIsCertain | app/controller.py:3262-3299 | a contributing boundary makes the risk positive, and certain when it needs the whole pool |
| Placement.BoundsCompareIntegers | app/k8s_client.py:805-827 | Gt and Lt on the decimal spellings of two integers compare the integers |
| Placement.BoundsNeedIntegers | app/k8s_client.py:818-827 | any accepted spelling counts as the integer it spells, the two operators exclude each other, and a label that is absent or no integer, or a bound not one single integer, satisfies neither |
| Placement.OperatorsExactly | app/k8s_client.py:805-817 | In and Exists ask for a label among the values, or at all; NotIn and DoesNotExist are their opposites, which an absent label satisfies |
| Placement.TermsNarrow | app/k8s_client.py:848-855 | a term without requirements accepts no node, and each requirement on a label or on the node's name narrows it |
| Placement.PlacementsCompose | app/k8s_client.py:875-880 | each selector entry narrows a placement, each affinity term widens it, and required affinity without terms accepts no node |
| Placement.IntegerSpelling | app/k8s_client.py:793-795 | an integer is an optional sign and one digit or more, and nothing else |
| Placement.SignsAndZeros | app/k8s_client.py:793-795 | a plus sign or a leading zero changes no integer, a minus sign negates it |
| Placement.DecimalRoundTrip | app/k8s_client.py:793-795 | the accepted integer syntax reads back every integer's decimal spelling |
| Placement.NarrowsExactly | app/controller.py:266-287 | a placement narrows a class exactly when the class is known, all its nodes carry labels and one of them refuses the pod; what is left is then exactly the nodes that accept it |
| NodeAccounting.NodeFreeFromPods | app/controller.py:354-372 | free GPUs of every listed node: allocatable less the records bound there |
| NodeAccounting.LargestNodeFreeByClass | app/controller.py:155-168 | per class the most free on one node, zero for a class without nodes |
| NodeAccounting.NodeAccounts.InstallNodeInventory | app/controller.py:2462-2478 | both free maps equal recomputation from the new snapshot |
| NodeAccounting.NodeAccounts.SetGpuPod | app/controller.py:2502-2522 | one record changes, the change is remembered, and both free maps still equal full recomputation although only the classes involved are re-derived |
| NodeAccounting.NodeAccounts.RebuildGpuPods | app/controller.py:2480-2500 | the records become the snapshot with every change since it was taken replayed over it, and both free maps equal recomputation |
| NodeAccounting.NodeAccounts.DeriveNodeFree | app/controller.py:2524-2540 | exactly the known classes named are re-derived |
| NodeAccounting.PartialIsWhole | app/controller.py:2502-2540 | re-deriving the classes of a pod's old and new record is re-deriving every class |
| NodeAccounting.MergeIsReplay | app/controller.py:2480-2500 | laying the remembered changes over any snapshot is replaying every change made since it was taken; what is pruned no later snapshot needs |
| NodeAccounting.SnapshotMergeExact | app/controller.py:2480-2500 | if a snapshot shows some prefix of the changes containing all made before it was taken, the rebuild gives the outcome of the whole history: no removal undone, no addition lost |
| AccountingForms.FreeGpusByNodeClass | app/controller.py:129-152 | free GPUs of every listed node: allocatable less the live residents' views |
| AccountingForms.RecordedExactly | app/controller.py:313-351 | field by field, a pod is on record exactly when it is not terminating, has a class and GPUs, and is bound and scheduled, or unbound and pending; an unbound record names no node |
| AccountingForms.ViewedExactly | app/main.py:4167-4196 | field by field, the planners' view of each pod, resident or not and its node counted or not |
| AccountingForms.RecordsAgreeWithViews | app/controller.py:313-372 | counted from pod records or from pod views of the same pods, every node has the same free GPUs |
| AccountingForms.NodesAgreeWithClasses | app/controller.py:100-152 | summed over a class's nodes, free GPUs are the per-class count plus the GPUs of resident pods on no node |
| NodeFit.NodeClaims | app/controller.py:2542-2575 | GPUs of the class's unbound admitted pods whose own allowed nodes overlap the ask's |
| NodeFit.ClaimsExactly | app/controller.py:2542-2575 | the pods netted are exactly the unbound ones of the class that could land on a node the ask could use |
| NodeFit.JudgeFit | app/main.py:1444-1472 | none where guard 5 does not apply or has no data, otherwise the largest usable opening and the claims on it |
| NodeFit.FitsExactly | app/main.py:1433-1472 | an ask passes exactly when guard 5 fails open or some usable node has room beyond all overlapping claims |
| NodeFit.FitMeansPlaceable | app/main.py:1433-1472 | when an ask fits, one node it may use (one the scheduler accepts, once all nodes carry labels) keeps room for it under every binding of the other claims, whichever bind and wherever their placements let them |
| NodeFit.GrantKeepsBindable | app/main.py:960-985 | a judged grant recorded as a claim leaves all claims of every class bindable at once |
| NodeFit.OneMoreFitsExactly | app/controller.py:2542-2575 | for a pod of one GPU that any node of the class will do for, and claims that can all be bound, it can join them if and only if they claim fewer GPUs than the class's nodes have free between them |
| NodeFit.UnjudgedExactly | app/main.py:1461-1470 | what guard 5 lets through unjudged, of a class it knows, is such a pod; recorded as a claim it keeps the class's claims bindable exactly when the claims netted were fewer than the class's free GPUs (or the class has no node) |
| NodeFit.RunBindableIff | app/main.py:1433-1472 | over any run of the grants guard 5 lets through, judged or not, the claims of a class stay bindable if and only if at every one it did not judge the claims outstanding were fewer than the class's free GPUs |
| NodeFit.JudgedRunKeepsBindable | app/main.py:960-985 | so a run of grants all judged, each against the claims of those before it, keeps them bindable |
| NodeFit.UnjudgedCanBreak | app/main.py:1461-1462 | a concrete one-GPU ask of a full class, let through unjudged, whose claim cannot be bound |
| NodeFit.MarginNeverGrows | app/controller.py:375-387 | a record change that frees nothing grows no ask's largest opening less claims |
| NodeFit.FreesUpExactly | app/controller.py:375-387 | of the changes a pod goes through, those said to free capacity are exactly those that can let some ask pass that did not |
| NodeFit.FitGuard.HoldOnFit | app/main.py:1575-1606 | an ask is held, and put off, exactly when it does not pass |
| NodeFit.FitGuard.RetryNodeFitHolds | app/main.py:1610-1642 | exactly the held candidates of the class that now pass are released and made due |
| NodeFit.ReleasedExactly | app/main.py:1628-1634 | a candidate released is held no more and tried at the sooner of its own clock and now; every other stays as it was |
| NodeFit.FitGuard.NoteGpuPod | app/main.py:948-957 | after any watch event no candidate is held that would pass, and only candidates made due change |
| NodeFit.FitGuard.NoteAdmitted | app/main.py:960-985 | the claim is recorded unless the pod was released, is tracked or is bound; no candidate is then held wrongly |
| NodeFit.RejudgedHoldRightly | app/main.py:1610-1642 | re-judging the one class a change concerns leaves no candidate of any class held wrongly |
| NodeFit.TakingHoldsRightly | app/controller.py:375-387 | a change that frees nothing needs no re-judging at all |
| SingletonLease.StepKeepsInv | app/k8s_client.py:2454-2547 | every write in flight over the current version was decided on the current record |
| SingletonLease.DisplacedOnlyWhenExpired | app/k8s_client.py:2454-2547 | in any run of any number of instances a holder loses the record only to a write decided on its latest record, aged beyond its duration or never renewed |
| SingletonLease.ExpiredExactly | app/k8s_client.py:2409-2416 | a record is expired from the first whole second beyond its duration, 60 where it names none, or if it was never renewed |
| SingletonLease.ReaderEndsExactly | app/k8s_client.py:2472-2535 | a reader ends exactly when the record names another (or, for one that does not hold the lease, nobody) and is not expired by the reader's clock; no other instance ends |
| SingletonLease.StayingReaderClaims | app/k8s_client.py:2472-2547 | one that stays writes over the version it read, in its own name and as of its own clock, counting a change of holder exactly on a takeover; only a holder that finds no record writes nothing |
| SingletonLease.ErrorFailsOpen | app/main.py:5259-5342 | a failed call ends nobody: a holder goes on holding, and one starting goes on without the lease |
| SingletonLease.LandedIsFresh | app/k8s_client.py:2447-2456 | a write that lands names its writer under a new version and is fresh for less than 61 seconds from the writer's clock |
| SingletonLease.RenewalKeepsLease | app/k8s_client.py:2510-2547 | a holder the record names holds it on renewal, however long that takes, under a record that is fresh exactly if it took less than 61 seconds |
| SingletonLease.AtMostOneHolder | app/main.py:5259-5342 | while the record of an instance holding the lease never ages past its duration, at most one live instance holds it in every reachable state, restarts over an own old record included |
| SingletonLease.OnlyCrashEndsHolder | app/main.py:5289-5342 | while holders stay fresh, in every reachable state a holder is still one after any step but its own crash |
| SingletonLease.FreshRecordEndsReader | app/main.py:5289-5295 | an instance that reads another's unexpired record ends |
| SingletonLease.StaleHolderCanBeJoined | app/main.py:5313-5342 | and the freshness is needed in every state that lacks it: the next instance to start can come to hold the lease beside the one that holds it |
| Headroom.TargetIsLeast | app/controller.py:2951-2954 | the goal is the least number of GPUs reaching the percentage |
| Headroom.HeadroomShortfall | app/controller.py:2932-2956 | goal, free and shortfall of every known class |
| Headroom.PlanHeadroomCandidates | app/controller.py:2958-3011 | per short class, the pods past their guarantee and, where required, past the deadline they carry |
| Headroom.HeadroomVictims | app/main.py:4945-4975 | whatever legal choice is made, victims are distinct, past their guarantee and past their deadline |
| Headroom.HeadroomReached | app/main.py:4945-4975 | what is then free plus what is reported unmet reaches every class's goal |
| Headroom.PlanHeadroomWarnings | app/controller.py:3013-3062 | exactly the reclaimable pods of short classes are warned, each keeping the deadline it carries or given now plus notice, with its share of the shortfall in its pool's GPUs as the risk |
| Headroom.WarningKeepsDeadline | app/controller.py:3013-3062 | a warned pod keeps the deadline it carries, or is given one its notice away, and every survivor at risk is warned |
| Headroom.SoonerExactly | app/main.py:4990-5000 | of two warnings the one with the earlier deadline is planned, the boundary's where they are equal; one alone is kept |
| Headroom.PlannedExactly | app/main.py:4990-5000 | the deadline planned for a pod is the earliest its warnings name, and there is one exactly when it is warned |
| Headroom.MergeWarnings | app/main.py:4990-5000 | the sooner of a boundary warning and a headroom one |
| Headroom.DeadlineNeverRecedes | app/controller.py:3013-3062 | while a pod stays in the pool of a class short after the kills its deadline never moves later, whatever else is planned and whichever annotation calls fail |
| Headroom.RiskBeforeKills | app/controller.py:2958-3011 | a pod still at risk after a sweep's headroom kills was in a short class's pool before them |
| Headroom.NoticeRunsOut | app/controller.py:2958-3062 | a pod warned, and at risk since, is a candidate at every sweep its notice or more later that finds it in a short class's pool, the one that kills it or ends the shortage included |
| Headroom.CandidatesAreOffered | app/controller.py:2958-3011 | candidates are exactly the pods the planner offers from those the boundaries left |
| Headroom.NoticeIsGiven | app/controller.py:2958-3062 | a candidate carries a deadline already past; with no boundary warning, its notice or more after some earlier sweep |
| LogFields.Kv | app/log_fields.py:88-126 | the line is the specified rendering of the fields |
| LogFields.RendersExactly | app/log_fields.py:64-85 | booleans print in lower case, text as it is, and items in order with a comma between each two |
| LogFields.ScrubExactly | app/log_fields.py:53-61 | scrubbing keeps exactly the printable characters, in order |
| LogFields.NormalExactly | app/log_fields.py:110-110 | a key's letters, digits, underscores and dots stay, any other character becomes an underscore |
| LogFields.QuotedExactly | app/log_fields.py:120-125 | a value is quoted exactly when it is empty or holds a space, an equals sign or a quote |
| LogFields.StripsUnderscores | app/log_fields.py:110-110 | only trailing underscores are dropped from a key, and all of them |
| LogFields.KvFields | tests/conftest.py:309-351 | the nested scan computes the specified parse |
| LogFields.UnquoteEscape | tests/conftest.py:334-345 | reading a quoted value undoes its escaping, whatever the value and whatever follows |
| LogFields.RoundTrip | app/log_fields.py:88-126 | parsing a printed line returns the scrubbed value of every field not omitted, for all fields and values, the later of two keys that normalise alike winning |
| LogFields.EveryFieldReadsBack | tests/conftest.py:309-351 | with keys that normalise apart, a key is read exactly when its field was not omitted, with its scrubbed value |
| LogFields.PrintableReadsBack | tests/conftest.py:309-351 | and where its text is printable, with that very text |
| LogFields.NoInjection | app/log_fields.py:53-61 | every character of a line is printable or the grammar's own |
| CoalescingRunner.OnePassAtATime | app/main.py:3050-3078 | exactly one pass is in flight while the lock is held and none otherwise |
| CoalescingRunner.NoMorePassesThanTriggers | app/main.py:3050-3078 | a burst costs no more passes than triggers |
| CoalescingRunner.TriggerIsAnswered | app/main.py:3050-3078 | every trigger has a pass start after it, or one is owed when the pass in flight ends, or a pass has raised since |
| CoalescingRunner.NoLostWakeUp | app/main.py:3050-3078 | when passes do not raise, no trigger is lost |
| CoalescingRunner.FlagIsExact | app/main.py:3050-3078 | in every run, passes raising or not, the rerun flag is set exactly while some trigger has had no pass start since |
| CoalescingRunner.EndStrandsExactly | app/main.py:3050-3078 | the end of a pass leaves the runner idle with a trigger unanswered if and only if it raises while the flag is set |
| CoalescingRunner.RaisingLosesTrigger | app/main.py:3050-3078 | a pass that raises loses the trigger that came while it ran |
| CoalescingRunner.AdmissionRunner.RunOndemandAdmission | app/main.py:3050-3078 | the loop, whatever arrives during its passes, is a run of the state machine with as many passes |

## Left out

- Kubernetes and HTTP calls: their outcomes are parameters or nondeterministic steps
  (a patch lands or fails, a snapshot shows some prefix of the changes, a reply is lost).
- Event texts, annotations written only for display, owner notifications, timezone
  rendering, configuration, schemas, endpoints, authentication and tracing.
- The scheduler's message formats and the classification of gated pods.
- The pod watch's threading and its resumption from a resource version.
- No-show deadlines: the calendar takes the resulting set of ids as given.
- Guards 1 to 3 and the retry clocks of denied or failed asks.
- `plan_termination_warnings`: `Headroom` takes the boundary warnings as an arbitrary
  input, so its results hold whatever those are.
- `ControllerState` is one object; here its parts are separate classes
  (`OccupancyMap`, `PreemptionMarks`, `NodeAccounts`, `FitGuard`, `AdmissionRunner`)
  and the reservation list, which the source replaces wholesale, is a value. What is
  not captured is that they are updated from the same coroutines.
- The order in which a dict is walked: loops pick keys in an unspecified order, or
  take the order as a parameter, and the results hold for each.
- Sets as log values (printed sorted) and truncation by `maxlen`; numbers and dates
  are taken as the text they print as, and which characters are printable is a
  parameter.
- Floating-point rounding: risks are reals and the headroom goal is exact.
- Random choice: the local victim selection takes any permutation as a parameter.
- Deletion of the Lease record by a third party.
- FitGuard: the claim that nothing is held wrongly is about the changes between
  two inventory or record rebuilds; a rebuild re-judges nothing until the retry clock.
- Admission.StepKeepsBooks: the periodic reconcile of the occupancy map is not a step.
