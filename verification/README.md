# A verified model of BossRaid's orchestration, settlement and encoders

A raid asks several providers to solve a task. It is a leaf, with an assignment for each
provider, or an inner node whose children are raids; children share the deadline of their
root. The orchestrator expires, finalizes, aborts and replans raids, settles finished ones on
chain, limits how much each provider has to do, and saves its state. Beside it the repository
holds an image encoder, a price calculator and a documentation router. This project models
that behaviour in Dafny and proves what it is for.

| area | modules |
|---|---|
| raid records, ranking, the tree and its aggregation | `RaidState`, `RaidTree`, `Aggregation`, `LeafRuns` |
| planning, launching and replanning | `Planning`, `Launch`, `Hydration`, `Spawning`, `Adaptive`, `Replanning` |
| expiry, finalization, cancellation | `Expiry`, `Runs`, `PlanBooks`, `Steps`, `Cancellation`, `Lifecycle`, `Reopening` |
| settlement on chain | `Settlement`, `SettlementRunner` |
| reservations and capacity, retention, saving | `Reservations`, `Retention`, `Persistence` |
| GIF and PNG | `JsInt`, `Bitmaps`, `GifLzw`, `GifFile`, `Crc`, `Png` |
| prices and routes | `TokenPricing`, `DocsRouting` |
| shared | `Options`, `Sequences` |

`dafny verify dfyconfig.toml` checks all of it.

## How to read it

- One method of `Lifecycle.Orchestrator` that is called on its own is one uninterrupted block
  of work; where the source awaits, a later method goes on. `finalizeRaid` awaits even where
  nothing is pending, so giving up its mark is a step of its own, `Release`, at any later time.
  `DeadlineReached` lets the clock advance by any amount, or by none if the orchestrator is made
  so (`ticking`). Raids are numbered in order of creation, so a parent's number is smaller than
  its children's.
- Large predicates (`Effect`, `RanOut`, `Went`, `Replanned`) describe the effect of a stretch of
  work on the whole map of raids; the lemmas of `Expiry` and `Runs` say how such stretches
  compose. `hide` keeps the definitions a proof does not need out of it.
- `refused` are the raids that an expiry found live and marked, `visited` those it came to,
  `Exposed` the live raids below a terminal one: bookkeeping of the proofs, like `books`.
- `Settlement` keeps the chain as a log of transactions; a hash is a position in it. Every
  transaction, and every writing of the artifact, either succeeds or ends the run there.
- `Reservations` splits concurrent calls at their awaits; `Run` and `RunAny` play any interleaving.

## What is false, and when it holds

- Terminal raids do not always have only terminal descendants. A revision reopens a raid whose
  finalization has not given up its mark yet; when the deadline passes before that, the expiry is
  refused to finalize it, and it stays live below a terminal root
  (`Reopening.MarkedRaidStaysLive`, a run that starts with nothing).
  `Lifecycle.Orchestrator.OnDeadline` says exactly when, for every state; where the invariant held before, if and only if a live raid of the tree is marked.
  `PromptRun` has the invariant for runs whose marks are given up in time, `Run` for all until
  an expiry comes to such a raid.
- A transaction sent after the last checkpoint, the finalization of the raid among them, or a job
  stored behind the point where a resume was cut, is forgotten and sent again
  (`Settlement.CutAfterCreateRepeats`, `Settlement.CutAfterFinalizeRepeats`,
  `Settlement.CutResumeForgets`). `Settlement.RunRepeatsNothingIff` and
  `Settlement.CutRunRepeatsNothingIff` say exactly when a run repeats nothing, from any log and
  artifact, and `Settlement.CheckpointFaithful` when a checkpoint accounts for the log. A run that
  is cut between the creation of the raid and its first checkpoint is executed again
  (`SettlementRunner.ExecuteAgainIff`) and creates the raid twice (`Settlement.CreatedAgain`).
- A submission or dispatch that goes on after its pause without looking again can take a
  terminal raid out of its status: `Steps.SubmissionRevives` and `Steps.InviteRevives` say
  exactly when. `Submit` and `InviteProvider` therefore require the raid, and the latter the
  assignment, to be live still.
- A rejected save leaves its raid behind, and the reservation can be spawned again
  (`Reservations.Launcher.RejectedSaveSpawnsTwice`). `RunAny` says exactly when a reservation
  yields more than one raid.
- A document path with white space at an outer end that no prefix covers is not found again from
  its route (`DocsRouting.WhiteDocument`); `RouteParsesBackIff`, `BareRouteParsesBackIff` and
  `VariantsParseBackIff` say exactly when it is.
- With more than 256 different values of red, green and blue a GIF is never lossless
  (`GifFile.MoreShadesLose`). Colours also differ in alpha, which a GIF does not show, so with
  more than 256 colours nothing need be lost (`GifFile.OneMoreIsKept`);
  `GifFile.LosslessRoundTripIff` says exactly when a viewer sees every pixel's own red, green and
  blue.
- A PNG of size zero, or from two to the 31 up to two to the 32, is written but not readable;
  beyond that nothing is written (`Png.EncodePng`).

## Model

| member | source | states |
|---|---|---|
| Lifecycle.Orchestrator.Expire | apps/orchestrator/src/orchestrator-finalization.ts:99-142 | Terminates although it, `MaybeFinalize` and `Finalize` call each other; only raids that are neither expiring nor marked as being finalized become terminal, each is passed over exactly once, and each is marked; it comes only to live raids that are linked by live raids with the one it began with, and to each live neighbour of those; a raid it came to is terminal, still expiring, or marked and refused; a live raid below a terminal one is still expiring, was refused, or was exposed before; other trees are untouched; the submissions of the tree are gathered at its top |
| Lifecycle.Orchestrator.Finalize | apps/orchestrator/src/orchestrator-finalization.ts:42-97 | A live raid without a mark becomes terminal and is marked; what happens above it is a stretch of finalization, possibly ended by one revision of a plan; a terminal raid is left alone, and so is a live one that is marked, which an expiry enters among those it refused; without a revision or refusal no raid from it upwards is left live, free of marks and ready; a leaf raid ends with its submissions ranked and as primary a valid one that no other valid one beats, and so does a root, with the submissions of its children |
| Lifecycle.Orchestrator.Release | apps/orchestrator/src/orchestrator-finalization.ts:53-57 | The continuation after the finalization gives up the mark of that raid and changes nothing else; it may come at any time |
| Lifecycle.Orchestrator.MaybeFinalize | apps/orchestrator/src/orchestrator-finalization.ts:144-173 | Past the deadline an expiry of the raid and its surroundings; before it a refresh and, if the plan then allows it, one revision and nothing else, otherwise a stretch of finalization, possibly ended by one revision above; with a live child either nothing or all of the tree became terminal, unless somebody was refused; of the raid and those above it none is left live, free of marks and ready to be finalized |
| Lifecycle.Orchestrator.TryReplan | apps/orchestrator/src/raid-adaptive.ts:51-102 | Before the deadline a revision happens if and only if the plan allows it, with exactly its effect; otherwise the raids stay as they are, or only ids that are not registered left the pool; the books are only added to |
| Lifecycle.Orchestrator.RefreshAncestry | apps/orchestrator/src/orchestrator-raid-lifecycle.ts:406-413 | All raids up to the root are aggregated: a further refresh from the root would change nothing |
| Lifecycle.Orchestrator.DisqualifyPass | apps/orchestrator/src/orchestrator-finalization.ts:116-131 | Every selected provider that has not settled is disqualified, nobody else |
| Lifecycle.Orchestrator.OnDeadline | apps/orchestrator/src/orchestrator-finalization.ts:99-142 | From any state: of the live raids linked with it by live raids exactly those marked as being finalized stay live, all others are as live as before; the whole tree is terminal if and only if all its live raids were linked and none of them marked; no live raid is below a terminal one if and only if no linked raid was marked and none but their topmost was below a terminal one before; every linked raid without a mark is passed over once, leaves among them have their live selected providers disqualified and are final; other trees are untouched; the primary of each such leaf is a valid submission that no other valid one beats |
| Lifecycle.Orchestrator.AbortRaid | apps/orchestrator/src/raid-lifecycle-ingress.ts:96-121 | Exactly the raids on live paths down from it are cancelled, with all their live assignments disqualified, and then its subtree is refreshed; nothing more is live below a terminal raid than before |
| Lifecycle.Orchestrator.Refresh | apps/orchestrator/src/raid-hierarchy.ts:346-349 | A status query aggregates the inner raids of the subtree and changes nothing else |
| Lifecycle.Orchestrator.SettleAssignment | apps/orchestrator/src/raid-provider-dispatch.ts:535-613 | A timeout or failure of a live assignment settles it for good and keeps all submissions and settled assignments; the reserves that join are the first ones not selected yet, each once and in order, at least one if there is one, and all of them but the last had no runtime and failed; otherwise nothing changes; afterwards nothing from the raid upwards is left live, free of marks and ready |
| Lifecycle.Orchestrator.Submit | apps/orchestrator/src/raid-provider-dispatch.ts:514-533 | Run while the raid is live, it records exactly one more submission; nothing recorded is lost; nothing from the raid upwards is left live, free of marks and ready; the assignment is submitted or invalid, and while the raid stays live the first valid submission and the status follow from this one alone |
| Lifecycle.Orchestrator.InviteProvider | apps/orchestrator/src/raid-provider-dispatch.ts:300-326 | Run while raid and assignment are live, it changes exactly the assignment and the status, or nothing for a recent invitation |
| Lifecycle.Orchestrator.Accept | apps/orchestrator/src/raid-provider-dispatch.ts:344-365 | Only a live assignment of a live raid is accepted; nothing else changes |
| Lifecycle.Orchestrator.Heartbeat | apps/orchestrator/src/raid-provider-dispatch.ts:404-432 | A heartbeat of a live assignment of a live raid, of the same run if any is known, sets it to work and refreshes the ancestors; any other changes nothing |
| Lifecycle.Orchestrator.StartRaid | apps/orchestrator/src/raid-provider-dispatch.ts:193-208 | A terminal raid is left alone; a live one is dispatching afterwards, or the deadline had passed and it is terminal unless it was marked |
| Lifecycle.Orchestrator.DispatchHead | apps/orchestrator/src/raid-provider-dispatch.ts:263-281 | A terminal raid is left alone; past the deadline the raid is terminal unless it was marked; without a runtime the assignment fails and reserves are promoted; otherwise nothing changes; submissions and settled assignments are kept |
| Lifecycle.Orchestrator.FinishChildren | apps/orchestrator/src/raid-provider-dispatch.ts:242-261 | Without live children and without a revision the raid is terminal afterwards, unless it was marked as being finalized; before the deadline it becomes final and marked, and its parent, refreshed, is revised if its plan allows it |
| Lifecycle.Orchestrator.LaunchTree | apps/orchestrator/src/raid-launch.ts:320-348 | The raids of the new tree mirror the planned nodes exactly; older raids are untouched; the plan and its books start with exactly the given pool |
| Lifecycle.Orchestrator.LaunchSingle | apps/orchestrator/src/raid-launch.ts:366-375 | Exactly one raid is added; nothing more is live below a terminal raid than before; it has the given deadline, task, providers and reserves and nothing else |
| Lifecycle.Orchestrator.Step | apps/orchestrator/src/raid-timers.ts:52-62 | If the clock stands still within a step, and no live raid is marked or below a terminal one before it, none is below a terminal one after it; at any clock this holds when no expiry of the step came to a live marked raid |
| Lifecycle.Orchestrator.Run | apps/orchestrator/src/orchestrator-finalization.ts:33-173 | Over every run of steps, the marks being given up at any time: no raid goes away or moves; roots and leaves never leave a terminal status, other raids only with a new raid below; every plan keeps its bounds, only uses up its pool and only adds revisions; its books keep the initial pool and are only added to; and as long as no expiry came to a live marked raid, terminal raids have only terminal descendants at the end of every step |
| Lifecycle.Orchestrator.PromptRun | apps/orchestrator/src/orchestrator-finalization.ts:33-173 | Over every run in which the marks of all but roots are given up before the next step and the clock stands still within a step, terminal raids have only terminal descendants at the end of every step |
| Lifecycle.Orchestrator.LaunchAndRun | apps/orchestrator/src/raid-adaptive.ts:51-102 | A tree is launched with a pool and then anything happens: initial pool = remaining pool + providers of the raids that revisions made + dropped ids, only unregistered ids were dropped, a provider listed once is given out or kept at most once, a registered one that left was given out, and revisions plus pool stay within the planned reserve |
| Steps.PoolConserved | apps/orchestrator/src/raid-adaptive.ts:84-96 | Whatever comes later by the books of a plan, the pool it was launched with is conserved |
| Steps.DeadlineDone | apps/orchestrator/src/orchestrator-finalization.ts:99-142 | What an expiry that is over leaves live, whom it passed over and what it did to leaves, from any state |
| Steps.ExposedIff | apps/orchestrator/src/orchestrator-finalization.ts:99-142 | After it no live raid is below a terminal one if and only if no linked raid was marked and none but their topmost was below a terminal one before |
| Steps.LinkedTree | apps/orchestrator/src/orchestrator-finalization.ts:33-40 | While no live raid is below a terminal one, the linked raids are all live raids of the tree |
| Steps.UnhinderedAfter | apps/orchestrator/src/raid-timers.ts:52-62 | With the clock standing still a block that begins with no live raid marked, or before the deadline, refuses nobody |
| Reopening.Revisable | apps/orchestrator/src/raid-adaptive.ts:51-102 | A live root with one provider in its pool, an inner raid and a leaf below it that is over without a submission: the plan of the root allows a revision |
| Reopening.ReopenedWhileMarked | apps/orchestrator/src/raid-adaptive.ts:488-500 | In such a tree any revision adds its raid below the inner raid and reopens it while its mark is still there |
| Reopening.MarkedRaidStaysLive | apps/orchestrator/src/orchestrator-finalization.ts:42-58 | From an orchestrator without raids: launch, abort of the leaf, finalization of the inner raid, revision by the root, deadline before the mark is given up; the root ends terminal and the inner raid below it stays live |
| Expiry.AllLinkedVisited | apps/orchestrator/src/orchestrator-finalization.ts:99-173 | Once an expiry came to one live raid it came to all that are linked with it by live raids |
| Expiry.ExpiryAssembled | apps/orchestrator/src/orchestrator-finalization.ts:99-142 | The stretches of an expiry (children, own pass, ancestors, and the own finalization or its refusal) amount to one stretch, with disjoint sets of newly terminal raids |
| Expiry.FinalizationAssembled | apps/orchestrator/src/orchestrator-finalization.ts:60-97 | A refresh, the final record and the stretch above amount to one stretch that finalizes the raid itself |
| Expiry.TerminalBelow | apps/orchestrator/src/orchestrator-finalization.ts:33-40 | When no live raid has a terminal parent, everything below a terminal raid is terminal |
| Expiry.GuardedWithout | apps/orchestrator/src/orchestrator-finalization.ts:99-142 | A raid may become terminal whose live children are all expiring or exposed: nothing else is exposed by it |
| PlanBooks.RevisionGuarded | apps/orchestrator/src/raid-adaptive.ts:488-500 | Replanning reopens all that is above what it adds: no more raids are live below a terminal one than before |
| PlanBooks.RevisionReopensOnlyAbove | apps/orchestrator/src/raid-adaptive.ts:488-500 | A raid that leaves a terminal status is an inner raid that is no root, and the raid just added is below it |
| PlanBooks.RevisionMarks | apps/orchestrator/src/raid-adaptive.ts:488-500 | A raid that a revision reopened with its mark is no root and no leaf |
| Steps.SubmissionRevives | apps/orchestrator/src/raid-provider-dispatch.ts:439-463 | Without the terminal check before the pause a submission takes a raid out of a terminal status if and only if it is its first valid one |
| Steps.InviteRevives | apps/orchestrator/src/raid-provider-dispatch.ts:269-324 | Going on with a dispatch keeps the status of the raid right if and only if the raid is still live; it always unsettles the assignment |
| Steps.SubmissionTouches | apps/orchestrator/src/raid-state.ts:118-153 | A submission to a live raid adds exactly one submission, settles its assignment and sets the first valid one once |
| Cancellation.Abort | apps/orchestrator/src/raid-lifecycle-ingress.ts:96-121 | From any tree the recursive cancellation cancels exactly the raids on live paths down from the given one |
| Cancellation.LivePathIff | apps/orchestrator/src/raid-lifecycle-ingress.ts:96-112 | Those are all live raids at or below it when no live raid is below a terminal one |
| LeafRuns.LeafRunBounded | apps/orchestrator/src/raid-provider-dispatch.ts:535-613 | Any run of callbacks from dispatched providers has at most selected plus reserve providers effective timeouts and failures; after that many, and exactly when none could be effective, the raid can be finalized; settled assignments stay settled; nobody is selected twice and only reserves join |
| LeafRuns.RunKeeps | apps/orchestrator/src/raid-state.ts:87-221 | Over a run each effective timeout or failure settles one more provider, no callback unsettles one, and the providers that joined are the first of the reserves, each once and in order |
| LeafRuns.NewLeafOk | packages/raid-core/src/sanitization.ts:195-222 | A new raid without doubled primaries meets what such runs start from |
| LeafRuns.NextNeedsNobodyMore | apps/orchestrator/src/raid-provider-dispatch.ts:404-613 | No callback of a live raid makes it need a provider it did not need before, which is what the capacity bound relies on |
| RaidState.RankIsSortedPermutation | packages/raid-core/src/routing.ts:246-266 | Ranking orders the submissions best first, numbers them from one and keeps each of them, up to its place |
| RaidState.RankDescends | packages/raid-core/src/routing.ts:248-264 | Down a ranking the scores never rise; among equal scores the test scores never rise, then the safety scores, and then the contents get no shorter |
| RaidState.RankStable | packages/raid-core/src/routing.ts:246-266 | Submissions that agree in all four stay in the order in which they came |
| RaidState.FinalRecordIs | apps/orchestrator/src/raid-state.ts:229-236 | The final record keeps its submissions, and its primary is a valid one that no other valid one beats, none exactly if none is valid |
| RaidState.NextReserveIs | apps/orchestrator/src/raid-state.ts:209-213 | The next reserve is the first one that is not selected, none exactly if all are |
| RaidState.RankIdempotent | packages/raid-core/src/routing.ts:246-266 | Ranking a ranking changes nothing |
| RaidState.DisqualifySelectedSettles | apps/orchestrator/src/raid-state.ts:188-207 | The pass disqualifies exactly the live selected assignments and changes nothing else |
| RaidTree.RefreshParent | apps/orchestrator/src/raid-hierarchy.ts:230-268 | Every inner raid of the subtree ends as the aggregation of its children as they end; leaves, assignments, terminal statuses and all other raids stay; first valid and primary of each are the first valid submission of its children, one child after the other and each in its ranking |
| Aggregation.RefreshUnique | apps/orchestrator/src/raid-hierarchy.ts:230-268 | That description fixes the outcome |
| Aggregation.RefreshIdempotent | apps/orchestrator/src/raid-hierarchy.ts:230-268 | A second refresh changes nothing |
| Aggregation.RefreshGathers | apps/orchestrator/src/raid-hierarchy.ts:242-249 | After a refresh each inner raid holds the ranked submissions of its children |
| Aggregation.GatheredConserves | apps/orchestrator/src/raid-hierarchy.ts:220-249 | Then the submissions of every raid are, as a multiset up to places, those of its leaf raids at any depth |
| Aggregation.FirstValidIffSomeLeafValid | apps/orchestrator/src/raid-hierarchy.ts:245-249 | Then a first valid submission is set if and only if some leaf raid below has a valid one |
| Aggregation.RefreshedStatus | apps/orchestrator/src/raid-hierarchy.ts:251-267 | A refresh keeps a terminal status; a live raid has a first valid submission, else is running if a child is at work, else dispatching if a child waits, else stays as it is |
| Aggregation.LeafRaidsAreTheLeaves | apps/orchestrator/src/raid-hierarchy.ts:220-228 | The collected leaf raids are exactly the childless raids at or below a raid |
| Adaptive.GroupCandidateIff | apps/orchestrator/src/raid-adaptive.ts:113-183 | A group of children yields a candidate if and only if all are terminal, fewer than two revisions were made, and no output is valid or all scores are below the threshold |
| Adaptive.CandidatesAre | apps/orchestrator/src/raid-adaptive.ts:211-238 | The candidates are exactly those of the qualifying workstreams at every depth, each with its depth |
| Adaptive.TargetIffSomeQualifies | apps/orchestrator/src/raid-adaptive.ts:104-209 | A target is found if and only if some workstream below qualifies, and no candidate comes before the one picked |
| Adaptive.CandidateIs | apps/orchestrator/src/raid-adaptive.ts:124-183 | How a workstream is revised: an expansion if and only if it has a child family, was not expanded before and the pool has at least two for it, of at most three where no submission is valid and two where they are weak; else a repair with one; it starts from the child with the best score, of those with a valid submission if there are any |
| Adaptive.BestScoreIs | apps/orchestrator/src/raid-adaptive.ts:124-183 | In a ranking the score that a raid is judged by is the highest one |
| Adaptive.TargetComesFirst | apps/orchestrator/src/raid-adaptive.ts:186-196 | Of any two workstreams that qualify, one without a valid submission is revised before one with; then one that has priority, then the one farther down, then the one whose best score is lower |
| Adaptive.TargetIsSoonest | apps/orchestrator/src/raid-adaptive.ts:186-228 | Among candidates that come first in that order the target is the first in the tree: a raid before those below it, an earlier child with all below it before a later one, an earlier workstream of a raid before a later one |
| Adaptive.RevisionsAre | apps/orchestrator/src/raid-adaptive.ts:240-253 | The counts of revisions and expansions are the numbers of entries of the history for that parent and workstream |
| Replanning.TakeProviders | apps/orchestrator/src/raid-adaptive.ts:333-353 | The registered ones of a prefix of the pool, in order, as many as asked for if there are; they keep the order of the pool |
| Replanning.ReopenAncestry | apps/orchestrator/src/raid-adaptive.ts:488-500 | Exactly the raid and those above it leave a terminal status, nothing else changes; a terminal one of them becomes dispatching |
| Replanning.BuildRevision | apps/orchestrator/src/raid-adaptive.ts:355-435 | A repair with the one provider, or an expansion with one leaf for each provider, indices tiled and budgets equal; the assignment of providers never underflows; the leaves of an expansion are the graph of the child family |
| Replanning.HistoryTells | apps/orchestrator/src/raid-adaptive.ts:74-97 | The new entry of the history names the raid and workstream that were revised and the raid that was added, and its strategy is an expansion if and only if that raid has children |
| Replanning.RepairKeepsLeafBudget | apps/orchestrator/src/raid-adaptive.ts:502-515 | A repair has one expert, paid what a single expert of the revised raid would be |
| Replanning.MaybeReplan | apps/orchestrator/src/raid-adaptive.ts:51-102 | A revision happens if and only if the raid may be replanned, some workstream below qualifies and somebody of the pool is registered; then exactly the raids of the node are added and those above reopened; otherwise at most unregistered ids leave the pool |
| Replanning.ExpansionKeepsLeafBudget | apps/orchestrator/src/raid-adaptive.ts:517-533 | Each leaf of an expansion gets the budget a single expert of the revised raid would |
| Replanning.RevisionKeepsBooks | apps/orchestrator/src/raid-adaptive.ts:84-96 | Revision count, history and spawned raids stay in step; count plus pool stay within the planned reserve; at most two revisions and one expansion for a parent and workstream; initial pool = remaining pool + providers of spawned raids + dropped ids, which are not registered |
| Replanning.DrainKeepsBooks | apps/orchestrator/src/raid-adaptive.ts:70-73 | So does a replan that only drains unregistered ids |
| Replanning.GrantedOnce | apps/orchestrator/src/raid-adaptive.ts:333-353 | A provider listed once in the initial pool is given out at most once, and not while still in the pool |
| Replanning.GrantedAll | apps/orchestrator/src/raid-adaptive.ts:333-353 | A registered provider of the initial pool that is no longer in it was given to a raid |
| Planning.Allocate | apps/orchestrator/src/partition/index.ts:65-89 | Every active workstream gets an expert, all experts are allocated, by the highest-averages rule with the earlier workstream first among equals |
| Planning.SplitOnce | apps/orchestrator/src/partition/index.ts:65-89 | That rule leaves only one split |
| Planning.SelectExpansionTarget | apps/orchestrator/src/partition/authoring.ts:15-28 | The first workstream with the highest score |
| Planning.BuildFamilyNodes | apps/orchestrator/src/raid-hierarchy.ts:54-81 | The graph of a family: a block for each workstream of the split, in order; a workstream with a child family and more experts than roles is one inner node under its lead role, over the graph of the child family; any other has a leaf for each expert, the roles taken in turn; exactly as many leaves as experts, provider indices 1 to the number of experts at every level, every leaf with the same budget |
| Planning.BuiltOnce | apps/orchestrator/src/raid-hierarchy.ts:54-117 | That description leaves only one graph |
| Planning.ExpandWorkstream | apps/orchestrator/src/raid-hierarchy.ts:83-117 | The block of one workstream: an inner node over the child family, or the leaves of its experts with consecutive indices |
| Planning.ScopedKeepsLeafBudget | apps/orchestrator/src/raid-hierarchy.ts:119-153 | Scoping a task down any number of times leaves what a single expert gets: the share rounded to a cent, at least one cent |
| Planning.BudgetIsSpent | apps/orchestrator/src/raid-hierarchy.ts:119-153 | The leaves together spend the budget up to half a cent an expert, when a share is at least half a cent |
| Planning.AssignLeavesExact | apps/orchestrator/src/raid-adaptive.ts:403-435 | The walk underflows if and only if there are fewer providers than leaves, and otherwise gives each leaf the next provider |
| Spawning.Instantiate | apps/orchestrator/src/raid-launch.ts:263-297 | The new raids mirror the prepared nodes exactly, in order and depth; of the others only the parent's children grew; the forest stays well formed |
| Spawning.MirrorsIs | apps/orchestrator/src/raid-launch.ts:263-297 | The raid of a prepared node, field by field: its task, workstream and deadline, the chosen providers selected and the reserves in reserve, each with a fresh assignment, nothing submitted |
| Launch.AssignAll | apps/orchestrator/src/raid-launch.ts:87-145 | Fails if and only if selection has nobody for some leaf among those not yet taken; otherwise every leaf in turn has what selection gives for the rest, none is primary twice or was reserved before |
| Launch.PrepareHierarchicalGraph | apps/orchestrator/src/raid-launch.ts:147-192 | No tree if and only if selection has nobody for some leaf of the planned graph; otherwise experts less the reserve get a leaf each, with the providers that selection gives leaf by leaf; the pool is within the reserve and has nobody of the graph; with a reserve no leaf keeps reserves of its own; the graph is that of the family |
| Hydration.HydrateIff | apps/orchestrator/src/raid-launch-reservations.ts:150-179 | Hydrating a reserved tree fails if and only if somebody of it is no longer registered |
| Hydration.HydrateRoundTrip | apps/orchestrator/src/raid-launch-reservations.ts:150-179 | A reserved tree hydrates to the prepared one if and only if the id of each of its providers still leads to the same profile |
| Hydration.CheckQuote | apps/orchestrator/src/raid-launch-reservations.ts:85-130 | Accepts if and only if every quoted provider is among the hydrated ones with the same endpoint hash and rate card, and meets the quoted verification and privacy features |
| Hydration.HydrateQuoted | apps/orchestrator/src/raid-launch-reservations.ts:132-148 | A reservation is hydrated if and only if each reserved provider is registered, with endpoint and rate card as at reservation and the features the request requires; then with the registered profiles in order |
| Settlement.Executor.ProcessAllocation | apps/orchestrator/src/settlement-onchain-executor.ts:367-617 | No money moves while funding is off, for a rejected or unbudgeted allocation or without an address; only an actor of the provider submits and only an evaluator completes; nothing on record is sent again; in the log the budget precedes funding, funding the submission, the submission the completion, and the creation all of them; a finished run leaves the job created, linked, rejected if and only if the allocation is, and else as far as funding, provider and evaluator take it; an interrupted one sent a proper prefix |
| Settlement.Executor.RunJobs | apps/orchestrator/src/settlement-onchain-executor.ts:241-265 | Stored terminal jobs are kept, all others processed; a transaction or a checkpoint may fail, and then the artifact is the last checkpoint written and tells all that was sent until then |
| Settlement.Executor.FinalizeExecution | apps/orchestrator/src/settlement-onchain-executor.ts:270-321 | The raid is finalized at most once, when all jobs are terminal or that is not required; the record is terminal if and only if all jobs are terminal and a finalize hash is stored; a run that ends here has sent at most the finalization and left the artifact |
| Settlement.Executor.Execute | apps/orchestrator/src/settlement-onchain-executor.ts:139-187 | From an unseen raid, however the run ends nothing was sent twice, and an artifact it wrote accounts exactly for the log up to when it was written; without one it sent at most the creation of the raid; what is sent is only what is allowed for each allocation, in order, and a finished run leaves each job where it should be |
| Settlement.Executor.Resume | apps/orchestrator/src/settlement-onchain-executor.ts:189-254 | A finished resume from a faithful artifact leaves a faithful one; a terminal record is returned untouched; from any log without a repetition it repeats something if and only if some transaction it wants, the finalization among them, is in the log already, and a cut one if and only if something it did send is; what is sent is only what is allowed for each allocation and nothing for a stored terminal job; from a log in order it leaves one in order; a finished one leaves each job where it should be; the job numbers listed are those on record and those created |
| Settlement.Executor.Settle | apps/orchestrator/src/settlement-onchain-executor.ts:139-268 | An execution cut at any checkpoint or finished, then any finished resumes, each with its own flags: every transaction of every job and the finalization at most once; and in the log creation, budget, funding, submission and completion of every job come in that order |
| Settlement.ProcessedOk | apps/orchestrator/src/settlement-onchain-executor.ts:421-616 | Nothing on record is sent again, everything sent is recorded, and the status moves only open, funded, submitted, completed, or open to rejected |
| Settlement.ProcessedFulfils | apps/orchestrator/src/settlement-onchain-executor.ts:421-616 | Where a processed job ends, for every configuration: rejected, open, funded, submitted or completed |
| Settlement.PlanSends | apps/orchestrator/src/settlement-onchain-executor.ts:390-616 | However far it gets, a plan sends only what the configuration allows |
| Settlement.ResumeForward | apps/orchestrator/src/settlement-onchain-executor.ts:237-251 | A finished resume moves every stored job only forward and keeps all its hashes |
| Settlement.BalancedAt | apps/orchestrator/src/settlement-onchain-executor.ts:241-251 | Along the loop every recorded hash is the position of its transaction in the log, and each transaction is in the log exactly as often as recorded |
| Settlement.CheckpointFaithful | apps/orchestrator/src/settlement-onchain-executor.ts:323-327 | A checkpoint accounts for the log if and only if it covers all jobs stored before |
| Settlement.RunRepeatsNothingIff | apps/orchestrator/src/settlement-onchain-executor.ts:226-303 | From any log and artifact, a run repeats nothing if and only if every transaction of a job that it wants, and the finalization if it will come to it, is not in the log yet |
| Settlement.CutRunRepeatsNothingIff | apps/orchestrator/src/settlement-onchain-executor.ts:226-303 | A run cut anywhere repeats nothing if and only if nothing it did send was in the log |
| Settlement.WillFinalizeIff | apps/orchestrator/src/settlement-onchain-executor.ts:270-283 | A run comes to the finalization if and only if none is on record and, where that is required, every job is terminal, will be completed or will be rejected |
| Settlement.CutAfterCreateRepeats | apps/orchestrator/src/settlement-onchain-executor.ts:390-419 | A run cut between a transaction and the next checkpoint creates its job twice |
| Settlement.CutAfterFinalizeRepeats | apps/orchestrator/src/settlement-onchain-executor.ts:270-303 | An execution cut between the finalization and the last write of the artifact leaves all jobs terminal and no finalization on record: every later resume sends exactly one more finalization |
| Settlement.CreatedAgain | apps/orchestrator/src/settlement-onchain-executor.ts:149-186 | An execution for a raid that is on the chain already creates it twice: so after a run that was cut before its first checkpoint |
| Settlement.CutResumeForgets | apps/orchestrator/src/settlement-onchain-executor.ts:226-251 | A resume cut before the last stored job forgets that job: the next run creates it again |
| SettlementRunner.Runner.ExecuteSettlement | apps/orchestrator/src/orchestrator-settlement-runner.ts:66-191 | Exactly when `execute` and `resume` are reached; never `execute` once an artifact exists in the configured directory; neither once the record is terminal; a raid that is not due is left alone; a failed privacy check leaves a synthetic record and touches nothing else; a terminal artifact becomes the record |
| SettlementRunner.Runner.Run | apps/orchestrator/src/orchestrator-settlement-runner.ts:66-191 | Any number of calls, whichever of them throw, and restarts that lost the record, from a chain that the artifact accounts for: nothing is executed again once an artifact exists, and nothing is sent twice as long as no call but the last throws |
| SettlementRunner.ExecuteAgainIff | apps/orchestrator/src/orchestrator-settlement-runner.ts:95-111 | For a final root, execution is reached if and only if there is no record and no artifact is found in a configured directory |
| Retention.PruneTerminalRaids | apps/orchestrator/src/raid-retention.ts:34-99 | The pruned ids are the largest set of old terminal raids that contains every child of a member and leaves no present live parent behind; the rest is retained in order; a ttl of zero or less keeps all |
| Retention.OrderIndependent | apps/orchestrator/src/raid-retention.ts:44-90 | The same raids in any order admit the same sets, so the answer does not depend on the order |
| Retention.Partition | apps/orchestrator/src/raid-retention.ts:92-98 | Every raid is retained as often as given, or not at all if pruned |
| Retention.ChildWithoutParent | apps/orchestrator/src/raid-retention.ts:71-88 | An old child goes although its recent terminal parent stays |
| Reservations.BuildCounts | apps/orchestrator/src/orchestrator-provider-capacity.ts:23-60 | The count of a provider is its live assignments and pool places in live raids plus the unexpired reservations without output |
| Reservations.ActiveInIs | apps/orchestrator/src/orchestrator-provider-capacity.ts:23-48 | A raid counts for a provider each place it has in the pool and one assignment that is not over, and nothing once it is terminal |
| Reservations.HeldCounts | apps/orchestrator/src/orchestrator-provider-capacity.ts:49-60 | What is held is the number of unexpired reservations without output that have the provider among primaries or reserves |
| Reservations.Launcher.CheckCapacity | apps/orchestrator/src/orchestrator-provider-capacity.ts:70-101 | True if and only if each provider has a profile and is below its capacity |
| Reservations.Launcher.ReserveHead | apps/orchestrator/src/raid-lifecycle-spawn.ts:53-62 | While the last save failed nothing is let in; otherwise an existing reservation is returned if and only if one of that route and key is kept and unexpired, and then the first one |
| Reservations.Launcher.ReserveTail | apps/orchestrator/src/raid-lifecycle-spawn.ts:64-77 | A reservation is added if and only if everybody of the prepared raid has a profile and is below capacity; capacities hold |
| Reservations.Launcher.SpawnDirect | apps/orchestrator/src/raid-lifecycle-spawn.ts:169-185 | A raid is added if and only if everybody of the prepared raid has a profile and is below capacity; it has just those providers, task and deadline |
| Reservations.Launcher.SpawnHead | apps/orchestrator/src/raid-lifecycle-spawn.ts:100-163 | A caller joins if and only if a spawn is under way; it starts exactly one raid if and only if none is, saving is healthy, a reservation with that key is kept, unexpired, without output and before its deadline, and its providers are registered; it gets an output if and only if a kept reservation has it; otherwise it is rejected, and an overdue reservation is dropped; the raid that is started has the task, deadline, primaries and reserves of the reservation |
| Reservations.Launcher.SpawnSaved | apps/orchestrator/src/raid-lifecycle-spawn.ts:157-165 | A saved spawn sets the output; a rejected save ends the spawn and leaves its raid |
| Reservations.Launcher.Run | apps/orchestrator/src/raid-lifecycle-spawn.ts:48-185 | Over every interleaving without a rejected save of a new raid: at most one raid for a reservation, the same output for all callers, and live assignments plus unexpired reservations within max(maxConcurrency, 1) |
| Reservations.Launcher.RunAny | apps/orchestrator/src/raid-lifecycle-spawn.ts:48-185 | Over every interleaving, rejected saves or not: a reservation yields at most one raid if and only if no spawn of it starts after the save of an earlier one was rejected |
| Reservations.Launcher.RejectedSaveSpawnsTwice | apps/orchestrator/src/raid-lifecycle-spawn.ts:125-166 | From every state with a reservation that can be spawned: when the save of the first spawn is rejected and a later save succeeds, the next spawn starts and a second raid is made |
| Reservations.PrunedHeld | apps/orchestrator/src/raid-launch-reservations.ts:51-75 | Pruning removes nothing that is held |
| Reservations.PrunedKeeps | apps/orchestrator/src/raid-launch-reservations.ts:51-75 | A reservation with output is kept for a quarter of an hour after it was made, any other until it expires, and the order stays |
| Persistence.Store.Start | apps/orchestrator/src/persistence-queue.ts:27-41 | A save whose predecessor is over is the next in call order; its snapshot shows the live raids up to `updatedAt` |
| Persistence.Store.Finish | apps/orchestrator/src/persistence-queue.ts:31-38 | Health is the outcome of the last save that ended; a successful one is on disk |
| Persistence.Store.BuildSnapshot | apps/orchestrator/src/orchestrator-persistence.ts:92-134 | Each raid of a snapshot equals the live one except perhaps `updatedAt`, for an injective hash; the cache keeps only raids that are retained |
| Persistence.Store.PersistRaidRecord | apps/orchestrator/src/orchestrator-persistence.ts:44-53 | A raid whose contents are those of its cached record is saved as that record, any other as it is |
| Persistence.Store.TimerFires | apps/orchestrator/src/orchestrator-persistence.ts:237-244 | When the timer goes off a save is waiting that has not begun |
| Persistence.Store.Run | apps/orchestrator/src/orchestrator-persistence.ts:201-246 | Over any run saves are one at a time and nothing is lost: with the timer off, all saves over and the last one good, the disk shows the live raids |
| TokenPricing.ResolveTokenRates | packages/constants/src/token-pricing.ts:3-13 | The rates of the first highest threshold below the input, or the base rates |
| TokenPricing.ResolvedOnce | packages/constants/src/token-pricing.ts:3-13 | With distinct thresholds the rates do not depend on the order of the tiers |
| TokenPricing.CalculateTokenCostUsd | packages/constants/src/token-pricing.ts:16-46 | Cache reads, then cache writes, then audio take their share of the input tokens, reasoning and then audio of the output tokens, none more than is left; each goes at its own rate or else the base rate, and the rest at the base rate |
| TokenPricing.RateMatters | packages/constants/src/token-pricing.ts:28-45 | Two rate tables that differ in one rate of a category differ in cost by just that for each token of the category |
| TokenPricing.BaseRateMatters | packages/constants/src/token-pricing.ts:28-45 | Two that differ in a base rate do so for exactly the rest and the categories without a rate of their own |
| TokenPricing.ChargedOnce | packages/constants/src/token-pricing.ts:22-45 | Every input and output token is charged exactly once |
| TokenPricing.CostBetween | packages/constants/src/token-pricing.ts:16-46 | The cost lies between the lowest and the highest rate times all tokens |
| TokenPricing.DiscountScales | packages/constants/src/token-pricing.ts:48-65 | A discount by m picks the same tier and costs m times as much up to half a hundred-millionth a token |
| DocsRouting.ParseDocsRoutePath | apps/docs/shared/docsRouting.js:183-209 | The leading enabled version and locale are split off, the rest is the document path |
| DocsRouting.BuildDocsRouteVariants | apps/docs/shared/docsRouting.js:231-283 | Exactly the routes of all choices of no or one version and locale, each once |
| DocsRouting.SegmentsOfJoin | apps/docs/shared/docsRouting.js:30-39 | Segments joined and split again are the same when their outer ends carry no white space, and get shorter otherwise |
| DocsRouting.RouteParsesBackIff | apps/docs/shared/docsRouting.js:183-219 | A route parses to its document, and to exactly the version and locale it was built with, if and only if the ends of the document that no prefix covers carry no white space |
| DocsRouting.VariantsParseBackIff | apps/docs/shared/docsRouting.js:183-283 | Every variant of a document parses back to its choice if and only if the document carries no white space at its ends |
| DocsRouting.WhiteDocument | apps/docs/shared/docsRouting.js:30-39 | The document / / a, whose one segment begins with a space, is found from a versioned route but not from the bare one |
| DocsRouting.BareRouteParsesBackIff | apps/docs/shared/docsRouting.js:183-219 | Without a prefix the document is found again if and only if its path carries no white space at its ends |
| DocsRouting.ResolveFallsBack | apps/docs/shared/docsRouting.js:157-181 | A version or locale that is missing or empty falls back on the current one |
| DocsRouting.VariantsAreAll | apps/docs/shared/docsRouting.js:231-283 | For every document there are (1 + versions) * (1 + locales) pairwise distinct routes, a disabled feature counting as none |
| DocsRouting.NoIssuesUsable | apps/docs/shared/docsRouting.js:71-127 | A configuration without issues has disjoint prefixes, none of which begins a document of the tree |
| DocsRouting.IssuesIff | apps/docs/shared/docsRouting.js:71-127 | Exactly the issues there are: an enabled feature without values, without a current one or with one that is not among them, an enabled version that is an enabled locale, a document that begins with an enabled prefix |
| DocsRouting.UniqueTrimmedAre | apps/docs/shared/docsRouting.js:4-12 | The values of a feature are those given, trimmed and not empty; the first such one comes first |
| Bitmaps.Bitmap.SetPixel | apps/provider-agent/src/bitmap.ts:85-95 | Exactly the addressed pixel changes, none outside the raster; channels are kept modulo 256, and a colour without alpha is opaque |
| Bitmaps.Bitmap.FillRect | apps/provider-agent/src/bitmap.ts:97-103 | Exactly the pixels of the rectangle inside the raster take the colour |
| Bitmaps.Bitmap.Blit | apps/provider-agent/src/bitmap.ts:112-127 | Each pixel under an opaque source pixel's cell takes its colour, all others stay |
| JsInt.PackerOperators | apps/provider-agent/src/bitmap.ts:348-356 | For a buffer of fewer than 8 bits and a code of at most 12, the 32-bit operators put the code above the buffer without wrap-around |
| JsInt.BitByBit | apps/provider-agent/src/bitmap.ts:348-356 | The operators and and or work bit for bit |
| JsInt.WrapsAround | apps/provider-agent/src/bitmap.ts:348-356 | Conversion to 32 bits differs by a multiple of two to the 32 and stays in range |
| JsInt.ShiftCount | apps/provider-agent/src/bitmap.ts:348-356 | Only the low five bits of a shift count matter |
| GifLzw.LiteralKeepsStep | apps/provider-agent/src/bitmap.ts:366-374 | Each literal keeps the encoder's code width and next code in step with the decoder's table |
| GifLzw.DecodeEmit | apps/provider-agent/src/bitmap.ts:366-380 | From any states in step the decoder reads back exactly the indices, across clears and whatever padding follows |
| GifLzw.DecodeYieldsRoots | apps/provider-agent/src/bitmap.ts:338-386 | The decoder yields only root symbols, so no index beyond them can round-trip |
| GifLzw.LzwEncoder.FlushCode | apps/provider-agent/src/bitmap.ts:348-356 | Exactly the bits of the code are appended; fewer than 8 bits stay buffered |
| GifLzw.LzwEncoder.SendIndex | apps/provider-agent/src/bitmap.ts:366-377 | The state and bits after an index are those of the specification |
| GifLzw.EncodeCodes | apps/provider-agent/src/bitmap.ts:338-383 | The bytes hold exactly the code stream, then fewer than eight zero bits |
| GifLzw.SubBlocksReadBack | apps/provider-agent/src/bitmap.ts:327-336 | Framing in sub-blocks is read back and the reader stops at the terminator |
| GifLzw.EncodeImageData | apps/provider-agent/src/bitmap.ts:338-386 | A decoder following Appendix F of GIF89a reads the image data back as exactly the indices |
| GifFile.PaletteIsExact | apps/provider-agent/src/bitmap.ts:250-278 | Every colour has its own palette entry if and only if there are at most 256 |
| GifFile.DistinctInOrder | apps/provider-agent/src/bitmap.ts:250-278 | Each palette colour is there from its first appearance on, after exactly those that appeared before it |
| GifFile.CollectPalette | apps/provider-agent/src/bitmap.ts:250-278 | The first 256 distinct colours in order of appearance, with their positions |
| GifFile.FindNearest | apps/provider-agent/src/bitmap.ts:280-296 | A first entry at least distance |
| GifFile.EncodeFrame | apps/provider-agent/src/bitmap.ts:430-446 | The blocks of a frame: a control block with the delay, and an image that a reader sees as the mapped frame |
| GifFile.NearestOfEntry | apps/provider-agent/src/bitmap.ts:280-325 | A colour of the palette is mapped to itself |
| GifFile.MapFrame | apps/provider-agent/src/bitmap.ts:298-325 | Every pixel is mapped to its first nearest entry |
| GifFile.NextTableSize | apps/provider-agent/src/bitmap.ts:238-244 | The least power of two from 2 to 256 that holds the palette |
| GifFile.EncodeGifAnimation | apps/provider-agent/src/bitmap.ts:388-454 | The exact error conditions; otherwise a GIF89a reader sees each frame with every pixel in its nearest palette colour |
| GifFile.LosslessWithinPalette | apps/provider-agent/src/bitmap.ts:250-325 | Mapping to palette entries keeps every pixel as it is, its alpha value too, if and only if there are at most 256 distinct colours |
| GifFile.LosslessRoundTripIff | apps/provider-agent/src/bitmap.ts:250-454 | A reader sees every pixel with its own red, green and blue if and only if every colour beyond the first 256 has a first nearest entry of the same red, green and blue |
| GifFile.LosslessRoundTrip | apps/provider-agent/src/bitmap.ts:388-454 | With at most 256 colours a reader sees every pixel with its own red, green and blue |
| GifFile.MoreShadesLose | apps/provider-agent/src/bitmap.ts:250-454 | With more than 256 different values of red, green and blue a reader never does |
| GifFile.OneAlphaExact | apps/provider-agent/src/bitmap.ts:250-454 | For pixels of one alpha value a reader does if and only if there are at most 256 colours |
| GifFile.OneMoreIsKept | apps/provider-agent/src/bitmap.ts:250-454 | All 256 greys and a transparent black are 257 colours, and yet a reader does |
| Crc.StepsLinear | apps/provider-agent/src/bitmap.ts:57-63 | The division steps are linear over exclusive or |
| Crc.TableStep | apps/provider-agent/src/bitmap.ts:57-63 | Eight steps depend on the low byte only through the table |
| Crc.BuildTable | apps/provider-agent/src/bitmap.ts:57-63 | The table holds eight division steps of every byte |
| Crc.Crc32 | apps/provider-agent/src/bitmap.ts:203-209 | The table-driven CRC equals the bit-at-a-time division of section 3.4 of RFC 2083 |
| Crc.KnownValue | apps/provider-agent/src/bitmap.ts:57-63 | The division of one zero byte gives the check value D202EF8D |
| Png.ChunkReadsBack | apps/provider-agent/src/bitmap.ts:193-201 | A chunk is read back by length, type, data and CRC |
| Png.UnfilterInverts | apps/provider-agent/src/bitmap.ts:222-228 | Rows behind zero filter bytes are read back |
| Png.EncodePng | apps/provider-agent/src/bitmap.ts:211-236 | Given an inverse of deflate, a reader of the file gets width, height and bytes if and only if the sizes are in the standard's range |

## Left out

- Lifecycle.Orchestrator.SettleAssignment: the run of a raid that a revision adds (`runRaid`, called without waiting) begins with a step of its own, `StartRaid`, instead of in the block that adds it.
- Lifecycle.Orchestrator.OnDeadline: a timer that fires before the deadline is not modelled; the block starts with the deadline passed.
- Lifecycle.Orchestrator.Finalize: reputation events, the answer synthesized for a root and the start of its settlement happen after the pause and change no status; they are not part of this model.
- Lifecycle.Orchestrator.AbortRaid: the status queries of the recursive calls are left to the outermost one, which refreshes the same raids once more.
- Lifecycle.Orchestrator.LaunchAndRun: the registry of providers is fixed; what is said of dropped ids is said of that registry.
- Lifecycle.Orchestrator.PromptRun: needs a clock that stands still within a step; when the deadline passes within a step, after a revision of that step, the same can happen as with a late mark.
- Lifecycle.Orchestrator.Run: events for which the source would not get as far (an unknown raid, a continuation whose raid is no longer live) are skipped.
- Adaptive.GroupCandidateIff: which workstreams have a child family and which have priority are parameters of the environment; the authoring of templates from task texts is not modelled.
- Planning.Allocate: prompts, output types and specializations of the templates are not modelled; biases are non-negative reals.
- Replanning.BuildRevision: the role in the plan of an added raid is a name only; its prompts are not modelled.
- Planning.BuildFamilyNodes: shares are exact reals rounded to cents, not binary floating point.
- Settlement.Executor.ProcessAllocation: token approvals are not counted among the transactions, job numbers are the positions of their creation, and whether an address is other than zero stands for the address.
- Settlement.Executor.Resume: the next action and the warnings kept with a job are not modelled.
- SettlementRunner.Runner.ExecuteSettlement: one settlement of a raid at a time, as the settling mark of the caller ensures; reading an existing artifact succeeds.
- Reservations.Launcher.Run: single mode only, where it is promised; preparing a raid (discovery, selection) is given, and rejections of the second save only cost the callers their answer.
- Reservations.Launcher.SpawnHead: quote and registration checks are one flag, which `Hydration.HydrateQuoted` decides; whether saving is healthy changes at any time, not only with the saves of spawns.
- Settlement.Executor.Execute: a write that fails leaves the artifact as it was; files cut in the middle are not modelled.
- Persistence.Store.Run: every change of the raids asks for a save, and building a snapshot does not fail; encryption of provider profiles and launch reservations in the snapshot are not modelled.
- Retention.PruneTerminalRaids: dates are numbers or missing when they do not parse.
- Launch.PrepareHierarchicalGraph: discovery and selection are parameters; selection takes only whom it is offered, nobody twice.
- TokenPricing.DiscountScales: rates are exact reals; `toFixed` rounds to the nearest eight decimals.
- DocsRouting.ParseDocsRoutePath: the raw slug and the active defaults in the result are not modelled; collections other than the documents parse alike.
- Png.EncodePng: deflate and its inverse are parameters.
- GifFile.EncodeGifAnimation: the delay is stated of the control block of each frame (`EncodeFrame`), not of what the reader returns, and the loop count is written but not read back; options are whole numbers.
- Drawing of text, fonts and colours from hexadecimal: only easy members.
- HTTP, chain and provider clients, timers' real delays, SQL storage, prompts and web views: input and output without properties of this kind.
- Restoring a saved state, routing proofs, reputation and delegation records, replayed evaluations: not modelled.
