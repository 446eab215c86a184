# Saffron's night, modelled and proved

Saffron runs a coding agent over a queue of specs overnight. A stack batch plans
one order over the queue, drives it spec by spec under a budget, a deadline and a
breaker, records every fact in an event-sourced ledger, and ends with a review of
the whole stack and specs for the follow-ups it calls for. This project models
that host side in Dafny and proves what the code and its documents promise of it:
the plan is a maximal and least dependency order, no spec runs before what it
depends on, the night ends and stays inside its money, the ledger replays to what
was written, no finding is lost, and the text and log algorithms mean what they
are used for.

`dafny verify dfyconfig.toml` checks all of it.

| file | what it models |
|---|---|
| `Graph.dfy`, `Scheduler.dfy`, `Removals.dfy` | the stack planner: walks over `depends_on`, the order, the stack base, removed-name clashes |
| `Progress.dfy`, `SpendBook.dfy`, `Plans.dfy` | what the night driver knows of its order, of its money and of the world's answers, as values |
| `Batch.dfy`, `Night.dfy`, `Stranded.dfy` | the night driver itself, the whole night, and the nights on which a spec runs without its parent |
| `EndReview.dfy`, `Qualify.dfy`, `FollowUp.dfy` | the end review, the qualification of its findings, the spec writer |
| `Admission.dfy` | the printed admission thresholds |
| `Tables.dfy`, `Facts.dfy`, `Ledger.dfy`, `Baseline.dfy`, `Writes.dfy`, `Spending.dfy` | the ledger: rows, facts, `_apply` and `fold_task`, baseline subtraction, the live writes, and what a batch has spent by them |
| `Text.dfy`, `DiffFacts.dfy`, `Redact.dfy`, `EventLog.dfy`, `Vocabulary.dfy`, `Citations.dfy` | the text and log algorithms |
| `Wrappers.dfy`, `Lists.dfy` | shared result types and facts about sequences |

Objects the source updates in place are classes (`StackBatch`, `FollowUpWriter`,
`LiveLedger`, `Container`), loops are methods with invariants, and everything the
source only computes is a function. The night driver's callables (`review`,
`revise`, `mint`, `cite`, the runner, the clock, the mirror) answer through a
`World`, `Critics` or `Room`: the n-th call is answered by a function at n, so a
theorem over every such function is a theorem over every night. A raise is one of
the answers.

## What the proofs found

Three promises do not hold. The code is modelled as it stands. Each failure has
a concrete input on which the modelled code meets it and an exact condition, and
everything else is proved around it.

1. **No spec runs before what it depends on, unless a question about the stack
   base raises.** `stack_base_alive` lets a `PackageError` through
   (saffron/cli.py:808-819), and `wrapped` asks it before any handler
   (saffron/batch.py:641-651). The spec then stays in `remaining`, so it never
   joins `missed`, and stays in `started`, so it is never offered again. While
   it heads `remaining` no spec behind it is refused unstarted
   (saffron/batch.py:619-629), so one that depends on it may run without its
   parent. DESIGN.md:455 asks that every `depends_on` task has reached
   `READY_FOR_REVIEW`, and saffron/batch.py:530-531 that a spec which reaches a
   missed one is refused.
   `Plans.Plan.Strandable` is what a caller can tell before the night: the order
   is cut from a stack base whose branch is asked after, the night has not begun
   at its deadline, and a spec with no parent ahead of it in the order comes
   before one that depends on something only the order can carry, where every
   spec from the first to the second, and every parentless one before them, fits
   what the order may spend. If no such raise comes, or the plan is not
   strandable, every spec of the order ran sound (`Night.RunStackBatch`,
   `Night.PlanAndRun`). If the plan is strandable, some answers of the world
   make the driver call a spec without its parent (`Stranded.StrandedNight`). So
   over all answers the promise holds exactly on plans that are not strandable.
   `Stranded.StrandedChild` is such a night over two specs. Of the other raises
   the driver meets only one of `open_prs`, asked after a revised spec is cleared
   (saffron/batch.py:811-818), would leave a spec in this state; its adapter
   finds nothing instead of raising (saffron/scheduler.py:310-345,
   saffron/cli.py:3158-3173), and that it does not raise is assumed below.
2. **Every session paid for is charged, unless a call raises past it.**
   CONTEXT.md:617-619 has even an errored end review charged to the reserve,
   DESIGN.md:37 wants the spend of every run recorded, and
   saffron/batch.py:306-312 wants it not to vanish. It does in two ways.
   A call that raises is counted as nothing, whatever its session had cost by
   then. `_review_one_layer` and `review_joins` catch a raise of either session,
   or of the cell on its way down, and record cost 0
   (saffron/end_review.py:447-476, 642-657). A raise of `write` leaves `spent`
   as it was (saffron/follow_up.py:389-393), one of `review` or `revise` leaves
   no attempt (saffron/batch.py:728-745, 846-860), and a cell's turn that raises
   past its handler leaves its attempt open (saffron/cell/session.py:293-312).
   So the money bounds hold of what is counted and not of what is paid: a
   reserve that covers one layer has a cell opened for every layer whose review
   raises (`EndReview.PaysPastReserve`), and `EndReview.PaysTenOfFour` pays ten
   dollars out of a reserve of four; a cap that covers one session has every
   group written for (`FollowUp.PaysPastCap`), and `FollowUp.PaysThirty` pays
   thirty under a cap of eighteen and a half. `Batch.LosesFiveDollars` is a
   review the driver asked for.
   And a write that raises loses the session under it: a `mint` the session it
   was to file (saffron/follow_up.py:453-460, `FollowUp.LosesFourDollars`), a
   row of the end review what its layer or the join had cost by then
   (saffron/end_review.py:479-545, `EndReview.LosesThreeDollars`).
   What is paid, charged and lost is exact. `EndReview.RunEndReview` and
   `FollowUp.FollowUpWriter.StackFollowUps` give what their rows gain as what
   was paid less both losses, each a sum over the answers, and say when that is
   all of it. `Night.RunStackBatch` adds the driver's calls, kept in `bills`:
   the ledger of a whole night is what its calls cost less what slipped past it,
   and all of it exactly when no call that raised had paid anything and no write
   raised under a session that cost something (`Night.NightFilesAll`). What is
   paid past a reserve, a share or a budget is at most what slipped, and of the
   end review at most two lenses for each review that raised
   (`EndReview.SlipWithin`).
3. **A printed threshold is not below the amount it was computed from, unless
   that passes a whole cent by no more than the tolerance.** `_ceil_cents`
   promises it never is (saffron/cli.py:2086-2090), but an amount up to a
   billionth of a cent past a whole cent is rounded down.
   `Admission.NeverBelowIff` is the exact condition, `Admission.OneSitsBelow` an
   amount that fails it, and `Admission.CentsAreExact` shows that budgets given
   in cents are never rounded at all.

## What is assumed

- Spec ids in one queue are distinct. `discover_specs` does not enforce it, and
  every id-keyed dictionary of the planner relies on it.
- A review session costs at most `SPEC_REVIEW_SESSION_USD` (8.0), a writer session
  at most `SPEC_WRITER_SESSION_USD` (18.5) and an end lens at most the lens budget,
  whether it comes back or raises, and the turns of a cell that ended at most its
  spec's budget. The source takes these ceilings from the sessions themselves. What
  a call that raises had cost by then is part of its answer. Budgets are above zero,
  and only sessions and cells cost anything.
- The clock never runs backwards. A night with no deadline is ended by its operator
  within some number of sleeps, since the code itself bounds no such night.
- Ledger calls made while driving, `emit`, and `open_prs` do not raise.
- Layers of one batch belong to distinct tasks, for the end review's count.
- Amounts are real numbers. Floating point is not modelled.
- Each file of an event log only grows between two looks at it.
- `\w` does not match a carriage return.

## Model

| member | source | states |
|---|---|---|
| Graph.Reachable | saffron/scheduler.py:245-266 | the ids returned are exactly the strict transitive closure of the edges from the start, the start itself left out, on any graph with cycles and dangling ids |
| Graph.DependsOnPath | saffron/scheduler.py:779-796 | true exactly when a walk of at least one edge leads from one end to the other, so it agrees with the closure for distinct ends and finds a cycle for equal ones |
| Scheduler.DeepestOpenParent | saffron/scheduler.py:283-307 | the chosen parent reaches the most others of all candidates, ties to the lowest id, and the parents left off its chain are exactly those it does not reach |
| Scheduler.OffChainEmptyIffOneChain | saffron/scheduler.py:283-307 | nothing is off the chosen chain exactly when some candidate's chain reaches every other parent |
| Scheduler.StackDependencyReason | saffron/scheduler.py:1142-1175 | every entry a refusal names is a real missing dependency, a spec that is not ready names at least one, and the second-stack-base reason is given exactly when another qualifying base is among the missing |
| Scheduler.StackOrder | saffron/scheduler.py:1178-1229 | taken and left partition the candidates as multisets, each taken spec was the lowest ready one by priority and id, nothing left is ready, and each left spec is refused with its reason |
| Scheduler.OrderIsMaximal | saffron/scheduler.py:1178-1229 | any dependency-respecting sequence over the candidates, cycles included, uses only taken specs |
| Scheduler.OrderIsLeast | saffron/scheduler.py:1178-1229 | at its first difference from the taken order no dependency-respecting sequence is smaller by priority and id |
| Scheduler.ResolveStackBase | saffron/scheduler.py:1065-1124 | the stack base is the deepest of the external parents that qualify, its chain is exactly what it reaches, causes are the external parents that do not qualify, and other qualifying ones are those off the chain |
| Scheduler.BuildStackQueue | saffron/scheduler.py:1411-1438 | ordered and refused specs partition the kept candidates, the order is the greedy one, every refusal names a missing entry, and the result is what the driver relies on: each dependency is on the default branch, on the stack base or its chain, or earlier in the order |
| Removals.PartitionCuts | saffron/scheduler.py:740-747 | an entry is cut at its first colon or not at all, and its parts rejoin to it |
| Removals.RemovedNameClash | saffron/scheduler.py:756-776 | a subject comes back exactly when the reader still reads a name the remover removes, and it is that of the first such entry |
| Removals.RemovedNameRefusals | saffron/scheduler.py:799-852 | whatever order the specs are read in, a partner is held exactly when it is a candidate with a clash against an unrelated partner that waits or has a lower id, and each reason is of the first pair, in the walk's order of removers and their readers, that holds it, by the first name still read |
| Removals.NoneLeftClash | saffron/scheduler.py:41-49 | no two specs that may still run clash: neither two candidates left nor one of them and a spec whose branch waits |
| Removals.LowestYieldsToWaitingOnly | saffron/scheduler.py:41-49 | the lowest candidate is held only beside a spec that waits, never by another candidate |
| Removals.ParentLiftsClash | saffron/scheduler.py:823-824 | declaring either of two specs the parent of the other lifts a clash between them |
| StackProgress.BlockingIsBlamed | saffron/batch.py:612-617 | what a blocked spec reports is exactly the specs that themselves missed and that it reaches over `depends_on` inside the order |
| StackProgress.BlockStep | saffron/batch.py:619-629 | refusing a blocked spec unstarted keeps layers, misses and the rest a partition of the order, and the `missed` map exact |
| StackProgress.BlockHead | saffron/batch.py:619-629 | so does refusing whatever blocked spec heads `remaining`, and nothing else moves |
| StackProgress.MissStep | saffron/batch.py:917-918 | a spec that misses on its own account keeps the partition and the exact map |
| StackProgress.LayerStep | saffron/batch.py:913-916 | a spec that becomes a layer keeps the partition and the exact map |
| StackProgress.SkipStep | saffron/batch.py:641-651 | a spec whose stack-base question raised is left in `remaining`, and the partition is kept with it counted as neither layer nor miss |
| StackProgress.ConsistentPartitions | saffron/batch.py:612-629 | layers, misses and skipped specs are apart from each other and together make up exactly the specs passed |
| StackProgress.SoundOrStranding | saffron/batch.py:612-629 | with the head of `remaining` unblocked, the next spec of an order stands on layers and satisfied specs only, or one was skipped and the order strands it, told from dependencies and budgets alone |
| Stranded.AnswersAreLawful | saffron/cli.py:808-819 | the answers under which a spec is stranded are among those every other theorem allows |
| Stranded.CalledUnsound | saffron/batch.py:619-656 | on any pass whose traced steps stay on that track and which came past the child, the child was called with a dependency neither satisfied nor layered |
| Stranded.StrandedNight | saffron/batch.py:206-382 | for every strandable plan some answers make the driver itself call a spec of the order without its parent: the condition is necessary |
| Stranded.PairIsStrandable | saffron/batch.py:619-656 | two specs on a stack base, the second depending on the first, are strandable whenever one budget fits |
| Stranded.StrandedChild | saffron/cli.py:808-819 | over that pair a driven night called the second spec while the first was neither satisfied nor a layer |
| SpendBook.AttachedIsCharged | saffron/ledger.py:1402-1426 | once every charged task hangs from the batch, what the batch reads as spent is all that was ever charged |
| SpendBook.Book.BatchSpend | saffron/ledger.py:1402-1426 | a complete ledger's batch spend is every attempt and every end review ever charged |
| SpendBook.Book.WriterLeft | saffron/batch.py:199-203 | what is left of the writer's share is the share less every writing charge, never below zero |
| SpendBook.Book.AttachOrphans | saffron/ledger.py:1385-1400 | a raise attaches exactly the runs minted past the high-water mark |
| SpendBook.WritingLeavesWhatIsHeld | saffron/batch.py:199-203 | a writing charge leaves spend plus writer's share unchanged exactly when it is inside the share |
| Batch.StackBatch.constructor | saffron/batch.py:549-597 | a fresh night satisfies everything the driver keeps |
| Batch.StackBatch.Resume | saffron/batch.py:541-566 | a resume continues from its top layer at its position, over an empty order, in the follow-ups' generation |
| Batch.StackBatch.WaitOut | saffron/batch.py:385-410 | every wait is above zero and at most 21600 seconds, to the reset time where that can be believed; one that would reach the deadline is not taken and ends the pass as UNTIL, and a taken one ends strictly before it and a whole second later on the clock |
| Plans.Pause | saffron/batch.py:393-404 | a limit is waited out exactly to its reset time when that is ahead and within six hours, and otherwise for exactly an hour |
| Batch.StackBatch.ResolvePrefix | saffron/batch.py:619-629 | afterwards the head of `remaining` is unblocked, refusing was all that happened, and the partition stands |
| Batch.StackBatch.CiteOnce | saffron/batch.py:688-726 | the spec ends as a miss exactly when its citations stay unresolved or asking raised; moved ones become its latest text and nothing else of the ledger changes |
| Batch.StackBatch.ReviewOnce | saffron/batch.py:684-828 | one review charges at most one session, never as writing; a spec is cleared or sent to revision only by the answer of the review asked for here, and whatever kept the review from being asked for is a miss |
| Batch.StackBatch.TakeReview | saffron/batch.py:746-828 | a session that came back is charged whatever it says; a revision asked for with none to write, or past the limit, escalates or runs by its blockers; only a route of `run` adds to `reviewed`, and every route but a wait or an error marks the follow-up as reviewed |
| Batch.StackBatch.TakeUp | saffron/batch.py:683-687 | a revision that waited is taken up with exactly the pair it was given, with no review between |
| Batch.StackBatch.ReviewRound | saffron/batch.py:683-895 | one round of review and revision adds one to the revisions of its spec or ends the loop, and each adds at most one review to what the cell may be paid out of |
| Batch.StackBatch.ReviseOnce | saffron/batch.py:832-895 | a revision the budget does not cover with the review after it and the cell is refused unasked and charges nothing; its cost is all writing; a rate limit keeps the very pair for the retry |
| Batch.StackBatch.TakeTurn | saffron/batch.py:862-895 | the session is charged whatever it returned; only a good one counts a round and becomes the latest text; a rate limit alone is retried |
| Batch.StackBatch.ReviewAndRevise | saffron/batch.py:681-895 | the loop ends within the revision limit, and leaves the cell affordable within one review above the purse |
| Batch.StackBatch.AskStackBase | saffron/batch.py:641-656 | a stack base found gone is never asked after again and refuses every spec that would stand on it; a spec passes only if the base was found alive; a raise leaves it where it was |
| Batch.StackBatch.MintTask | saffron/batch.py:658-670 | a spec's one task is minted, attached and remembered before it is charged, and a raise is always a miss |
| Batch.StackBatch.AskReview | saffron/batch.py:728-767 | one review asked for is one bill, charged exactly as the answer says: its cost when it came back, nothing when it raised |
| Batch.StackBatch.RunCell | saffron/batch.py:896-919 | a cell charges exactly what its ended turns cost, at most its spec's budget and never as writing, to the spec's own task or to the run it minted; a refusal charges nothing; the call is one bill |
| Batch.LosesFiveDollars | saffron/batch.py:728-745 | a review that raises at five dollars: asked for and paid, and nothing charged |
| Plans.PaidSplits | saffron/batch.py:728-745 | what the driver's calls cost is what of them was charged and what slipped |
| Plans.SlippedIsNone | saffron/batch.py:728-745 | nothing slips exactly when no review or revision raised with anything paid and no cell left a turn open |
| Batch.StackBatch.Settle | saffron/batch.py:896-919 | a result leaves the spec queued, makes it the next predecessor, or makes it a miss, and does one of these exactly |
| Batch.StackBatch.Wrapped | saffron/batch.py:631-919 | one call on an offered spec: a layer exactly on READY_FOR_REVIEW, a wait never a miss, the predecessor moved only by a layer, every runner call recorded as sound, and spend within one review of the purse |
| Batch.StackBatch.RecordLayer | saffron/batch.py:598-610 | a layer is filed one position up, on the layer below it, and the chain stays one chain |
| Plans.ChainedAt | saffron/ledger.py:767-807 | positions are consecutive from one; each layer's predecessor is the layer below, and the lowest stands on the stack base or on nothing |
| Batch.StackBatch.Record | saffron/batch.py:301-378 | every charge ends attached; a layer is filed exactly for READY_FOR_REVIEW; the breaker counts raises and abort states, stands on refusals and waits, and resets otherwise; in-flight and unpackaged specs are named |
| Batch.StackBatch.Admit | saffron/batch.py:256-282 | deadline, then budget, then breaker: UNTIL exactly at the deadline, BUDGET exactly when that is ahead and the spec does not fit, INFRASTRUCTURE exactly when both allow it and the breaker is at its limit, and the spec is admitted exactly when none of them holds |
| Plans.FirstUnstarted | saffron/batch.py:251-252 | the first candidate not started, or none when all are |
| Batch.StackBatch.Choose | saffron/batch.py:251-282 | in the order's pass the spec chosen is always the unblocked next one of the order, and priceable |
| Plans.Advance | saffron/batch.py:896-919 | each fate of a call moves the order's progress by one matching step, and only a raise that skips leaves it neither resolved nor offered again |
| Plans.StartedStaysApart | saffron/batch.py:286-382 | after any call and rescan nothing still to be offered is in `started`, and all that was skipped is |
| Plans.BurnedIsLower | saffron/batch.py:291-371 | a spec offered again without progress burned the breaker or a whole second before the deadline, so the driver's measure fell |
| Batch.StackBatch.Turn | saffron/batch.py:250-382 | one turn stops for a justified reason or lowers (specs unresolved, breaker headroom, seconds left) |
| Batch.StackBatch.Loop | saffron/batch.py:250-382 | the driver ends, for a justified reason: DRAINED only with the whole order resolved and the breaker short of its limit, BUDGET only on a spec that does not fit, UNTIL only at the deadline or a wait from it, INFRASTRUCTURE only at the breaker |
| Batch.StackBatch.Drive | saffron/batch.py:206-382 | so does a pass with its readiness check; the peak of what was ever charged is at most one review above the purse, layers only grow, and an unready host runs no cell |
| Plans.StaysInPurse | saffron/batch.py:271-278 | the pass's bound on spend, and on spend plus writer's share, survives every turn, waits and repeated offers included |
| Night.Promote | saffron/batch.py:1031-1053 | INFRASTRUCTURE exactly on an unpackaged spec or that reason, INCOMPLETE exactly on a spec in flight otherwise, and DRAINED only with neither |
| Night.ReviewEnd | saffron/batch.py:958-974 | the end review reads the whole chain from its top, charges only the reserve, files every lens of every layer once, and adds what it cost less what was lost and what slipped |
| Night.WriteGroups | saffron/cli.py:1762-1800 | the writer's walk charges only what its share has left, adds what its sessions cost less what was lost and what slipped, and every grouped finding ends in an accepted text or pooled |
| Night.WriteEnd | saffron/batch.py:975-978 | qualification and the writer composed: every finding decided over the stack is in an accepted text, in the writer's pool, in no group, or killed, and in one of them only; the follow-ups returned are all the accepted texts, or none after a raise; nothing is qualified and nothing charged exactly when no layer was reviewed, the pinned base could not be read, or a range raised |
| Night.RunFollowUps | saffron/batch.py:981-1005 | follow-ups run in generation one with nothing held back, add layers above the order's, and leave the order as it ended |
| Night.RunTail | saffron/batch.py:958-1017 | the tail keeps what the night is charged within its budget and one call's reviews, adds what it cost less what was lost and slipped, reviews every layer of the order once, loses no finding, and takes up follow-ups exactly when the order drained and the writer returned some |
| Night.RunStackBatch | saffron/batch.py:930-1028 | the order's pass charges at most the budget less the reserve and one review, the whole night at most its budget and one call's reviews; every spec of the order ran sound unless such a raise came on a strandable plan; DRAINED means the order is resolved with nothing left in flight or unpackaged; a night that was not interrupted ends with its layers reviewed and its findings conserved; its ledger is what its calls cost less what slipped past it, and all of it exactly when nothing did |
| Night.NightFilesAll | saffron/batch.py:930-1028 | nothing of a whole night slips exactly when no call that raised had paid anything and no write raised under a session that cost something |
| Night.ResumeStackBatch | saffron/batch.py:541-566 | a resumed tail keeps the same bound, adds what it cost less what slipped, keeps a reason other than DRAINED, extends the closed night's one chain, and reviews the chain it was given |
| Night.PlanAndRun | saffron/scheduler.py:1411-1438 | planner and driver composed: whatever candidates were kept, unless a question after the stack base raised on a plan strandable beforehand, every order spec ran only with each dependency on the default branch, on the stack base or its chain, or already a layer; and the night's money, reviews and findings are kept |
| EndReview.ReviewJoins | saffron/end_review.py:584-668 | the join runs only over two layers and a reserve that covers it, files its row, and is counted as at most the reserve: nothing when it raised, its cost otherwise |
| EndReview.ReviewStack | saffron/end_review.py:479-545 | every layer's rows are filed, those past the reach of the reserve as not reached, and a raise leaves exactly the rows of a prefix of that walk |
| EndReview.ReachIsExact | saffron/end_review.py:497-520 | the layers reached are a prefix from the top, each covered when it started and the next one not; there is exactly one such prefix, and the walk finds it |
| EndReview.CountedWithin | saffron/end_review.py:505-545 | what the join and the layers reached are counted as, however far the walk came, is at most the reserve |
| EndReview.PaidSplits | saffron/end_review.py:447-476 | what they cost is what they are counted as and what reviews that raised had paid, which is counted as nothing |
| EndReview.SlipWithin | saffron/end_review.py:447-476 | reviews that raised slipped at most what two lenses may cost for each of them |
| EndReview.AllRecordedIff | saffron/end_review.py:447-545 | nothing is lost or slips exactly when no review asked for raised with anything paid and the write the walk stopped on had no session under it that cost anything |
| EndReview.StopIsOne | saffron/end_review.py:479-545 | where a walk ends is one place, decided by which of the ledger's writes raise |
| EndReview.RowsCost | saffron/end_review.py:479-545 | what the rows record is what is counted less what the stop loses: the join's own session, or what the layer in hand had cost and not filed |
| EndReview.OntoCount | saffron/end_review.py:505-545 | a walk files each end lens of each layer once, at the layer's own place |
| EndReview.WalkRecordsOnce | saffron/end_review.py:683-749 | whatever of a walk was recorded holds a layer's lens at most once, and exactly once when it finished |
| EndReview.FileErrors | saffron/cli.py:872-913 | completing a raised walk costs nothing, doubles no row, and leaves every lens of every layer filed unless a write raised |
| EndReview.RunEndReview | saffron/end_review.py:683-749 | the rows gain what the sessions cost less exactly what the walk's stop loses and what reviews that raised had paid, and all of it exactly when neither is anything; what is counted is at most the reserve, and what was paid past it at most what slipped; and every layer ends with exactly one row per end lens, also after a mid-walk raise, unless filing the errors itself failed |
| EndReview.LosesALayer | saffron/end_review.py:479-545 | a review whose first write raises records nothing of what the layer's two sessions cost |
| EndReview.PaysPastReserve | saffron/end_review.py:447-545 | when every layer's review raises, a reserve that covers one has a cell opened for all of them: what they cost is the sum over all layers, and none of it is recorded |
| EndReview.PaysTenOfFour | saffron/end_review.py:447-545 | ten layers whose second session raises: ten dollars spent on a reserve of four, none recorded, and no write raised |
| EndReview.LosesThreeDollars | saffron/end_review.py:479-545 | one such review: three dollars spent, none recorded |
| Qualify.Decided | saffron/qualify.py:205-219 | a finding qualifies exactly when it is anchored, on a line nothing moved, and proved by a surviving probe or, without one, no note and not of the adequacy lens; it is killed exactly when its probe was |
| Qualify.PlacedIsSorted | saffron/qualify.py:263-268 | each decision goes to its own (task, file) group in order, to the pool, or nowhere when killed |
| Qualify.PlacedAddsUp | saffron/qualify.py:260-268 | groups, pool and killed together hold every decided finding with its multiplicity |
| Qualify.QualifyRanges | saffron/qualify.py:235-357 | the walk over the ranges sorts every finding of every range, and comes to nothing exactly when some range raises |
| Qualify.QualifyStack | saffron/qualify.py:235-357 | the same over the join's range and the layers that can be read |
| Qualify.GroupedIffQualified | saffron/qualify.py:260-268 | a decided finding sits in its key's group exactly when it qualified, and nothing pooled is qualified or killed |
| FollowUp.FollowUpWriter.SendBack | saffron/follow_up.py:291-318 | a draft is sent back at most once, only while a session still fits the cap, and the second try's cost fits what is left |
| FollowUp.FollowUpWriter.Assess | saffron/follow_up.py:400-451 | the verdict is a function of the reply, what it parses to and the judge's answer, in that order; a draft that parses, names its origin and its paths and is accepted passes; a rate limit or a judge that raises, and nothing else, halts every later group |
| FollowUp.FollowUpWriter.Accept | saffron/follow_up.py:453-477 | it raises exactly when the mint asked for raised, and loses that session's cost exactly then; otherwise the text is charged, attached and filed as its own task's latest text |
| FollowUp.FollowUpWriter.Session | saffron/follow_up.py:389-477 | one reply ends its group or asks for one more; one that passes is minted at once and its group ends accepted unless that mint raised |
| FollowUp.FollowUpWriter.Draft | saffron/follow_up.py:389-477 | one group is written at most twice and ends accepted, pooled, or stopped by a raise; a first draft that passes takes one session and raises exactly when its mint does |
| FollowUp.FollowUpWriter.WriteGroup | saffron/follow_up.py:324-477 | a halted walk or a spent cap pools the group whole without a call; otherwise findings whose probe no longer matches are pooled apart and the rest drafted |
| FollowUp.FollowUpWriter.WriteFollowUps | saffron/follow_up.py:231-479 | without a raise every group's findings are all settled; with one the walk stopped at a known group with a known part unsettled; at most two calls a group, what is counted within the cap, every session that came back counted, and one lost exactly when the walk stopped on a mint |
| FollowUp.FollowUpWriter.AddBack | saffron/cli.py:1779-1800 | after a raise, whatever was left unsettled, and only that, is pooled with the raise as its reason |
| FollowUp.FollowUpWriter.StackFollowUps | saffron/cli.py:1646-1802 | findings are conserved: accepted texts and pool together hold exactly the grouped findings, whether or not anything raised; the ledger gains what the sessions cost less what the last mint lost and what sessions that raised had paid, and all of it exactly when neither is anything; what is counted is within the cap; candidates are all the accepted texts, or none after a raise |
| FollowUp.FollowUpWriter.LostIsKnown | saffron/follow_up.py:453-460 | whether a session was lost to a mint, and what it cost, can be read off the answer to the last mint asked for |
| FollowUp.LosesASession | saffron/follow_up.py:453-460 | for any group whose first draft passes, a mint that raises leaves its whole session uncharged |
| FollowUp.SlipIsNone | saffron/follow_up.py:389-393 | nothing slips of a stretch of sessions exactly when none of them raised with anything paid |
| FollowUp.PaysPastCap | saffron/follow_up.py:389-393 | when every session raises, a cap that covers one has every group written for, and none of what they cost is charged |
| FollowUp.PaysThirty | saffron/follow_up.py:389-393 | two such sessions: thirty dollars spent under a cap of eighteen and a half, none charged, and no mint raised |
| FollowUp.LosesFourDollars | saffron/follow_up.py:453-460 | one such walk: four dollars spent, none charged |
| FollowUp.StepSettles | saffron/follow_up.py:324-477 | one group's step settles each of its findings exactly once |
| FollowUp.StepLeaves | saffron/follow_up.py:324-477 | a step that raises settles all of its findings but the part it was working on |
| FollowUp.LeftoverIsRest | saffron/cli.py:1783-1799 | what the handler finds nowhere pooled and not accepted is exactly the raising group's unsettled part and everything past it |
| Admission.SharesAgree | saffron/cli.py:2069-2083 | the shares at a budget of one and at any other agree: what they leave is the divisor's part of the budget |
| Admission.CeilCents | saffron/cli.py:2086-2090 | a printed threshold is less than a cent above its amount and at most 1e-11 below it |
| Admission.NeverBelowIff | saffron/cli.py:2086-2090 | it sits below its amount exactly when the amount passes a whole cent by no more than the tolerance |
| Admission.OneSitsBelow | saffron/cli.py:2086-2090 | some amount does, against the documented promise |
| Admission.CentsAreExact | saffron/cli.py:2093-2125 | on budgets given in cents no threshold is rounded |
| Admission.ThresholdsRise | saffron/cli.py:2111-2125 | thresholds never fall along the order, exact or rounded, and the total dominates them all |
| Admission.PassesIsPriceable | saffron/batch.py:271-280 | the comparison the thresholds are about is the driver's own |
| Admission.ThresholdAdmits | saffron/cli.py:2093-2104 | when every earlier spec kept to its budget and one review with no revision, any budget at or above the exact threshold passes the driver's comparison |
| Admission.ThresholdIsLeast | saffron/cli.py:2093-2104 | when every earlier spec spent all of that, the comparison passes exactly from the threshold on |
| Admission.TotalKeepsShares | saffron/cli.py:2102-2125 | after the whole order a budget at or above the total still holds both shares whole |
| Admission.PrintStackAdmission | saffron/cli.py:2093-2125 | one line a candidate with its own threshold, rising and dominated by the total, and nothing for an empty queue |
| Tables.SetDataOf | saffron/ledger.py:848-866 | updating one row by its id changes that row of that owner and no other |
| Tables.CountIsPlace | saffron/ledger.py:2146-2163 | the rank counted for a row among its owner's rows by id is that row's place, so looking a place up inverts counting it |
| Ledger.AttemptForIsFirst | saffron/ledger.py:773-781 | the attempt a fact names is its task's first of that phase and number |
| Ledger.ApplyRefines | saffron/ledger.py:812-1113 | applying any fact to the tables moves its own task's view by the one step the fact means, refuses exactly when that step does, and leaves every other task's view alone |
| Ledger.DropForgets | saffron/ledger.py:701-731 | dropping a key leaves no row of its task, not its attempts' gate results either, and every other task untouched |
| Ledger.FoldReplays | saffron/ledger.py:693-699 | folding a key's facts gives exactly their replay from nothing, whatever the tables held, other tasks untouched, and a refused fact undoes it whole |
| Ledger.FoldIsIdempotent | saffron/ledger.py:693-699 | folding twice is folding once |
| Writes.StepKeepsOrder | saffron/ledger.py:842-866 | every write keeps attempts unique by phase and number and numbered entries counted |
| Writes.FirstIsIt | saffron/ledger.py:773-781 | so naming an attempt by phase and number names that attempt |
| Writes.NextIsFree | saffron/ledger.py:1574-1600 | the next number of a phase is taken by no attempt |
| Writes.WriteIsFaithful | saffron/ledger.py:686-691 | a write applied and then appended leaves every task's rows equal to the replay of its own record |
| Writes.LiveLedger.CommitAndAppend | saffron/ledger.py:686-691 | a fact is refused with nothing changed, or is applied and appended both, and rows stay the replay of the record |
| Writes.LiveLedger.OpenAttempt | saffron/ledger.py:1574-1600 | a new attempt takes the next free number of its phase, the task's state naming the phase when none is given |
| Writes.LiveLedger.CloseAttempt | saffron/ledger.py:1602-1630 | closing an attempt by its id closes that attempt and no other, though the fact names only phase and number |
| Writes.LiveLedger.RecordGateResult | saffron/ledger.py:2173-2239 | a gate result lands on the attempt it names with only the failures its baseline does not cancel, the passed one or else the run's own, and an earned risk on the same |
| Baseline.SubtractBaseline | saffron/gates/baseline.py:44-64 | the counting loop finds the failures, in order, of whose kind the head had shown as many before as the base can cancel |
| Baseline.SurvivorsAddUp | saffron/gates/baseline.py:44-64 | of each identity as many survive as the head has beyond what the base can cancel: one failure there cancels one here |
| Baseline.MovedSurvives | saffron/gates/contract.py:114-125 | failures that only moved to other lines survive exactly as they did before |
| Baseline.NothingNew | saffron/gates/baseline.py:24-41 | a head that fails as its base did has nothing new but surviving mutants |
| Writes.LiveLedger.RecordRebuttal | saffron/ledger.py:2146-2163 | a rebuttal lands on the finding it was given, though the fact names only its position |
| Writes.LiveLedger.RecordFindings | saffron/ledger.py:2118-2144 | a review's findings take the next positions in the order given, each with its own id |
| Writes.LiveLedger.CreateTask | saffron/ledger.py:1494-1545 | a task is minted under a key no task holds, and is refused under one that does |
| Writes.LiveLedger.SetTaskState | saffron/ledger.py:1565-1572 | the state changes and the spend becomes the sum over the task's own closed attempts |
| Writes.LiveLedger.RecordPush | saffron/ledger.py:1652-1658 | `pushed_in_state` is the state the row held before the write |
| Writes.LiveLedger.AdoptPullRequest | saffron/ledger.py:1738-1765 | the pull request is adopted in the row's own state with its spend rolled up |
| Writes.LiveLedger.RecordStackLayer | saffron/ledger.py:1767-1807 | a layer carries its predecessor's key and pushed sha as they stand, and one task holds one layer of a batch |
| Writes.LiveLedger.RecordEndReview | saffron/ledger.py:2068-2086 | one lens's outcome is filed under the layer's own task, refused exactly for no task or a lens recorded twice |
| Spending.RowsAreSpend | saffron/ledger.py:1402-1439 | what the driver's ledger reads as the batch's spend and as left of the writer's share is what the attempt and end-review rows of its attached tasks add up to |
| Spending.JoinIs | saffron/ledger.py:1402-1426 | the join of end reviews with layers counts each end review of the batch's own layers once, since a task is a layer once |
| Spending.Mint | saffron/ledger.py:1494-1545 | a task minted keeps the rows and the driver's ledger equal |
| Spending.ChargeSession | saffron/follow_up.py:277-288 | a session opened and closed as an attempt is one charge more in both |
| Spending.SetState | saffron/ledger.py:1565-1572 | a new state changes what neither has spent |
| Spending.AddLayer | saffron/ledger.py:1767-1807 | a layer of the batch changes what neither has spent |
| Spending.FileReview | saffron/ledger.py:2068-2086 | an end review of a layer of the batch is one row more in both |
| Writes.LiveLedger.RecordSpecText | saffron/ledger.py:1984-2039 | a text takes the next number, for the task's own spec id, a known origin and a path that fits both, and is refused with nothing changed otherwise |
| Writes.FitsIffNamed | saffron/ledger.py:1984-2039 | a path fits exactly when it is the prefix of its origin, the spec id in it but for a revision, with a slug and `.md` after it |
| Writes.LiveLedger.FoldTask | saffron/ledger.py:693-699 | folding a task's own record changes no task's view: replay reproduces what live writing made |
| Text.SplitLinesJoin | saffron/agents/findings.py:137-164 | a text of whole lines splits back into them, carriage returns aside |
| Text.DecimalReads | saffron/agents/findings.py:137-164 | a printed number reads back, whatever other than a digit follows it |
| DiffFacts.HeaderReads | saffron/agents/findings.py:137-164 | a hunk header with any counts and heading reads back to its declared start and counts |
| DiffFacts.ConsumeHunk | saffron/agents/findings.py:167-192 | the indexed walk of a hunk body stops where its declared counts end and collects the changed lines' words |
| DiffFacts.ConsumeBody | saffron/agents/findings.py:167-192 | counting stops exactly where a printed body does, even where its lines look like `+++ `, `@@` or a no-newline mark |
| DiffFacts.ParseInvertsPrint | saffron/agents/findings.py:137-192 | parsing a printed diff of any well-formed items, names with spaces and the tab printed after them included, gives exactly the facts those items say |
| DiffFacts.FactsMean | saffron/agents/findings.py:137-192 | a line is recorded under a path exactly when a hunk of that file covers it, and a word exactly when a changed or renamed line has it |
| Redact.FilledReads | saffron/events.py:467-487 | once every container made is filled, each reads back as its value redacted at every depth |
| Redact.NotedIsFirstSeen | saffron/events.py:445-460 | what is noted of descriptions met in turn is each of them once, at the place it was first met, in that order |
| Redact.FoundIsHeld | saffron/events.py:445-487 | what a walk meets and notes is exactly the descriptions the value holds at any depth, each once |
| Redact.RedactLeaf | saffron/events.py:455-460 | a leaf is redacted and its new descriptions noted behind those found, in the order they came |
| Redact.Turn | saffron/events.py:469-486 | one turn of the explicit stack fills one container, stacks its fresh children, and shrinks what is left of the input |
| Redact.RedactNested | saffron/events.py:445-487 | the walk ends with the recursive redaction of every string leaf and dictionary key, in containers none of which existed before, with the descriptions noted in the order the stack's walk first meets them |
| EventLog.SplitIsParts | saffron/events.py:672-691 | the only way to cut a log at its newlines into parts without one is its complete lines and the unfinished one |
| EventLog.ReadLogIsLinesAndPartial | saffron/events.py:672-691 | a whole read of a log so split is the events of its complete lines, and of the unfinished one if that parses |
| EventLog.ReadChunk | saffron/events.py:712-727 | the complete lines of a chunk are parsed, and what is consumed ends just past its last newline |
| EventLog.ReadLogSince | saffron/events.py:694-727 | the events appended since the offset and the place just past the last newline; a missing file, or one shorter than the offset, leaves the offset |
| EventLog.PollCatches | saffron/events.py:694-727 | after one more poll of a log that grew, every complete line has been read once and none beyond |
| EventLog.PollAll | saffron/events.py:694-727 | for any growth and any moments of looking, the polls together return the whole read of the complete lines, none lost, none twice |
| EventLog.SinceNewestTask | saffron/watch.py:118-134 | the scan returns the suffix from the last boundary, or everything without one |
| EventLog.SinceNewestIsNewest | saffron/watch.py:118-134 | the suffix starts at a boundary and holds no other |
| EventLog.Follow | saffron/watch.py:172-223 | a follower shows every event of the complete lines in order, only its first look cut at the newest task |
| Vocabulary.TokensOfRender | hooks/retired_vocabulary.py:45-100 | a text is its tokens: marks and whitespace runs rendered and read again are the same |
| Vocabulary.NormalKeepsMeaning | hooks/retired_vocabulary.py:45-100 | normalising keeps every other character in order and every run of two or more newlines unchanged, and leaves no single-newline run |
| Vocabulary.NormalIsIdempotent | hooks/retired_vocabulary.py:45-100 | normalising twice is normalising once |
| Vocabulary.NormalKeepsLines | hooks/retired_vocabulary.py:45-100 | each kept character carries the line it stood on |
| Vocabulary.Normalize | hooks/retired_vocabulary.py:45-100 | the one-pass loop computes the normal form and its line map, of equal length |
| Vocabulary.FindHits | hooks/retired_vocabulary.py:103-111 | every match is reported at the original line its first character stood on, and nothing else is |
| Citations.ConstructSpan | saffron/spec_citations.py:229-246 | the range found runs from the opener to the last line that belongs to its construct, and no line before that ends it |
| Citations.ConstructIsUnique | saffron/spec_citations.py:229-234 | a line opens one construct: no other range fits the documented rule |
| Citations.SoleHolder | saffron/spec_citations.py:432-446 | a name is returned exactly when its span is inside every other holder's and shorter than each, and there is never a second such name |
| Citations.CiteReads | saffron/spec_citations.py:221-222 | a citation printed with a range reads back as that path and range |
| Citations.Lands | saffron/spec_citations.py:519-525 | each edit's text stands in the replaced text at its own shifted place, with the text kept on either side of it |
| Citations.ContentReads | saffron/spec_citations.py:221-222 | a citation standing in a text, its range printed anew, reads as its own path and that range |
| Citations.HeldConstructHolds | saffron/spec_citations.py:266-304 | the one construct a name holds is no construct defect over the same names |
| Citations.MovedReads | saffron/spec_citations.py:490-526 | in the rewritten text every moved citation, read at its new place, gives its path and the range it was moved to, and checked over the same names it is no construct defect |
| Citations.SpliceFromRight | saffron/spec_citations.py:519-525 | splicing disjoint ranges from the right is replacing them all at once, every other character kept |
| Citations.InOrderApart | saffron/spec_citations.py:519-525 | ranges that do not overlap are, once sorted, the same ranges one after another |
| Citations.RewriteMovedCitations | saffron/spec_citations.py:490-526 | every defect is moved or left in the order given; the text is the simultaneous replacement of the moved ranges, and the rewrites name each old and new range in text order |
| Citations.LeftIffStays | saffron/spec_citations.py:493-500 | a defect is left exactly when nothing moves it |
| Citations.SentencesTile | saffron/spec_citations.py:128-136 | sentence spans tile the paragraph |
| Citations.OneSentence | saffron/spec_citations.py:128-136 | every place of it lies in exactly one sentence |

## Left out

- `run_batch`, the driver's use without a stack: the same `_drive` with fewer closures and no waits.
- `emit`, `set_task_state` and `record_spec_review` while driving, and the wording of reasons: they decide nothing the driver branches on later.
- `finish`, `stack_finish` and the naming of unrun follow-ups: `saffron finish` refuses a second finishing layer itself (saffron/cli.py:2558-2562).
- Run rows and `_run_for`: runs are collapsed by their base on purpose, so a task's run is no part of what replay reproduces. The driver's model has one run a task.
- The driver's ledger and the rows behind it are kept equal write by write (`Spending`); a run's attachment is the driver's own set of tasks, since runs are not rows of the model.
- Writing the record to disk (`_append` and `push_record`) and a raise from it after the commit; SQL, the schema and its migrations.
- `record_spec_review`, `record_qualification`, `record_policy`, `record_engine`, `record_merged_head`, `record_regate` and `set_task_package` as live methods: the facts they write are among those `Ledger.ApplyRefines` covers.
- Writes.LiveLedger.FoldTask: the replay it is compared with is of facts under one key, as every caller passes them; a record holding another task's facts is not modelled.
- Batch.StackBatch.WaitOut: a night without a deadline is ended by its operator within `patience` sleeps, because the code alone never ends one whose account stays limited.
- Baseline.SubtractBaseline: `normalize_message` is a given function of the message, and `suite_drift` is not modelled.
- Stranded.StrandedNight: it says that some answers strand a spec of a strandable plan, not which do on each night.
- Writes.LiveLedger.RecordGateResult: a result that names a run and no attempt is no task fact and is not modelled; a run's stored baseline is given.
- Spending.FileReview: it takes an end review under a layer of the batch, as both walks over `_BATCH_LAYERS` file it (saffron/end_review.py:106-112).
- EndReview.RunEndReview: the count of rows, and where the walk stopped, assume layers of distinct tasks that no earlier end review filed.
- Citations.RewriteMovedCitations: it takes ranges that do not overlap, as the citations of one text give; the extraction of citations from sentences and clauses by pattern is not modelled.
- Citations.SentencesTile: the places sentences break at are given, in order; the pattern that finds them is not modelled.
- DiffFacts.ParseInvertsPrint: paths that git prints in quotes, with a control character, a quote or a backslash in them, are not modelled.
- Redact.RedactNested: the input is an immutable value, so that the walk never changes it holds by construction.
- EventLog.ReadLogSince: what a line parses to (`_parse_line`, `_shape_ok`) is a given function of its bytes.
- `EventLog.append` with its size bound and `_bounded_usage`: straight-line truncation.
- Vocabulary.FindHits: what the vocabulary pattern matches is a given function of the normalised text; matches start on a character that is not whitespace.
- Removals.RemovedNameRefusals: the whole-word pattern is a given relation.
- `_refuse`, `open_pr_refusal`, retired markers, criterion paths and discovery: chains of independent checks over text and git.
- `_is_anchored` over the facts of `parse_diff`: one lookup and one intersection.
- `next_spec_id`, `_slug`, prompts and pull request bodies: text templating.
- Cells, containers, gates, `gh`, git and the network: they answer as callables.
