/** What a night of saffron/batch.py is given and works with: the answers of
    everything it calls, what its started specs come to, and the values the
    driver's closures share. */
module Plans {
  import opened Wrappers
  import opened Graph
  import opened Scheduler
  import opened StackProgress
  import opened SpendBook
  import opened Lists

  const BREAKER_THRESHOLD := 2
  const MAX_REVISE_ROUNDS := 3
  // The longest wait the account's reset time is believed for, and the wait
  // taken when no reset time can be read, both in seconds.
  const LONGEST_WAIT := 21600
  const UNREADABLE_WAIT := 3600

  // One call reviews a spec at most once more than it revises it.
  const REVIEWS_PER_CALL_USD := 32.0

  function ReviewsUsd(n: nat): (usd: real)
    ensures usd >= 0.0
    ensures n <= MAX_REVISE_ROUNDS ==> usd <= REVIEWS_PER_CALL_USD - SPEC_REVIEW_SESSION_USD
  {
    n as real * 8.0
  }

  datatype TaskState =
    | DRAFT | QUEUED | DIAGNOSING | IMPLEMENTING | GATING | REPAIRING | REVIEWING | REBUTTING
    | SCOPE_REVIEW | PLAN_REJECTED | EXHAUSTED | READY_FOR_REVIEW | MERGE_FAILED | PREFLIGHT_FAILED
    | NOT_IMPLEMENTED | GATE_ERROR | RATE_LIMITED | PROVIDER_UNREACHABLE | SPEC_WITHHELD
    | SPEC_DRAFTED | REBUTTAL_UNJUDGED | REVIEW_INCOMPLETE | APPROVED | CHANGES_REQUESTED
    | REJECTED | MERGED | ORPHANED | MERGE_TRAIN

  // The run itself is broken, rather than the task's outcome.
  predicate Aborts(s: TaskState) {
    s in {GATE_ERROR, PREFLIGHT_FAILED, RATE_LIMITED, PROVIDER_UNREACHABLE}
  }

  predicate OfferedAgain(s: TaskState) {
    s in {PROVIDER_UNREACHABLE, PREFLIGHT_FAILED}
  }

  predicate InFlight(s: TaskState) {
    s in {DRAFT, QUEUED, DIAGNOSING, IMPLEMENTING, GATING, REPAIRING, REVIEWING, REBUTTING}
  }

  datatype StopReason = DRAINED | BUDGET | UNTIL | INFRASTRUCTURE | INCOMPLETE

  // ---------------------------------------------------------------------------
  // What the driver's callables answer

  datatype Alive = StillThere | Gone | AliveRaised(runtimeError: bool)
  datatype Mint = Minted | MintRaised(runtimeError: bool, minted: bool)
  datatype Cite = Cited(left: nat, moved: Option<string>) | CiteRaised(runtimeError: bool)
  datatype Route = RouteRun | RouteEscalate | RouteRevise | RouteWait | RouteError
  datatype Review =
    | Reviewed(route: Route, blocker: bool, resetsAt: Option<int>, text: string, cost: real)
    | ReviewRaised(runtimeError: bool, paid: real)
  datatype Revise =
    | Wrote(text: string, resetsAt: Option<int>, failed: bool, cost: real)
    | ReviseRaised(runtimeError: bool, paid: real)
  // A cell's own attempts are charged as its turns end. `open` is what a turn that
  // raised past its handler had cost: its attempt is left open.
  datatype Cell =
    | CellOutcome(state: TaskState, resetsAt: Option<int>, cost: real, open: real)
    | CellRefused
    | CellRaised(runtimeError: bool, packaged: bool, minted: bool, cost: real, open: real)

  // The n-th call of anything is answered by its function at n, and by the spec
  // it is made for where the answer is about one. `elapse` is what passes between
  // two reads of the clock, and `interrupt` says whether the operator ends the
  // night during a sleep.
  datatype World = World(
    elapse: nat -> real,
    interrupt: nat -> bool,
    alive: (nat, Candidate) -> Alive,
    mint: nat -> Mint,
    cite: nat -> Cite,
    review: nat -> Review,
    revise: nat -> Revise,
    openPr: nat -> bool,
    cell: (nat, Candidate) -> Cell
  )

  ghost predicate TicksAt(w: World, n: nat) {
    w.elapse(n) >= 0.0
  }

  ghost predicate Ticks(w: World) {
    forall n :: TicksAt(w, n)
  }

  function ReviewPaid(answer: Review): real {
    if answer.Reviewed? then answer.cost else answer.paid
  }

  function RevisePaid(answer: Revise): real {
    if answer.Wrote? then answer.cost else answer.paid
  }

  ghost predicate PricedAt(w: World, n: nat) {
    && 0.0 <= ReviewPaid(w.review(n)) <= SPEC_REVIEW_SESSION_USD
    && 0.0 <= RevisePaid(w.revise(n)) <= SPEC_WRITER_SESSION_USD
  }

  ghost predicate CellPricedAt(w: World, n: nat, c: Candidate) {
    !w.cell(n, c).CellRefused? ==> 0.0 <= w.cell(n, c).cost <= c.budget && 0.0 <= w.cell(n, c).open
  }

  // Each session costs at most its own ceiling, whether it came back or raised, and
  // the turns of a cell that ended its spec's budget.
  ghost predicate Priced(w: World) {
    (forall n :: PricedAt(w, n)) && forall n, c :: CellPricedAt(w, n, c)
  }

  // Whether specs are reviewed before they run, their citations checked, and a
  // revision written when a review asks for one.
  datatype Reviewing = NoReview | Review(cites: bool, revises: bool)

  // What one call of the wrapped runner comes to.
  datatype RunResult =
    | Came(state: TaskState, task: nat, resetsAt: Option<int>)
    | Refused
    | MustWait(resetsAt: Option<int>)
    | Threw(runtimeError: bool, packaged: bool)

  // What the runner's answer on a spec is taken as, `task` being the one it ran.
  function ResultOf(answer: Cell, task: nat): RunResult
    requires !answer.CellRefused?
  {
    match answer
    case CellOutcome(state, resetsAt, _, _) => Came(state, task, resetsAt)
    case CellRaised(runtimeError, packaged, _, _, _) => Threw(runtimeError, packaged)
  }

  predicate IsLayer(r: RunResult) {
    r.Came? && r.state == READY_FOR_REVIEW
  }

  // A result that leaves the spec queued, to be offered again.
  predicate Requeues(r: RunResult) {
    || r.MustWait?
    || (r.Came? && (r.state == RATE_LIMITED || OfferedAgain(r.state)))
    || (r.Threw? && r.runtimeError && !r.packaged)
  }

  // A result that names the account's own limit: its window is waited out.
  predicate MayWait(r: RunResult) {
    r.MustWait? || (r.Came? && r.state == RATE_LIMITED)
  }

  // What a call did to its spec's place in `remaining`: nothing, taken out as a
  // miss, or taken out to become a layer.
  datatype Fate = Stays | Missed | Layered

  // One call of the runner, and what was recorded when it was made.
  datatype CellCall = CellCall(
    candidate: Candidate,
    predecessor: Option<Candidate>,
    layers: seq<LayerRow>,
    generation: nat,
    cleared: bool,
    baseAlive: bool
  )

  // ---------------------------------------------------------------------------
  // What was paid for, charged or not

  // One call that may have cost something. A cell's attempts are `filed` when there
  // was a task to file them under.
  datatype Bill = ReviewBill(n: nat) | ReviseBill(n: nat) | CellBill(n: nat, c: Candidate, filed: bool)

  // All a call cost, what of it was charged, and what slipped past the ledger.
  datatype Part = Paid | Counted | Slipped

  function PartOf(w: World, b: Bill, part: Part): real {
    match b
    case ReviewBill(n) => PartIf(ReviewPaid(w.review(n)), w.review(n).Reviewed?, part)
    case ReviseBill(n) => PartIf(RevisePaid(w.revise(n)), w.revise(n).Wrote?, part)
    case CellBill(n, c, filed) =>
      if w.cell(n, c).CellRefused? then 0.0
      else PartIf(w.cell(n, c).cost, filed, part) + PartIf(w.cell(n, c).open, false, part)
  }

  function PartIf(usd: real, charged: bool, part: Part): real {
    match part
    case Paid => usd
    case Counted => if charged then usd else 0.0
    case Slipped => if charged then 0.0 else usd
  }

  function PartsTo(w: World, bills: seq<Bill>, n: nat, part: Part): real
    requires n <= |bills|
  {
    if n == 0 then 0.0 else PartsTo(w, bills, n - 1, part) + PartOf(w, bills[n - 1], part)
  }

  function Parts(w: World, bills: seq<Bill>, part: Part): real {
    PartsTo(w, bills, |bills|, part)
  }

  lemma {:induction false} PartsBefore(w: World, a: seq<Bill>, b: seq<Bill>, n: nat, part: Part)
    requires n <= |a|
    ensures PartsTo(w, a + b, n, part) == PartsTo(w, a, n, part)
  {
    if n > 0 {
      PartsBefore(w, a, b, n - 1, part);
    }
  }

  lemma PartsNext(w: World, bills: seq<Bill>, b: Bill, part: Part)
    ensures Parts(w, bills + [b], part) == Parts(w, bills, part) + PartOf(w, b, part)
  {
    PartsBefore(w, bills, [b], |bills|, part);
  }

  /** What calls cost is what of them was charged and what slipped. */
  lemma {:induction false} PaidSplits(w: World, bills: seq<Bill>, n: nat)
    requires n <= |bills|
    ensures PartsTo(w, bills, n, Paid) == PartsTo(w, bills, n, Counted) + PartsTo(w, bills, n, Slipped)
  {
    if n > 0 {
      PaidSplits(w, bills, n - 1);
    }
  }

  // A call that raised had nothing paid, and a cell left no turn open and had a task
  // for what it cost.
  predicate FreeOfSlips(w: World, b: Bill) {
    match b
    case ReviewBill(n) => w.review(n).ReviewRaised? ==> w.review(n).paid == 0.0
    case ReviseBill(n) => w.revise(n).ReviseRaised? ==> w.revise(n).paid == 0.0
    case CellBill(n, c, filed) =>
      w.cell(n, c).CellRefused? || (w.cell(n, c).open == 0.0 && (filed || w.cell(n, c).cost == 0.0))
  }

  /** Nothing slips exactly when every call is free of slips. */
  lemma {:induction false} SlippedIsNone(w: World, bills: seq<Bill>, n: nat)
    requires Priced(w) && n <= |bills|
    ensures 0.0 <= PartsTo(w, bills, n, Slipped)
    ensures PartsTo(w, bills, n, Slipped) == 0.0 <==> forall i :: 0 <= i < n ==> FreeOfSlips(w, bills[i])
  {
    if n > 0 {
      SlippedIsNone(w, bills, n - 1);
      SlipOf(w, bills[n - 1]);
    }
  }

  lemma SlipOf(w: World, b: Bill)
    requires Priced(w)
    ensures 0.0 <= PartOf(w, b, Slipped) && (PartOf(w, b, Slipped) == 0.0 <==> FreeOfSlips(w, b))
  {
    assert PricedAt(w, b.n);
    if b.CellBill? {
      assert CellPricedAt(w, b.n, b.c);
    }
  }

  function Without(cs: seq<Candidate>, c: Candidate): (r: seq<Candidate>) {
    if cs == [] then [] else if cs[0] == c then cs[1..] else [cs[0]] + Without(cs[1..], c)
  }

  lemma {:induction false} WithoutAt(cs: seq<Candidate>, i: nat)
    requires i < |cs| && forall j :: 0 <= j < i ==> cs[j] != cs[i]
    ensures Without(cs, cs[i]) == cs[..i] + cs[i + 1..]
  {
    if i > 0 {
      assert cs[1..][i - 1] == cs[i];
      forall j | 0 <= j < i - 1 ensures cs[1..][j] != cs[1..][i - 1] { assert cs[j + 1] != cs[i]; }
      WithoutAt(cs[1..], i - 1);
      assert cs[1..][..i - 1] == cs[1..i] && cs[1..][i..] == cs[i + 1..];
      assert cs[..i] == [cs[0]] + cs[1..i];
    }
  }

  function SpecIds(rows: seq<LayerRow>): set<SpecId> {
    set row | row in rows :: row.specId
  }

  // One chain: consecutive positions, each layer's predecessor the layer below
  // it, and the lowest one's the stack base's task or none.
  ghost predicate Chained(rows: seq<LayerRow>, baseTask: Option<nat>) {
    ChainedTo(rows, |rows|, baseTask)
  }

  ghost predicate ChainedTo(rows: seq<LayerRow>, n: nat, baseTask: Option<nat>)
    requires n <= |rows|
  {
    n == 0 ||
    (ChainedTo(rows, n - 1, baseTask) && rows[n - 1].position == n
     && rows[n - 1].predecessorTask == if n == 1 then baseTask else Some(rows[n - 2].task))
  }

  function TopTask(rows: seq<LayerRow>, baseTask: Option<nat>): Option<nat> {
    if rows == [] then baseTask else Some(rows[|rows| - 1].task)
  }

  // The predecessor is the spec of the newest layer, or none before any.
  predicate IsTop(predecessor: Option<Candidate>, rows: seq<LayerRow>) {
    if rows == [] then predecessor.None? else predecessor.Some? && predecessor.value.id == rows[|rows| - 1].specId
  }

  lemma ChainedAppend(rows: seq<LayerRow>, baseTask: Option<nat>, row: LayerRow)
    requires Chained(rows, baseTask)
    requires row.position == |rows| + 1 && row.predecessorTask == TopTask(rows, baseTask)
    ensures Chained(rows + [row], baseTask)
    ensures SpecIds(rows + [row]) == SpecIds(rows) + {row.specId}
  {
    ChainedBefore(rows, [row], |rows|, baseTask);
    assert row in rows + [row];
  }

  lemma {:induction false} ChainedBefore(a: seq<LayerRow>, b: seq<LayerRow>, n: nat, baseTask: Option<nat>)
    requires n <= |a| && ChainedTo(a, n, baseTask)
    ensures ChainedTo(a + b, n, baseTask)
  {
    if n > 0 {
      ChainedBefore(a, b, n - 1, baseTask);
    }
  }

  /** The k-th layer sits at position k, on the layer below it. */
  lemma ChainedAt(rows: seq<LayerRow>, baseTask: Option<nat>, k: nat)
    requires Chained(rows, baseTask) && k < |rows|
    ensures rows[k].position == k + 1
    ensures rows[k].predecessorTask == if k == 0 then baseTask else Some(rows[k - 1].task)
  {
    ChainedToAt(rows, |rows|, baseTask, k);
  }

  lemma {:induction false} ChainedToAt(rows: seq<LayerRow>, n: nat, baseTask: Option<nat>, k: nat)
    requires n <= |rows| && ChainedTo(rows, n, baseTask) && k < n
    ensures rows[k].position == k + 1
    ensures rows[k].predecessorTask == if k == 0 then baseTask else Some(rows[k - 1].task)
  {
    if k < n - 1 {
      ChainedToAt(rows, n - 1, baseTask, k);
    }
  }

  function CountUnstarted(cs: seq<Candidate>, started: set<SpecId>): nat {
    if cs == [] then 0 else (if cs[0].id in started then 0 else 1) + CountUnstarted(cs[1..], started)
  }

  lemma {:induction false} StartingCounts(cs: seq<Candidate>, started: set<SpecId>, id: SpecId)
    ensures CountUnstarted(cs, started + {id}) <= CountUnstarted(cs, started)
    ensures id !in started && (exists c :: c in cs && c.id == id) ==>
      CountUnstarted(cs, started + {id}) < CountUnstarted(cs, started)
  {
    if cs != [] {
      StartingCounts(cs[1..], started, id);
      assert forall c :: c in cs ==> c == cs[0] || c in cs[1..];
    }
  }

  // The first candidate not started yet.
  method FirstUnstarted(pending: seq<Candidate>, started: set<SpecId>) returns (at: Option<nat>)
    ensures at.None? ==> forall i :: 0 <= i < |pending| ==> pending[i].id in started
    ensures at.Some? ==> at.value < |pending| && pending[at.value].id !in started
    ensures at.Some? ==> forall i :: 0 <= i < at.value ==> pending[i].id in started
  {
    for i := 0 to |pending|
      invariant forall j :: 0 <= j < i ==> pending[j].id in started
    {
      if pending[i].id !in started {
        return Some(i);
      }
    }
    return None;
  }

  // How a round of review or revision ends: cleared to run, ended without a cell
  // and missed or not, or going on to a revision or from one to the next review.
  datatype RoundEnd =
    | Cleared
    | Ended(result: RunResult, miss: bool)
    | Revising(specText: Option<string>, reviewText: string)

  // A call that ended before the runner: a miss is never a wait, and what is no
  // miss is offered again.
  predicate EndsWell(end: RoundEnd) {
    end.Ended? ==> !end.result.Came? && (if end.miss then !end.result.MustWait? else Requeues(end.result))
  }

  // What a citation check stops a spec with, before any review: a raise, or a
  // citation left that moves onto no construct.
  function CiteStops(cited: Cite): Option<RoundEnd> {
    match cited
    case CiteRaised(runtimeError) => Some(Ended(Threw(runtimeError, false), true))
    case Cited(left, _) => if left > 0 then Some(Ended(Refused, true)) else None
  }

  // How long a limit met at `at` is waited out: to its reset time, or an hour
  // when that time is missing, past, or more than six hours off.
  function Pause(resetsAt: Option<int>, at: real): (pause: real)
    ensures 0.0 < pause <= LONGEST_WAIT as real
    ensures if resetsAt.Some? && at < resetsAt.value as real <= at + LONGEST_WAIT as real
      then at + pause == resetsAt.value as real else pause == 3600.0
  {
    var readable := resetsAt.Some? && at < resetsAt.value as real <= at + LONGEST_WAIT as real;
    if readable then resetsAt.value as real - at else UNREADABLE_WAIT as real
  }

  datatype WaitEnd = Reopened | PastDeadline | WaitInterrupted

  datatype DriveStop = Stopped(reason: StopReason) | Interrupted

  // ---------------------------------------------------------------------------
  // What a night is given, and the state its closures share

  // What is asked of a night: an order the planner made, budgets above nothing, a
  // clock that never runs back and sessions within their ceilings, and an operator
  // who ends a night without a deadline sooner or later.
  datatype PlanLaw = Ordering | Funding | Answering | Patience

  datatype Plan = Plan(
    world: World,
    reviewing: Reviewing,
    asksAlive: bool,
    refusesOpenPrs: bool,
    order: seq<Candidate>,
    budget: real,
    reserve: real,
    writer: real,
    until: Option<real>,
    // What the order was planned against, and how many sleeps the operator sits
    // through on a night with no deadline.
    onDefault: set<SpecId>,
    patience: nat
  ) {
    function StackBaseOf(): Option<StackBase> {
      if order == [] then None else order[0].stackBase
    }

    function BaseTask(): Option<nat> {
      if StackBaseOf().Some? then Some(StackBaseOf().value.task) else None
    }

    function Satisfied(): set<SpecId> {
      onDefault + Carried(order)
    }

    ghost predicate Keeps(law: PlanLaw) {
      match law
      case Ordering => Planned(order, onDefault)
      case Funding => forall i :: 0 <= i < |order| ==> order[i].budget > 0.0
      case Answering => Ticks(world) && Priced(world)
      case Patience => until.None? ==> forall n :: n >= patience ==> world.interrupt(n)
    }

    ghost predicate Ok() {
      forall law :: Keeps(law)
    }

    // The order is cut from a stack base, and its branch is asked after.
    predicate Asks() {
      asksAlive && StackBaseOf().Some?
    }

    // What the order's own pass may spend, and the most one spec of it may cost:
    // both shares are held back from the first spec on.
    function Purse(): real { budget - reserve }

    function Funds(): real { Purse() - Max(0.0, writer) }

    // Some question after the stack base's branch raises, and not for the
    // runtime's own failure: an unreachable remote, say.
    ghost predicate BaseRaises() {
      Asks() && exists n, c :: world.alive(n, c) == AliveRaised(false)
    }

    // What a caller can tell beforehand of such a raise: that it may leave some
    // spec of the order to run without its parent.
    ghost predicate Strandable(start: real) {
      && Asks() && (until.Some? ==> start < until.value)
      && exists p, j :: Stranding(order, Satisfied(), Funds(), p, j)
    }
  }

  // How often each callable was asked, and the time.
  datatype Tape = Tape(calls: nat, sleeps: nat, now: real) {
    function Called(): Tape { this.(calls := calls + 1) }
  }

  // The order's specs not resolved yet, and the misses each refused one reaches.
  datatype Queue = Queue(remaining: seq<Candidate>, missed: map<SpecId, set<SpecId>>)

  // The newest layer, as the runner and the next row are told of it.
  datatype Top = Top(predecessor: Option<Candidate>, predecessorTask: Option<nat>, position: nat)

  // What reviews have come to.
  datatype Desk = Desk(
    reviewed: set<SpecId>,
    followUpReviewed: set<SpecId>,
    taskIds: map<SpecId, nat>,
    rounds: map<SpecId, nat>,
    pendingRevision: map<SpecId, (Option<string>, string)>
  ) {
    function Rounds(id: SpecId): nat {
      if id in rounds then rounds[id] else 0
    }

    ghost predicate OkAt(attached: set<nat>, id: SpecId) {
      && (id in taskIds ==> taskIds[id] in attached)
      && Rounds(id) <= MAX_REVISE_ROUNDS
      && (id in pendingRevision ==> Rounds(id) < MAX_REVISE_ROUNDS)
    }

    ghost predicate Ok(attached: set<nat>) {
      forall id :: OkAt(attached, id)
    }

    // One more revision of a spec that waits for none.
    function Revised(id: SpecId, ghost attached: set<nat>): (d: Desk)
      requires Ok(attached) && Rounds(id) < MAX_REVISE_ROUNDS && id !in pendingRevision
      ensures d.Ok(attached)
      ensures d.Rounds(id) == Rounds(id) + 1 && d == this.(rounds := d.rounds)
    {
      var d := this.(rounds := rounds[id := Rounds(id) + 1]);
      assert d.Ok(attached) by { forall x ensures d.OkAt(attached, x) { assert OkAt(attached, x); } }
      d
    }

    // A revision met the account's limit: its pair is kept for the retry.
    function Waiting(id: SpecId, pair: (Option<string>, string), ghost attached: set<nat>): (d: Desk)
      requires Ok(attached) && Rounds(id) < MAX_REVISE_ROUNDS
      ensures d.Ok(attached)
      ensures d == this.(pendingRevision := pendingRevision[id := pair])
    {
      var d := this.(pendingRevision := pendingRevision[id := pair]);
      assert d.Ok(attached) by { forall x ensures d.OkAt(attached, x) { assert OkAt(attached, x); } }
      d
    }
  }

  // Specs left mid-phase, and specs whose PACKAGE call raised, in order.
  datatype Leftovers = Leftovers(inFlight: seq<(SpecId, TaskState)>, packageRaised: seq<SpecId>)

  // The recorded layers are one chain and the closures know its top.
  ghost predicate ChainOk(baseTask: Option<nat>, top: Top, layers: seq<LayerRow>) {
    && Chained(layers, baseTask)
    && top.position == |layers|
    && top.predecessorTask == TopTask(layers, baseTask)
  }

  // What every call of the runner satisfies: it was handed the newest layer,
  // after its review and with the stack base's branch found alive where it was
  // asked after, and a spec of the order stood on what it depends on, unless a
  // raise had left one to be stranded.
  ghost predicate CallOk(plan: Plan, begun: real, call: CellCall) {
    && IsTop(call.predecessor, call.layers) && call.cleared && call.baseAlive
    && (call.generation == 0 ==>
      || Sound(call.candidate, plan.Satisfied(), SpecIds(call.layers))
      || (plan.BaseRaises() && plan.Strandable(begun)))
  }

  ghost predicate CallAt(plan: Plan, begun: real, cells: seq<CellCall>, call: CellCall) {
    call in cells ==> CallOk(plan, begun, call)
  }

  ghost predicate CallsOk(plan: Plan, begun: real, cells: seq<CellCall>) {
    forall call :: CallAt(plan, begun, cells, call)
  }

  lemma CallsAppend(plan: Plan, begun: real, cells: seq<CellCall>, call: CellCall)
    requires CallsOk(plan, begun, cells) && CallOk(plan, begun, call)
    ensures CallsOk(plan, begun, cells + [call])
  {
    forall any ensures CallAt(plan, begun, cells + [call], any) { assert CallAt(plan, begun, cells, any); }
  }

  /** Dependency soundness over a whole pass: unless a question after the stack
      base raised on a night a caller could tell for strandable, every spec of the
      order that ran had each of its dependencies on the default branch, on the
      stack base or its chain, or recorded as a layer of this batch. */
  lemma EveryCallIsSound(plan: Plan, begun: real, cells: seq<CellCall>, call: CellCall)
    requires CallsOk(plan, begun, cells) && call in cells && call.generation == 0
    requires !plan.BaseRaises() || !plan.Strandable(begun)
    ensures Sound(call.candidate, plan.Satisfied(), SpecIds(call.layers)) && IsTop(call.predecessor, call.layers)
  {
    assert CallAt(plan, begun, cells, call);
  }

  // Every follow-up was given a budget above nothing.
  ghost predicate FundedAt(cs: seq<Candidate>, c: Candidate) {
    c in cs ==> c.budget > 0.0
  }

  ghost predicate Funded(cs: seq<Candidate>) {
    forall c :: FundedAt(cs, c)
  }

  // What `remaining` and `missed` hold during the order's own pass.
  ghost predicate Shape(plan: Plan, queue: Queue, progress: Progress) {
    && Consistent(plan.order, progress) && Tracked(plan.order, plan.Funds(), progress)
    && DistinctIds(progress.skipped)
    && queue == Queue(Unresolved(plan.order, progress), progress.missed)
  }

  // The head of what is unresolved depends on no miss.
  ghost predicate Unblocked(queue: Queue) {
    queue.remaining != [] ==> Blocking(queue.remaining[0].dependsOn, queue.missed) == {}
  }

  // The next spec of the order.
  ghost predicate IsNext(plan: Plan, progress: Progress, c: Candidate) {
    progress.done < |plan.order| && c == plan.order[progress.done]
  }

  // It is offered with the head of `remaining` unblocked, a budget the order can
  // pay, and the night not over when it began.
  ghost predicate Offered(plan: Plan, begun: real, queue: Queue, progress: Progress, c: Candidate) {
    && Shape(plan, queue, progress) && IsNext(plan, progress, c) && Unblocked(queue)
    && c.budget <= plan.Funds() && (plan.until.Some? ==> begun < plan.until.value)
  }

  // A spec can still be paid for out of `most`.
  ghost predicate Affordable(book: Book, c: Candidate, most: real) {
    book.Total() + c.budget <= most
  }

  // The same with what is left of the writer's share counted as spent.
  ghost predicate WithinShare(book: Book, c: Candidate, share: real, most: real) {
    book.Total() + Max(0.0, share - book.Written()) + c.budget <= most
  }

  // What the driver's own comparison establishes before it starts a spec, with
  // `purse` the budget less what is held back.
  ghost predicate Priceable(book: Book, c: Candidate, purse: real, share: real) {
    && c.budget > 0.0
    && Affordable(book, c, purse)
    && WithinShare(book, c, share, purse)
  }

  // What review and revision may have added before the cell runs.
  ghost predicate Reviewable(book: Book, c: Candidate, purse: real, share: real) {
    && Affordable(book, c, purse + SPEC_REVIEW_SESSION_USD)
    && WithinShare(book, c, share, purse + REVIEWS_PER_CALL_USD)
  }

  // The ledger between two moments of one call: rows only added, layers and end
  // reviews untouched.
  ghost predicate Grew(before: Book, after: Book) {
    && before.tasks <= after.tasks && before.attached <= after.attached
    && before.layers == after.layers && before.endReviews == after.endReviews
  }

  // Nothing was charged between the two.
  ghost predicate SameMoney(before: Book, after: Book) {
    after.Total() == before.Total() && after.Written() == before.Written()
  }

  // What was charged, writing or not, is above nothing.
  ghost predicate MoneyGrew(before: Book, after: Book) {
    after.Total() - before.Total() >= after.Written() - before.Written() >= 0.0
  }

  // Where a result leaves a spec's place in `remaining`.
  function FateOf(generation: nat, r: RunResult): Fate {
    if Requeues(r) then Stays else if IsLayer(r) then Layered else if generation == 0 then Missed else Stays
  }

  // The queue once a spec's call has been settled.
  function After(generation: nat, queue: Queue, c: Candidate, fate: Fate): Queue {
    if generation != 0 || fate == Stays then queue
    else if fate == Layered then queue.(remaining := Without(queue.remaining, c))
    else Queue(Without(queue.remaining, c), queue.missed[c.id := {c.id}])
  }

  // What a pass may have spent out of `purse`, at its end and at its height.
  ghost predicate Spent(book: Book, peak: real, peakBefore: real, purse: real, share: real) {
    && book.Total() <= purse + SPEC_REVIEW_SESSION_USD
    && book.Total() + Max(0.0, share - book.Written()) <= purse + REVIEWS_PER_CALL_USD
    && book.Total() <= peak && peakBefore <= peak <= Max(peakBefore, purse + SPEC_REVIEW_SESSION_USD)
  }

  // Where a started spec leaves the order: refused for good, missed or layered,
  // skipped, or to be offered again.
  function Advanced(p: Progress, c: Candidate, fate: Fate, again: bool): Progress {
    match fate
    case Missed => AsMissed(p, c)
    case Layered => AsLayered(p, c)
    case Stays => if again then p else AsSkipped(p, c)
  }

  // The breaker's count after a result: raises and abort states add to it,
  // refusals and waits leave it, and any other state clears it.
  function AbortsAfter(r: RunResult, aborts: nat): nat {
    if MayWait(r) || r.Refused? then aborts
    else if r.Threw? || Aborts(r.state) then aborts + 1 else 0
  }

  ghost predicate LaterSecond(plan: Plan, before: Tape, after: Tape) {
    after.now.Floor > before.now.Floor && (plan.until.None? ==> before.sleeps < after.sleeps <= plan.patience)
  }

  // Whole seconds to the deadline, or sleeps left before the operator ends a
  // night that has none.
  ghost function SecondsLeft(plan: Plan, tape: Tape): nat {
    var left := if plan.until.Some? then plan.until.value.Floor + 1 - tape.now.Floor else plan.patience - tape.sleeps;
    if left < 0 then 0 else left
  }

  function Headroom(aborts: nat): nat {
    if aborts < BREAKER_THRESHOLD then BREAKER_THRESHOLD - aborts else 0
  }

  // The driver's measure: specs unresolved, aborts the breaker still bears, then
  // seconds to the deadline.
  ghost predicate Lower(left: nat, aborts: nat, seconds: nat, leftBefore: nat, abortsBefore: nat, secondsBefore: nat) {
    || left < leftBefore
    || (left == leftBefore && Headroom(aborts) < Headroom(abortsBefore))
    || (left == leftBefore && Headroom(aborts) == Headroom(abortsBefore) && seconds < secondsBefore)
  }

  // A pass spent within its purse, or nothing beyond what it began with.
  ghost predicate InPurse(book: Book, peak: real, before: Book, peakBefore: real, purse: real, share: real) {
    && book.Total() <= Max(before.Total(), purse + SPEC_REVIEW_SESSION_USD)
    && book.Total() + Max(0.0, share - book.Written())
      <= Max(before.Total() + Max(0.0, share - before.Written()), purse + REVIEWS_PER_CALL_USD)
    && book.Total() <= peak <= Max(peakBefore, purse + SPEC_REVIEW_SESSION_USD)
  }

  ghost predicate AttachedButAt(book: Book, r: RunResult, highWater: nat, c: Charge) {
    c in book.charges ==> c.task in book.attached || (r.Came? && c.task == r.task) || (r.Threw? && c.task > highWater)
  }

  // Every task charged is attached, or is what this result is about to attach.
  ghost predicate CompleteBut(book: Book, r: RunResult, highWater: nat) {
    forall c :: AttachedButAt(book, r, highWater, c)
  }

  // What was spent on writing is part of what was spent.
  ghost predicate Solvent(book: Book) {
    0.0 <= book.Written() <= book.Total()
  }

  // A pass adds layers above those it began with, and files no end review.
  predicate Extends(before: Book, after: Book) {
    before.layers <= after.layers && before.endReviews == after.endReviews
  }

  // Rows only added, and all of what was charged attached.
  ghost predicate Filed(before: Book, after: Book) {
    && after.Valid() && after.Complete() && before.attached <= after.attached && before.layers == after.layers
    && (Solvent(before) ==> Solvent(after))
  }

  // Reviewing, or taking up a revision that waited, leaves the desk in order.
  lemma StaysOk(d: Desk, d': Desk, id: SpecId, before: set<nat>, after: set<nat>)
    requires d.Ok(before) && before <= after && d'.taskIds == d.taskIds && d'.rounds == d.rounds
    requires d'.pendingRevision == d.pendingRevision || d'.pendingRevision == d.pendingRevision - {id}
    ensures d'.Ok(after)
    ensures id in d.pendingRevision && d'.pendingRevision == d.pendingRevision - {id} ==>
      d'.Rounds(id) < MAX_REVISE_ROUNDS && id !in d'.pendingRevision
  {
    assert d.OkAt(before, id);
    forall x ensures d'.OkAt(after, x) { assert d.OkAt(before, x); }
  }

  // A review adds at most one session to what was spent.
  lemma AfterReview(before: Book, after: Book, c: Candidate, purse: real, share: real, spare: real)
    requires Affordable(before, c, purse) && WithinShare(before, c, share, purse + spare)
    requires after.Total() <= before.Total() + SPEC_REVIEW_SESSION_USD && after.Written() == before.Written()
    ensures Affordable(after, c, purse + SPEC_REVIEW_SESSION_USD)
    ensures WithinShare(after, c, share, purse + spare + SPEC_REVIEW_SESSION_USD)
  {
  }

  // A revision draws on the writer's share, and past it only what it leaves
  // affordable.
  lemma AfterRevision(before: Book, after: Book, c: Candidate, purse: real, share: real, most: real)
    requires WithinShare(before, c, share, most) && purse <= most
    requires after.Total() - before.Total() == after.Written() - before.Written() >= 0.0
    requires after.Total() != before.Total() ==> Affordable(after, c, purse)
    ensures WithinShare(after, c, share, most)
  {
  }

  // The cell's own cost on top of what review and revision left.
  lemma SpendsWithin(prepared: Book, peak: real, after: Book, peak': real, peakBefore: real, c: Candidate, purse: real,
                     share: real)
    requires Reviewable(prepared, c, purse, share) && c.budget >= 0.0 && prepared.Total() <= peak
    requires peakBefore <= peak <= Max(peakBefore, purse + SPEC_REVIEW_SESSION_USD)
    requires prepared.Total() <= after.Total() <= prepared.Total() + c.budget && after.Written() == prepared.Written()
    requires peak' == Max(peak, after.Total())
    ensures Spent(after, peak', peakBefore, purse, share)
  {
  }

  lemma StillSpent(spent: Book, after: Book, peak: real, peakBefore: real, purse: real, share: real)
    requires Spent(spent, peak, peakBefore, purse, share) && SameMoney(spent, after)
    ensures Spent(after, peak, peakBefore, purse, share)
  {
  }

  // A result that brings no task of its own attaches nothing more.
  lemma AllButNone(book: Book, r: RunResult, highWater: nat)
    requires book.Complete()
    ensures CompleteBut(book, r, highWater)
  {
    forall c ensures AttachedButAt(book, r, highWater, c) { assert book.AttachedAt(c); }
  }

  // The same, counted from an earlier high-water mark.
  lemma ButFrom(book: Book, r: RunResult, highWater: nat, lower: nat)
    requires CompleteBut(book, r, highWater) && lower <= highWater
    ensures CompleteBut(book, r, lower)
  {
    forall c ensures AttachedButAt(book, r, lower, c) { assert AttachedButAt(book, r, highWater, c); }
  }

  // One charge to a task the result brings, or to one attached already.
  lemma AllButOne(book: Book, r: RunResult, highWater: nat, charge: Charge)
    requires book.Valid() && CompleteBut(book, r, highWater) && charge.task <= book.tasks
    requires charge.task in book.attached || (r.Came? && charge.task == r.task) || (r.Threw? && charge.task > highWater)
    ensures CompleteBut(book.AddCharge(charge.task, charge.phase, charge.cost), r, highWater)
  {
    var after := book.AddCharge(charge.task, charge.phase, charge.cost);
    forall c ensures AttachedButAt(after, r, highWater, c) { assert AttachedButAt(book, r, highWater, c); }
  }

  // What may be priced at all fits in what the order may spend.
  lemma PriceableIsFunded(plan: Plan, book: Book, c: Candidate)
    requires Priceable(book, c, plan.Purse(), plan.writer) && Solvent(book)
    ensures c.budget <= plan.Funds()
  {
  }

  // An offered spec may stand on what is recorded, or a caller could tell.
  lemma OfferedIsSound(plan: Plan, begun: real, queue: Queue, p: Progress, c: Candidate)
    requires plan.Ok() && Offered(plan, begun, queue, p, c) && (p.everSkipped ==> plan.BaseRaises())
    ensures Sound(c, plan.Satisfied(), p.layered) || (plan.BaseRaises() && plan.Strandable(begun))
  {
    assert plan.Keeps(Ordering);
    SoundOrStranding(plan.order, plan.Satisfied(), plan.Funds(), p);
  }

  lemma FreshIsShaped(plan: Plan)
    ensures Shape(plan, Queue(plan.order, map[]), FRESH)
  {
    FreshIsConsistent(plan.order);
    FreshIsTracked(plan.order, plan.Funds());
    assert [] + plan.order[0..] == plan.order;
  }

  // Where the order's next spec sits in what is unresolved.
  lemma NextIsUnskipped(order: seq<Candidate>, p: Progress)
    requires p.done < |order| && DistinctIds(p.skipped) && order[p.done].id !in Ids(p.skipped)
    ensures Without(Unresolved(order, p), order[p.done]) == p.skipped + order[p.done + 1..]
    ensures DistinctIds(p.skipped + [order[p.done]])
    ensures Ids(p.skipped + [order[p.done]]) == Ids(p.skipped) + {order[p.done].id}
    ensures Unresolved(order, p) == p.skipped + [order[p.done]] + order[p.done + 1..]
  {
    var all, at := Unresolved(order, p), |p.skipped|;
    IdsAppend(p.skipped, order[p.done]);
    assert (p.skipped + [order[p.done]])[..at] == p.skipped;
    forall j | 0 <= j < at ensures all[j] != all[at] { IdsHolds(p.skipped, j); }
    WithoutAt(all, at);
  }

  lemma NextIsOut(order: seq<Candidate>, p: Progress)
    requires DistinctIds(order) && Consistent(order, p) && p.done < |order|
    ensures order[p.done].id !in Ids(p.skipped)
  {
    NextIsNew(order, p.done);
    assert PlacedAt(order, p, order[p.done].id);
  }

  lemma NextStaysConsistent(order: seq<Candidate>, p: Progress, fate: Fate, again: bool)
    requires DistinctIds(order) && Consistent(order, p) && p.done < |order|
    requires p.skipped == [] ==> Blocking(order[p.done].dependsOn, p.missed) == {}
    ensures Consistent(order, Advanced(p, order[p.done], fate, again))
  {
    var q;
    match fate {
      case Missed => q := MissStep(order, p);
      case Layered => q := LayerStep(order, p);
      case Stays => if !again { q := SkipStep(order, p); }
    }
  }

  lemma NextStaysTracked(order: seq<Candidate>, funds: real, p: Progress, fate: Fate, again: bool)
    requires Consistent(order, p) && Tracked(order, funds, p) && p.done < |order| && PaidAt(order, funds, p.done)
    requires p.skipped == [] ==> Blocking(order[p.done].dependsOn, p.missed) == {}
    requires fate == Stays && !again ==> p.layered == {}
    ensures Tracked(order, funds, Advanced(p, order[p.done], fate, again))
  {
    if fate != Stays || !again {
      if fate == Stays && p.skipped == [] {
        UnblockedIsRoot(order, p);
      }
      TrackedNext(order, funds, p, Advanced(p, order[p.done], fate, again));
    }
  }

  // The queue of what is unresolved moves along.
  lemma QueueMoves(order: seq<Candidate>, p: Progress, fate: Fate, again: bool)
    requires p.done < |order| && DistinctIds(p.skipped) && order[p.done].id !in Ids(p.skipped)
    ensures var c := order[p.done]; var q := Advanced(p, c, fate, again);
      && After(0, Queue(Unresolved(order, p), p.missed), c, fate) == Queue(Unresolved(order, q), q.missed)
      && DistinctIds(q.skipped)
  {
    NextIsUnskipped(order, p);
  }

  /** How far the order is once a call on its next spec has been settled. A spec
      that stays queued without being offered again is skipped, which happens
      before any layer only. */
  lemma Advance(plan: Plan, begun: real, before: Queue, p: Progress, c: Candidate, fate: Fate, again: bool)
    returns (q: Progress)
    requires plan.Ok() && Offered(plan, begun, before, p, c)
    requires fate == Stays && !again ==> p.layered == {}
    ensures q == Advanced(p, c, fate, again)
    ensures Shape(plan, After(0, before, c, fate), q)
  {
    assert plan.Keeps(Ordering);
    HeadIsNext(plan.order, p);
    NextIsOut(plan.order, p);
    NextStaysConsistent(plan.order, p, fate, again);
    NextStaysTracked(plan.order, plan.Funds(), p, fate, again);
    QueueMoves(plan.order, p, fate, again);
    q := Advanced(p, c, fate, again);
  }

  lemma HeadIsNext(order: seq<Candidate>, p: Progress)
    requires p.done < |order|
    ensures p.skipped == [] ==> Unresolved(order, p)[0] == order[p.done]
  {
  }

  // Nothing of the order starts out of turn: the first candidate not started is
  // the order's next spec, and with none the whole order is resolved.
  lemma FirstIsNext(plan: Plan, queue: Queue, p: Progress, started: set<SpecId>, at: Option<nat>)
    requires Shape(plan, queue, p)
    requires Ids(p.skipped) <= started && Ids(plan.order[p.done..]) !! started
    requires at.None? ==> forall i :: 0 <= i < |queue.remaining| ==> queue.remaining[i].id in started
    requires at.Some? ==> at.value < |queue.remaining| && queue.remaining[at.value].id !in started
    requires at.Some? ==> forall i :: 0 <= i < at.value ==> queue.remaining[i].id in started
    ensures at.None? ==> p.done == |plan.order|
    ensures at.Some? ==> IsNext(plan, p, queue.remaining[at.value])
  {
    var rest, n := plan.order[p.done..], |p.skipped|;
    assert queue.remaining == p.skipped + rest;
    forall i | 0 <= i < n ensures queue.remaining[i].id in started { IdsHolds(p.skipped, i); }
    if rest != [] {
      IdsHolds(rest, 0);
      assert queue.remaining[n] == rest[0];
    }
  }

  // What a spec of the order that was started leaves behind.
  ghost predicate Moved(before: Progress, after: Progress, c: Candidate, again: bool) {
    && (after == before || after.done == before.done + 1)
    && (!again ==> after.done == before.done + 1)
    && Ids(after.skipped) <= Ids(before.skipped) + (if again then {} else {c.id})
  }

  lemma AdvancedMoved(p: Progress, c: Candidate, fate: Fate, again: bool)
    ensures Moved(p, Advanced(p, c, fate, again), c, again)
  {
    IdsAppend(p.skipped, c);
  }

  // One started spec and the rescan keep the started set apart from the rest of
  // the order, and holding what was skipped.
  lemma StartedStaysApart(order: seq<Candidate>, before: Progress, taken: Progress, after: Progress,
                          started: set<SpecId>, again: bool)
    requires DistinctIds(order) && before.done < |order| && after.done <= |order|
    requires Ids(before.skipped) <= started && Ids(order[before.done..]) !! started
    requires Moved(before, taken, order[before.done], again) && OnlyRefused(order, taken, after)
    ensures var started' := if again then started else started + {order[before.done].id};
      Ids(after.skipped) <= started' && Ids(order[after.done..]) !! started'
  {
    SuffixIds(order, before.done, after.done);
    if !again {
      SuffixIds(order, before.done + 1, after.done);
      SuffixHead(order, before.done);
    }
  }

  lemma SuffixHead(order: seq<Candidate>, i: nat)
    requires DistinctIds(order) && i < |order|
    ensures order[i].id !in Ids(order[i + 1..])
  {
    Split(order, i);
    DistinctConcat(order[..i], order[i..]);
    IdsTail(order[i..]);
    assert order[i..][1..] == order[i + 1..];
  }

  lemma SuffixIds(order: seq<Candidate>, i: nat, j: nat)
    requires i <= j <= |order|
    ensures Ids(order[j..]) <= Ids(order[i..])
  {
    assert order[i..] == order[i..j] + order[j..];
    IdsConcat(order[i..j], order[j..]);
  }

  // The wait after a result: none unless it names the account's limit, and then
  // a later second unless the pass ends in it.
  ghost predicate WaitedAfter(plan: Plan, before: Tape, after: Tape, r: RunResult, stop: Option<DriveStop>) {
    if !MayWait(r) then after.now == before.now && after.sleeps == before.sleeps && stop.None?
    else stop.None? ==> LaterSecond(plan, before, after)
  }

  // An offer repeated without moving the order cost an abort or a later second.
  lemma BurnedIsLower(plan: Plan, before: Tape, after: Tape, abortsBefore: nat, aborts: nat, r: RunResult)
    requires Requeues(r) && aborts == AbortsAfter(r, abortsBefore) && WaitedAfter(plan, before, after, r, None)
    requires abortsBefore < BREAKER_THRESHOLD && (plan.until.Some? ==> before.now < plan.until.value)
    ensures forall left: nat ::
      Lower(left, aborts, SecondsLeft(plan, after), left, abortsBefore, SecondsLeft(plan, before))
  {
  }

  // A turn that goes on lowers the measure, whether its spec is offered again or
  // resolved.
  lemma TurnIsLower(plan: Plan, before: Tape, after: Tape, abortsBefore: nat, aborts: nat, r: RunResult,
                    stop: Option<DriveStop>,
                    leftBefore: nat, left: nat)
    requires aborts == AbortsAfter(r, abortsBefore) && WaitedAfter(plan, before, after, r, stop)
    requires abortsBefore < BREAKER_THRESHOLD && (plan.until.Some? ==> before.now < plan.until.value)
    requires stop.None? ==> if Requeues(r) then left <= leftBefore else left < leftBefore
    ensures stop.None? ==>
      Lower(left, aborts, SecondsLeft(plan, after), leftBefore, abortsBefore, SecondsLeft(plan, before))
  {
    if stop.None? && Requeues(r) {
      BurnedIsLower(plan, before, after, abortsBefore, aborts, r);
    }
  }

  lemma StartsInPurse(book: Book, peak: real, purse: real, share: real)
    requires book.Total() <= peak
    ensures InPurse(book, peak, book, peak, purse, share)
  {
  }

  lemma StaysInPurse(first: Book, firstPeak: real, before: Book, peakBefore: real, after: Book, peak: real, purse: real,
                     share: real)
    requires InPurse(before, peakBefore, first, firstPeak, purse, share)
    requires (after == before && peak == peakBefore) || Spent(after, peak, peakBefore, purse, share)
    ensures InPurse(after, peak, first, firstPeak, purse, share)
  {
  }

  // ---------------------------------------------------------------------------
  // What one started spec came to, for the laws over a whole pass

  // What a started spec finds and leaves: the time, the money, the revisions that
  // wait, the stack base's branch, and how far the order is.
  datatype Moment = Moment(
    now: real, sleeps: nat, total: real, written: real, waiting: map<SpecId, (Option<string>, string)>, gone: bool,
    layers: seq<LayerRow>, progress: Progress
  )

  datatype Step = Step(c: Candidate, r: RunResult, fate: Fate, aborts: nat, before: Moment, after: Moment,
                       call: Option<CellCall>)

  // Nothing was spent, put off or found gone.
  ghost predicate Idle(m: Moment) {
    m.total == 0.0 && m.written == 0.0 && m.waiting == map[] && !m.gone
  }

  ghost predicate CalmAt(w: World, n: nat, c: Candidate) {
    && w.elapse(n) == 0.0 && w.mint(n) == Minted && w.cite(n) == Cited(0, None)
    && w.review(n) == Reviewed(RouteRun, false, None, "", 0.0) && !w.openPr(n)
    && w.alive(n, c) == w.alive(0, c) && w.alive(n, c) in {StillThere, AliveRaised(false)}
    && w.cell(n, c) == w.cell(0, c) && w.cell(n, c) in {CellRefused, CellOutcome(READY_FOR_REVIEW, None, 0.0, 0.0)}
  }

  // A night on which only the stack base's branch and the cells answer one way or
  // another, each the same whenever it is asked for one spec.
  ghost predicate Calm(w: World) {
    forall n, c :: CalmAt(w, n, c)
  }

  // The branch is asked after for the next spec.
  ghost predicate BaseAsked(plan: Plan, m: Moment) {
    plan.Asks() && m.layers == []
  }

  // What a started spec comes to on such a night.
  ghost predicate CalmOutcome(plan: Plan, before: Moment, after: Moment, c: Candidate, r: RunResult, fate: Fate,
                              call: Option<CellCall>)
  {
    && Idle(after) && after.now == before.now && after.sleeps == before.sleeps
    && if BaseAsked(plan, before) && plan.world.alive(0, c).AliveRaised? then
        r == Threw(false, false) && call.None? && fate == Stays
      else
        && call.Some? && call.value.candidate == c && call.value.layers == before.layers && call.value.generation == 0
        && if plan.world.cell(0, c).CellRefused? then r == Refused && fate == Missed else IsLayer(r) && fate == Layered
  }

  lemma CalmCame(plan: Plan, before: Moment, prepared: Moment, after: Moment, c: Candidate, end: RoundEnd, r: RunResult,
                 fate: Fate, call: Option<CellCall>)
    requires Idle(before) && prepared == before && after == before
    requires end == if BaseAsked(plan, before) && plan.world.alive(0, c).AliveRaised?
      then Ended(Threw(false, false), false) else Cleared
    requires end.Ended? ==> r == end.result && call.None? && fate == Stays
    requires end.Cleared? ==>
      && call.Some? && call.value.candidate == c && call.value.layers == before.layers && call.value.generation == 0
      && if plan.world.cell(0, c).CellRefused? then r == Refused && fate == Missed else IsLayer(r) && fate == Layered
    ensures CalmOutcome(plan, before, after, c, r, fate, call)
  {
  }

  // What is booked after it adds nothing to what it came to.
  lemma CalmKept(plan: Plan, before: Moment, called: Moment, after: Moment, c: Candidate, r: RunResult, fate: Fate,
                 call: Option<CellCall>)
    requires after == called.(layers := after.layers, progress := after.progress)
    ensures CalmOutcome(plan, before, called, c, r, fate, call) ==> CalmOutcome(plan, before, after, c, r, fate, call)
  {
  }

  // What holds of every started spec of the order: it is the next one, with the
  // head of what is unresolved unblocked, its fate moves the order and adds a
  // layer or none, and on a calm night with nothing
  // spent yet its fate is as above.
  datatype StepLaw = InTurn | ByItsFate | OnACalmNight

  ghost predicate ToldAs(plan: Plan, step: Step, law: StepLaw) {
    match law
    case InTurn =>
      var p := step.before.progress;
      && IsNext(plan, p, step.c) && Consistent(plan.order, p)
      && Unblocked(Queue(Unresolved(plan.order, p), p.missed))
    case ByItsFate =>
      && step.after.progress == Advanced(step.before.progress, step.c, step.fate, Requeues(step.r))
      && SpecIds(step.after.layers) == SpecIds(step.before.layers) + (if step.fate == Layered then {step.c.id} else {})
    case OnACalmNight =>
      Calm(plan.world) && Idle(step.before) ==>
        CalmOutcome(plan, step.before, step.after, step.c, step.r, step.fate, step.call)
  }

  ghost predicate Told(plan: Plan, step: Step) {
    forall law :: ToldAs(plan, step, law)
  }

  lemma ToldMoves(plan: Plan, step: Step)
    requires Told(plan, step)
    ensures IsNext(plan, step.before.progress, step.c)
    ensures Moved(step.before.progress, step.after.progress, step.c, Requeues(step.r))
  {
    assert ToldAs(plan, step, InTurn) && ToldAs(plan, step, ByItsFate);
    AdvancedMoved(step.before.progress, step.c, step.fate, Requeues(step.r));
  }

  // The scan after it refuses blocked specs at the head, and stops at one that is
  // not.
  ghost predicate Rescanned(order: seq<Candidate>, p: Progress, q: Progress) {
    && p.done <= |order| && q.done <= |order|
    && OnlyRefused(order, p, q)
    && (Unresolved(order, p) == [] || Blocking(Unresolved(order, p)[0].dependsOn, p.missed) == {} ==> q == p)
    && (Unresolved(order, q) != [] ==> Blocking(Unresolved(order, q)[0].dependsOn, q.missed) == {})
  }

  // The moment the `k`-th step finds, and the breaker's count; past the steps, what
  // they led to.
  function MomentAt(trace: seq<Step>, last: Moment, k: nat): Moment {
    if k < |trace| then trace[k].before else last
  }

  function AbortsAt(trace: seq<Step>, aborts: nat, k: nat): nat {
    if k < |trace| then trace[k].aborts else aborts
  }

  ghost predicate StepAt(plan: Plan, trace: seq<Step>, last: Moment, aborts: nat, k: nat) {
    k < |trace| ==>
      && AbortsAt(trace, aborts, k + 1) == AbortsAfter(trace[k].r, trace[k].aborts)
      && Linked(plan, trace[k], MomentAt(trace, last, k + 1))
  }

  // Only the clock was read between the two.
  ghost predicate Later(plan: Plan, m: Moment, m': Moment) {
    m' == m.(now := m'.now) && (Calm(plan.world) ==> m' == m)
  }

  // One started spec after another, from `first` to `last`.
  ghost predicate Traced(plan: Plan, first: Moment, abortsFirst: nat, trace: seq<Step>, last: Moment, aborts: nat) {
    && Later(plan, first, MomentAt(trace, last, 0)) && AbortsAt(trace, aborts, 0) == abortsFirst
    && forall k :: StepAt(plan, trace, last, aborts, k)
  }

  // A step and the scan after it.
  ghost predicate Linked(plan: Plan, step: Step, next: Moment) {
    && Told(plan, step)
    && next == step.after.(progress := next.progress, now := next.now, sleeps := next.sleeps)
    && (Calm(plan.world) && !MayWait(step.r) ==> next == step.after.(progress := next.progress))
    && Rescanned(plan.order, step.after.progress, next.progress)
  }

  // Every call of the steps was made.
  ghost predicate NotedAt(trace: seq<Step>, cells: seq<CellCall>, step: Step) {
    step in trace && step.call.Some? ==> step.call.value in cells
  }

  // A pass over the order: its steps, and the one it ended in if that was a wait.
  datatype Pass = Pass(first: Moment, trace: seq<Step>, last: Moment, aborts: nat, cut: Option<Step>)

  // The pass one turn on.
  function Onward(pass: Pass, before: Moment, after: Moment, aborts: nat, aborts': nat, stop: Option<DriveStop>,
                  step: Option<Step>): Pass
  {
    if step.None? then pass.(last := after, aborts := aborts')
    else if stop.Some? then pass.(last := before, aborts := aborts, cut := step)
    else pass.(trace := pass.trace + [step.value], last := after, aborts := aborts')
  }

  // The clock was read, and nothing else happened.
  lemma TracedLater(plan: Plan, first: Moment, abortsFirst: nat, trace: seq<Step>, m: Moment, m': Moment, aborts: nat)
    requires Traced(plan, first, abortsFirst, trace, m, aborts) && Later(plan, m, m')
    ensures Traced(plan, first, abortsFirst, trace, m', aborts)
  {
    forall k: nat ensures StepAt(plan, trace, m', aborts, k) {
      assert StepAt(plan, trace, m, aborts, k);
      if k + 1 == |trace| { LinkedLater(plan, trace[k], m, m'); }
    }
  }

  lemma LinkedLater(plan: Plan, step: Step, next: Moment, next': Moment)
    requires Linked(plan, step, next) && Later(plan, next, next')
    ensures Linked(plan, step, next')
  {
  }

  // One step more.
  lemma TracedNext(plan: Plan, first: Moment, abortsFirst: nat, trace: seq<Step>, step: Step, last: Moment, aborts: nat)
    requires Traced(plan, first, abortsFirst, trace, step.before, step.aborts)
    requires aborts == AbortsAfter(step.r, step.aborts) && Linked(plan, step, last)
    ensures Traced(plan, first, abortsFirst, trace + [step], last, aborts)
  {
    forall k: nat ensures StepAt(plan, trace + [step], last, aborts, k) {
      assert StepAt(plan, trace, step.before, step.aborts, k);
    }
  }

  lemma TracedOnward(plan: Plan, pass: Pass, abortsFirst: nat, before: Moment, after: Moment, aborts: nat, aborts': nat,
                     stop: Option<DriveStop>, step: Option<Step>)
    requires Traced(plan, pass.first, abortsFirst, pass.trace, before, aborts)
    requires step.None? ==> aborts' == aborts && Later(plan, before, after)
    requires step.Some? ==> step.value.aborts == aborts && aborts' == AbortsAfter(step.value.r, aborts)
    requires step.Some? ==> Later(plan, before, step.value.before)
    requires step.Some? && stop.None? ==> Linked(plan, step.value, after)
    ensures var next := Onward(pass, before, after, aborts, aborts', stop, step);
      Traced(plan, next.first, abortsFirst, next.trace, next.last, next.aborts)
  {
    if step.None? {
      TracedLater(plan, pass.first, abortsFirst, pass.trace, before, after, aborts);
    } else if stop.None? {
      TracedLater(plan, pass.first, abortsFirst, pass.trace, before, step.value.before, aborts);
      TracedNext(plan, pass.first, abortsFirst, pass.trace, step.value, after, aborts');
    }
  }

  lemma NotedOnward(pass: Pass, pass': Pass, cells: seq<CellCall>, cells': seq<CellCall>, step: Option<Step>)
    requires forall any :: NotedAt(pass.trace, cells, any)
    requires pass'.trace == pass.trace || (step.Some? && pass'.trace == pass.trace + [step.value])
    requires cells' == cells + (if step.Some? && step.value.call.Some? then [step.value.call.value] else [])
    ensures forall any :: NotedAt(pass'.trace, cells', any)
  {
    forall any ensures NotedAt(pass'.trace, cells', any) { assert NotedAt(pass.trace, cells, any); }
  }

  // What a calm night answers a review with.
  lemma CalmReview(w: World, c: Candidate, cited: nat, asked: Option<nat>)
    requires Calm(w)
    ensures CiteStops(w.cite(cited)).None? && !(exists n :: w.openPr(n))
    ensures asked.Some? ==> w.review(asked.value) == Reviewed(RouteRun, false, None, "", 0.0)
  {
    assert CalmAt(w, cited, c);
    forall n ensures !w.openPr(n) { assert CalmAt(w, n, c); }
    if asked.Some? { assert CalmAt(w, asked.value, c); }
  }
}
