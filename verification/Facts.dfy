/** The task facts of saffron/ledger.py, and what they say a task is: the same
    facts replayed from nothing, with no table and no surrogate id in sight. */
module Facts {
  import opened Wrappers

  type TaskKey = string

  datatype Closing = Closing(
    sessionId: Option<string>, model: Option<string>, subtype: string, terminalReason: Option<string>,
    numTurns: int, cost: real, costFloor: Option<real>
  )

  datatype Closed = Closed(at: string, closing: Closing)

  datatype Attempt = Attempt(phase: string, n: nat, startedAt: string, closed: Option<Closed>,
                             earnedRisk: Option<string>)

  datatype GateFailure = GateFailure(file: string, code: string, message: Option<string>, line: Option<int>)

  datatype Gate = Gate(gate: string, status: string, tool: Option<string>, durationMs: Option<int>,
                       summary: Option<string>,
                       failures: seq<GateFailure>, failuresAtHead: Option<nat>)

  datatype Finding = Finding(lens: string, severity: string, file: string, line: int, claim: string, anchored: bool,
                             verdict: Option<string>, rebuttal: Option<string>)

  // A row filed under a task's own key, in a table with its own primary key.
  datatype Entry =
    | StackLayer(batch: Option<string>, position: nat, specId: string, predecessorKey: Option<TaskKey>,
                 predecessorHead: Option<string>, generation: nat)
    | EndReview(lens: string, status: string, cost: real, error: Option<string>)
    | Qualification(position: nat, lens: string, severity: string, file: string, line: int, claim: string,
                    verdict: Option<string>, outcome: string, reason: string)
    | SpecReview(n: nat, route: string, block: Option<string>, blockSha: Option<string>, error: Option<string>)
    | SpecFinding(n: nat, position: nat, severity: string, fixes: string, claim: string)
    | SpecText(n: nat, origin: string, specId: string, path: string, text: string, sha: string)

  // What a primary key tells apart within one task.
  datatype Slot = LayerSlot | LensSlot(lens: string) | QualificationSlot(position: nat) | ReviewSlot(n: nat)
    | SpecFindingSlot(n: nat, position: nat) | TextSlot(n: nat)

  function SlotOf(e: Entry): Slot {
    match e
    case StackLayer(_, _, _, _, _, _) => LayerSlot
    case EndReview(lens, _, _, _) => LensSlot(lens)
    case Qualification(position, _, _, _, _, _, _, _, _) => QualificationSlot(position)
    case SpecReview(n, _, _, _, _) => ReviewSlot(n)
    case SpecFinding(n, position, _, _, _) => SpecFindingSlot(n, position)
    case SpecText(n, _, _, _, _, _) => TextSlot(n)
  }

  datatype Regate = Regate(headSha: string, baselineSha: string, newFailures: nat)

  datatype Task = Task(
    specId: string, specSha: string, state: string, risk: string, branch: Option<string>, budget: Option<real>,
    policySha: Option<string>, promptSha: Option<string>, engine: Option<string>, mergedHead: Option<string>,
    pushedSha: Option<string>, pushedInState: Option<string>, prUrl: Option<string>, added: Option<int>,
    removed: Option<int>,
    spent: real, updatedAt: string
  )

  datatype Payload =
    | TaskCreated(specId: string, specSha: string, branch: Option<string>, risk: Option<string>, budget: Option<real>,
                  policySha: Option<string>, promptSha: Option<string>)
    | AttemptOpened(phase: string, n: nat)
    | AttemptClosed(phase: string, n: nat, closing: Closing)
    | GateResult(phase: string, n: nat, gate: Gate, earnedRisk: Option<string>)
    | TaskState(state: string)
    | TaskPackage(state: string, branch: Option<string>, pushedSha: Option<string>, prUrl: Option<string>,
                  added: Option<int>, removed: Option<int>)
    | TaskPush(sha: string)
    | TaskMergedHead(head: string)
    | TaskPolicy(sha: string)
    | TaskEngine(engine: string)
    | FindingFact(position: nat, finding: Finding)
    | Rebuttal(position: nat, verdict: Option<string>, rebuttal: Option<string>)
    | Filed(entry: Entry)
    | TaskRegate(regate: Regate)
    | UnknownKind

  datatype Fact = Fact(key: TaskKey, at: string, payload: Payload)

  datatype Refusal = NO_TASK | DUPLICATE_TASK | NO_ATTEMPT | UNPLACED | DUPLICATE_ROW | UNKNOWN_FACT

  // One task as its facts tell it. `gates[j]` are the results of the j-th attempt.
  datatype TaskView = TaskView(
    task: Task, attempts: seq<Attempt>, gates: seq<seq<Gate>>, findings: seq<Finding>, entries: seq<Entry>,
    regate: Option<Regate>
  )

  // What the task's closed attempts add up to.
  function Spent(attempts: seq<Attempt>): real {
    if attempts == [] then 0.0 else
      var last := attempts[|attempts| - 1];
      Spent(attempts[..|attempts| - 1]) + (if last.closed.Some? then last.closed.value.closing.cost else 0.0)
  }

  // The first attempt of a phase and number.
  function FirstAt(attempts: seq<Attempt>, phase: string, n: nat): (j: Option<nat>)
    ensures j.Some? ==> j.value < |attempts| && attempts[j.value].phase == phase && attempts[j.value].n == n
  {
    if attempts == [] then None else
      var earlier := FirstAt(attempts[..|attempts| - 1], phase, n);
      if earlier.Some? then earlier
      else if attempts[|attempts| - 1].phase == phase && attempts[|attempts| - 1].n == n then Some(|attempts| - 1)
      else None
  }

  function HasSlot(entries: seq<Entry>, slot: Slot): bool {
    entries != [] && (HasSlot(entries[..|entries| - 1], slot) || SlotOf(entries[|entries| - 1]) == slot)
  }

  function NewTask(at: string, p: Payload): Task
    requires p.TaskCreated?
  {
    Task(p.specId, p.specSha, "QUEUED", if p.risk.Some? then p.risk.value else "standard", p.branch, p.budget,
         p.policySha, p.promptSha, None, None, None, None, None, None, None, 0.0, at)
  }

  // What a fact makes of the task's own row.
  function Retask(task: Task, attempts: seq<Attempt>, at: string, p: Payload): Task {
    match p
    case TaskState(state) => task.(state := state, updatedAt := at, spent := Spent(attempts))
    case TaskPackage(state, branch, pushedSha, prUrl, added, removed) =>
      task.(state := state, branch := branch, pushedSha := pushedSha, prUrl := prUrl, added := added,
            removed := removed,
            pushedInState := Some(state), updatedAt := at, spent := Spent(attempts))
    // The row's own state, as it stood before this write.
    case TaskPush(sha) => task.(pushedSha := Some(sha), pushedInState := Some(task.state), updatedAt := at)
    case TaskMergedHead(head) => task.(mergedHead := Some(head), updatedAt := at)
    case TaskPolicy(sha) => task.(policySha := Some(sha), updatedAt := at)
    case TaskEngine(engine) => task.(engine := Some(engine), updatedAt := at)
    case _ => task
  }

  // A position counted from 1, as an offset.
  function Offset(position: nat): nat {
    if position == 0 then 0 else position - 1
  }

  function Rebutted(f: Finding, verdict: Option<string>, rebuttal: Option<string>): Finding {
    f.(verdict := verdict, rebuttal := rebuttal)
  }

  function Risked(a: Attempt, earnedRisk: Option<string>): Attempt {
    if earnedRisk.Some? then a.(earnedRisk := earnedRisk) else a
  }

  /** One more fact about a task: the task it makes of the one before, or the
      refusal that leaves it as it was. */
  function Step(before: Option<TaskView>, at: string, p: Payload): Result<TaskView, Refusal>
    requires before.Some? ==> |before.value.gates| == |before.value.attempts|
  {
    if p.TaskCreated? then
      if before.Some? then Err(DUPLICATE_TASK) else Ok(TaskView(NewTask(at, p), [], [], [], [], None))
    else if before.None? then Err(NO_TASK)
    else StepOn(before.value, at, p)
  }

  function StepOn(v: TaskView, at: string, p: Payload): Result<TaskView, Refusal>
    requires !p.TaskCreated? && |v.gates| == |v.attempts|
  {
    match p
    case AttemptOpened(phase, n) =>
      Ok(v.(attempts := v.attempts + [Attempt(phase, n, at, None, None)], gates := v.gates + [[]]))
    case AttemptClosed(phase, n, closing) =>
      (match FirstAt(v.attempts, phase, n)
       case None => Err(NO_ATTEMPT)
       case Some(j) => Ok(v.(attempts := v.attempts[j := v.attempts[j].(closed := Some(Closed(at, closing)))])))
    case GateResult(phase, n, gate, earnedRisk) =>
      (match FirstAt(v.attempts, phase, n)
       case None => Err(NO_ATTEMPT)
       case Some(j) => Ok(v.(attempts := v.attempts[j := Risked(v.attempts[j], earnedRisk)],
                             gates := v.gates[j := v.gates[j] + [gate]])))
    case FindingFact(position, finding) =>
      if position == |v.findings| + 1 then Ok(v.(findings := v.findings + [Rebutted(finding, None, None)]))
      else Err(UNPLACED)
    case Rebuttal(position, verdict, rebuttal) =>
      if Offset(position) < |v.findings|
      then Ok(v.(findings := v.findings[Offset(position) := Rebutted(v.findings[Offset(position)], verdict, rebuttal)]))
      else Err(UNPLACED)
    case Filed(entry) =>
      if HasSlot(v.entries, SlotOf(entry)) then Err(DUPLICATE_ROW) else Ok(v.(entries := v.entries + [entry]))
    case TaskRegate(regate) => Ok(v.(regate := Some(regate)))
    case UnknownKind => Err(UNKNOWN_FACT)
    case _ => Ok(v.(task := Retask(v.task, v.attempts, at, p)))
  }

  function Stepped(before: Option<TaskView>, f: Fact): (r: Result<Option<TaskView>, Refusal>)
    requires before.Some? ==> |before.value.gates| == |before.value.attempts|
    ensures r.Ok? && r.value.Some? ==> |r.value.value.gates| == |r.value.value.attempts|
  {
    match Step(before, f.at, f.payload)
    case Ok(v) => Ok(Some(v))
    case Err(e) => Err(e)
  }

  // A task's facts replayed from nothing.
  function Replay(facts: seq<Fact>): (r: Result<Option<TaskView>, Refusal>)
    ensures r.Ok? && r.value.Some? ==> |r.value.value.gates| == |r.value.value.attempts|
  {
    if facts == [] then Ok(None) else
      var before := Replay(facts[..|facts| - 1]);
      if before.Err? then before else Stepped(before.value, facts[|facts| - 1])
  }
}
