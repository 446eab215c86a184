/** The ledger's tables and the one place facts become rows, as
    saffron/ledger.py has them: `_apply`, `_drop_task_rows` and `fold_task`. */
module Ledger {
  import opened Wrappers
  import opened Lists
  import opened Tables
  import opened Facts

  // Baseline gate results name a run and no attempt.
  datatype Db = Db(
    tasks: seq<Row<TaskKey, Task>>,
    attempts: seq<Row<nat, Attempt>>,
    gates: seq<Row<Option<nat>, Gate>>,
    findings: seq<Row<nat, Finding>>,
    entries: seq<Row<TaskKey, Entry>>,
    regates: map<TaskKey, Regate>
  )

  const EMPTY_DB := Db([], [], [], [], [], map[])

  // The record key is unique.
  ghost predicate OneTask(tasks: seq<Row<TaskKey, Task>>, key: TaskKey) {
    |Of(tasks, key)| <= 1
  }

  // No row hangs from one that is gone.
  ghost predicate Rooted(db: Db, key: TaskKey, id: nat) {
    && OneTask(db.tasks, key)
    && (id in Owners(db.attempts) || id in Owners(db.findings) ==> id in Ids(db.tasks))
    && (Some(id) in Owners(db.gates) ==> id in Ids(db.attempts))
    && (key in Owners(db.entries) || key in db.regates ==> key in Owners(db.tasks))
  }

  // Ids grow along every table, and every row is rooted.
  ghost predicate WellFormed(db: Db) {
    && Sorted(db.tasks) && Sorted(db.attempts) && Sorted(db.gates) && Sorted(db.findings) && Sorted(db.entries)
    && forall key, id :: Rooted(db, key, id)
  }

  // The gate results of each of these attempts.
  function GatesOf(gates: seq<Row<Option<nat>, Gate>>, attempts: seq<nat>): (r: seq<seq<Gate>>)
    ensures |r| == |attempts|
  {
    if attempts == [] then [] else
      GatesOf(gates, attempts[..|attempts| - 1]) + [Of(gates, Some(attempts[|attempts| - 1]))]
  }

  function TaskIdOf(db: Db, key: TaskKey): nat
    requires Of(db.tasks, key) != []
  {
    IdsOf(db.tasks, key)[0]
  }

  // One task as its rows tell it, surrogate ids forgotten.
  function View(db: Db, key: TaskKey): (v: Option<TaskView>)
    ensures v.Some? ==> |v.value.gates| == |v.value.attempts|
  {
    if Of(db.tasks, key) == [] then None else
      var id := TaskIdOf(db, key);
      Some(TaskView(
        Of(db.tasks, key)[0], Of(db.attempts, id), GatesOf(db.gates, IdsOf(db.attempts, id)), Of(db.findings, id),
        Of(db.entries, key),
        if key in db.regates then Some(db.regates[key]) else None))
  }

  // `_attempt_for`: the attempt of this task a fact names by phase and number.
  function AttemptFor(t: seq<Row<nat, Attempt>>, task: nat, phase: string, n: nat): Option<nat> {
    if t == [] then None else
      var earlier := AttemptFor(t[..|t| - 1], task, phase, n);
      var last := t[|t| - 1];
      if earlier.Some? then earlier
      else if last.owner == task && last.data.phase == phase && last.data.n == n then Some(last.id)
      else None
  }

  function RowData<O, T>(t: seq<Row<O, T>>, id: nat): T
    requires Find(t, id).Some?
  {
    Find(t, id).value.data
  }

  // `_apply`: one fact turned into rows.
  function Apply(db: Db, f: Fact): Result<Db, Refusal>
    requires WellFormed(db)
  {
    if f.payload.TaskCreated? then
      if Of(db.tasks, f.key) != [] then Err(DUPLICATE_TASK)
      else Ok(db.(tasks := Insert(db.tasks, f.key, NewTask(f.at, f.payload))))
    else if Of(db.tasks, f.key) == [] then Err(NO_TASK)
    else ApplyTo(db, f, TaskIdOf(db, f.key))
  }

  function ApplyTo(db: Db, f: Fact, id: nat): Result<Db, Refusal>
    requires WellFormed(db) && Of(db.tasks, f.key) != [] && id == TaskIdOf(db, f.key) && !f.payload.TaskCreated?
  {
    match f.payload
    case AttemptOpened(phase, n) => Ok(db.(attempts := Insert(db.attempts, id, Attempt(phase, n, f.at, None, None))))
    case AttemptClosed(phase, n, closing) =>
      (match AttemptFor(db.attempts, id, phase, n)
       case None => Err(NO_ATTEMPT)
       case Some(a) =>
         AttemptForIsFirst(db.attempts, id, phase, n);
         Ok(db.(attempts := SetData(db.attempts, a, RowData(db.attempts, a).(closed := Some(Closed(f.at, closing)))))))
    case GateResult(phase, n, gate, earnedRisk) =>
      (match AttemptFor(db.attempts, id, phase, n)
       case None => Err(NO_ATTEMPT)
       case Some(a) =>
         AttemptForIsFirst(db.attempts, id, phase, n);
         Ok(db.(gates := Insert(db.gates, Some(a), gate),
                attempts := SetData(db.attempts, a, Risked(RowData(db.attempts, a), earnedRisk)))))
    case FindingFact(position, finding) =>
      if position == |Of(db.findings, id)| + 1
      then Ok(db.(findings := Insert(db.findings, id, Rebutted(finding, None, None)))) else Err(UNPLACED)
    case Rebuttal(position, verdict, rebuttal) =>
      if Offset(position) < |Of(db.findings, id)| then
        var at := IdsOf(db.findings, id)[Offset(position)];
        FindOf(db.findings, id, Offset(position));
        Ok(db.(findings := SetData(db.findings, at, Rebutted(RowData(db.findings, at), verdict, rebuttal))))
      else Err(UNPLACED)
    case Filed(entry) =>
      if HasSlot(Of(db.entries, f.key), SlotOf(entry)) then Err(DUPLICATE_ROW)
      else Ok(db.(entries := Insert(db.entries, f.key, entry)))
    case TaskRegate(regate) => Ok(db.(regates := db.regates[f.key := regate]))
    case UnknownKind => Err(UNKNOWN_FACT)
    case _ =>
      Ok(db.(tasks := SetData(db.tasks, id, Retask(Of(db.tasks, f.key)[0], Of(db.attempts, id), f.at, f.payload))))
  }

  /** The attempt a fact names is the task's first of that phase and number. */
  lemma {:induction false} AttemptForIsFirst(t: seq<Row<nat, Attempt>>, task: nat, phase: string, n: nat)
    ensures var j := FirstAt(Of(t, task), phase, n);
      AttemptFor(t, task, phase, n) == if j.Some? then Some(IdsOf(t, task)[j.value]) else None
    ensures AttemptFor(t, task, phase, n).Some? ==> Find(t, AttemptFor(t, task, phase, n).value).Some?
  {
    if t != [] {
      var init, last := t[..|t| - 1], t[|t| - 1];
      AttemptForIsFirst(init, task, phase, n);
      assert t == init + [last];
      Grown(init, last, task);
      FirstSnoc(Of(init, task), last.data, phase, n);
    }
  }

  lemma FirstSnoc(attempts: seq<Attempt>, a: Attempt, phase: string, n: nat)
    ensures FirstAt(attempts + [a], phase, n) ==
      if FirstAt(attempts, phase, n).Some? then FirstAt(attempts, phase, n)
      else if a.phase == phase && a.n == n then Some(|attempts|) else None
  {
    InitLast(attempts, a);
  }

  // ---------------------------------------------------------------------------
  // Every fact applied is one step of its own task, and of no other

  ghost predicate SameView(db: Db, db': Db, key: TaskKey) {
    View(db', key) == View(db, key)
  }

  // What is said of any task and any id once one task's rows have changed.
  ghost predicate Kept(db: Db, db': Db, key: TaskKey, k: TaskKey, id: nat) {
    Rooted(db', k, id) && (k != key ==> SameView(db, db', k))
  }

  ghost predicate Refines(db: Db, db': Db, key: TaskKey, v: TaskView) {
    && Sorted(db'.tasks) && Sorted(db'.attempts) && Sorted(db'.gates) && Sorted(db'.findings) && Sorted(db'.entries)
    && View(db', key) == Some(v) && forall k, id :: Kept(db, db', key, k, id)
  }

  lemma RefinesKeeps(db: Db, db': Db, key: TaskKey, v: TaskView)
    requires Refines(db, db', key, v)
    ensures WellFormed(db') && View(db', key) == Some(v) && forall other :: other != key ==> SameView(db, db', other)
  {
    forall k, id ensures Rooted(db', k, id) { assert Kept(db, db', key, k, id); }
    forall other | other != key ensures SameView(db, db', other) { assert Kept(db, db', key, other, 0); }
  }

  lemma {:induction false} GatesSame(g: seq<Row<Option<nat>, Gate>>, g': seq<Row<Option<nat>, Gate>>,
                                     attempts: seq<nat>)
    requires forall a :: a in attempts ==> Of(g', Some(a)) == Of(g, Some(a))
    ensures GatesOf(g', attempts) == GatesOf(g, attempts)
  {
    if attempts != [] { GatesSame(g, g', attempts[..|attempts| - 1]); }
  }

  lemma {:induction false} GatesAt(g: seq<Row<Option<nat>, Gate>>, attempts: seq<nat>, j: nat)
    requires j < |attempts|
    ensures GatesOf(g, attempts)[j] == Of(g, Some(attempts[j]))
  {
    if j < |attempts| - 1 { GatesAt(g, attempts[..|attempts| - 1], j); }
  }

  lemma GatesSnoc(g: seq<Row<Option<nat>, Gate>>, attempts: seq<nat>, a: nat)
    ensures GatesOf(g, attempts + [a]) == GatesOf(g, attempts) + [Of(g, Some(a))]
  {
    InitLast(attempts, a);
  }

  // Two tasks never share an id.
  lemma OtherTask(db: Db, key: TaskKey, other: TaskKey)
    requires WellFormed(db) && Of(db.tasks, key) != [] && Of(db.tasks, other) != [] && other != key
    ensures TaskIdOf(db, other) != TaskIdOf(db, key)
  {
    if TaskIdOf(db, other) == TaskIdOf(db, key) { IdsOfDistinct(db.tasks, key, 0, other, 0); }
  }

  // Nor two attempts of different tasks.
  lemma OtherAttempt(db: Db, task: nat, j: nat, other: nat, a: nat)
    requires WellFormed(db) && j < |IdsOf(db.attempts, task)| && other != task && a in IdsOf(db.attempts, other)
    ensures a != IdsOf(db.attempts, task)[j]
  {
    var i :| 0 <= i < |IdsOf(db.attempts, other)| && IdsOf(db.attempts, other)[i] == a;
    if a == IdsOf(db.attempts, task)[j] { IdsOfDistinct(db.attempts, task, j, other, i); }
  }

  // Rows that did not move make the same task.
  lemma SameRows(db: Db, db': Db, k: TaskKey)
    requires Of(db'.tasks, k) == Of(db.tasks, k) && IdsOf(db'.tasks, k) == IdsOf(db.tasks, k)
    requires Of(db.tasks, k) != [] ==>
      var id := TaskIdOf(db, k);
      && Of(db'.attempts, id) == Of(db.attempts, id) && IdsOf(db'.attempts, id) == IdsOf(db.attempts, id)
      && Of(db'.findings, id) == Of(db.findings, id) && Of(db'.entries, k) == Of(db.entries, k)
      && GatesOf(db'.gates, IdsOf(db.attempts, id)) == GatesOf(db.gates, IdsOf(db.attempts, id))
    requires k in db'.regates <==> k in db.regates
    requires k in db.regates ==> db'.regates[k] == db.regates[k]
    ensures SameView(db, db', k)
  {
  }

  lemma RetaskOther(db: Db, key: TaskKey, data: Task, k: TaskKey, i: nat)
    requires WellFormed(db) && View(db, key).Some?
    ensures Kept(db, db.(tasks := SetData(db.tasks, TaskIdOf(db, key), data)), key, k, i)
  {
    assert Rooted(db, k, i);
    SetDataOf(db.tasks, key, 0, data, k);
    SetDataKeeps(db.tasks, TaskIdOf(db, key), data, k);
    if k != key { SameRows(db, db.(tasks := SetData(db.tasks, TaskIdOf(db, key), data)), k); }
  }

  lemma RetaskRefines(db: Db, key: TaskKey, data: Task)
    requires WellFormed(db) && View(db, key).Some?
    ensures Refines(db, db.(tasks := SetData(db.tasks, TaskIdOf(db, key), data)), key,
                    View(db, key).value.(task := data))
  {
    var db' := db.(tasks := SetData(db.tasks, TaskIdOf(db, key), data));
    forall k, i ensures Kept(db, db', key, k, i) { RetaskOther(db, key, data, k, i); }
    SetDataOf(db.tasks, key, 0, data, key);
    SetDataKeeps(db.tasks, TaskIdOf(db, key), data, key);
    assert Rooted(db, key, 0);
  }

  lemma OpenOther(db: Db, key: TaskKey, a: Attempt, k: TaskKey, i: nat)
    requires WellFormed(db) && View(db, key).Some?
    ensures Kept(db, db.(attempts := Insert(db.attempts, TaskIdOf(db, key), a)), key, k, i)
  {
    assert Rooted(db, k, i);
    InsertOf(db.attempts, TaskIdOf(db, key), a, TaskIdOf(db, key));
    IdsOfAre(db.tasks, key, 0);
    if Of(db.tasks, k) != [] && k != key {
      OtherTask(db, key, k);
      InsertOf(db.attempts, TaskIdOf(db, key), a, TaskIdOf(db, k));
      SameRows(db, db.(attempts := Insert(db.attempts, TaskIdOf(db, key), a)), k);
    }
  }

  lemma OpenRefines(db: Db, key: TaskKey, a: Attempt)
    requires WellFormed(db) && View(db, key).Some?
    ensures var v := View(db, key).value;
      Refines(db, db.(attempts := Insert(db.attempts, TaskIdOf(db, key), a)), key,
              v.(attempts := v.attempts + [a], gates := v.gates + [[]]))
  {
    var db' := db.(attempts := Insert(db.attempts, TaskIdOf(db, key), a));
    forall k, i ensures Kept(db, db', key, k, i) { OpenOther(db, key, a, k, i); }
    var id, next := TaskIdOf(db, key), NextId(db.attempts);
    InsertSorted(db.attempts, id, a);
    InsertOf(db.attempts, id, a, id);
    assert Rooted(db, key, next);
    OwnerHasRows(db.gates, Some(next));
    GatesSnoc(db.gates, IdsOf(db.attempts, id), next);
  }

  lemma ReattemptOther(db: Db, key: TaskKey, j: nat, a: Attempt, k: TaskKey, i: nat)
    requires WellFormed(db) && View(db, key).Some? && j < |View(db, key).value.attempts|
    ensures Kept(db, db.(attempts := SetData(db.attempts, IdsOf(db.attempts, TaskIdOf(db, key))[j], a)), key, k, i)
  {
    assert Rooted(db, k, i);
    var id := TaskIdOf(db, key);
    SetDataKeeps(db.attempts, IdsOf(db.attempts, id)[j], a, id);
    if Of(db.tasks, k) != [] && k != key {
      OtherTask(db, key, k);
      SetDataOf(db.attempts, id, j, a, TaskIdOf(db, k));
      SetDataKeeps(db.attempts, IdsOf(db.attempts, id)[j], a, TaskIdOf(db, k));
      SameRows(db, db.(attempts := SetData(db.attempts, IdsOf(db.attempts, id)[j], a)), k);
    }
  }

  lemma ReattemptRefines(db: Db, key: TaskKey, j: nat, a: Attempt)
    requires WellFormed(db) && View(db, key).Some? && j < |View(db, key).value.attempts|
    ensures var v := View(db, key).value;
      Refines(db, db.(attempts := SetData(db.attempts, IdsOf(db.attempts, TaskIdOf(db, key))[j], a)), key,
              v.(attempts := v.attempts[j := a]))
  {
    var db' := db.(attempts := SetData(db.attempts, IdsOf(db.attempts, TaskIdOf(db, key))[j], a));
    forall k, i ensures Kept(db, db', key, k, i) { ReattemptOther(db, key, j, a, k, i); }
    var id := TaskIdOf(db, key);
    SetDataOf(db.attempts, id, j, a, id);
    SetDataKeeps(db.attempts, IdsOf(db.attempts, id)[j], a, id);
  }

  lemma GateOwn(db: Db, key: TaskKey, j: nat, gate: Gate)
    requires WellFormed(db) && View(db, key).Some? && j < |View(db, key).value.attempts|
    ensures var ids := IdsOf(db.attempts, TaskIdOf(db, key)); var before := GatesOf(db.gates, ids);
      GatesOf(Insert(db.gates, Some(ids[j]), gate), ids) == before[j := before[j] + [gate]]
  {
    var id := TaskIdOf(db, key);
    var ids := IdsOf(db.attempts, id);
    var gates' := Insert(db.gates, Some(ids[j]), gate);
    var before := GatesOf(db.gates, ids);
    forall i | 0 <= i < |ids| ensures GatesOf(gates', ids)[i] == before[j := before[j] + [gate]][i] {
      GatesAt(db.gates, ids, i);
      GatesAt(gates', ids, i);
      InsertOf(db.gates, Some(ids[j]), gate, Some(ids[i]));
      if ids[i] == ids[j] { IdsOfDistinct(db.attempts, id, i, id, j); }
    }
  }

  lemma GateOther(db: Db, key: TaskKey, j: nat, gate: Gate, k: TaskKey, i: nat)
    requires WellFormed(db) && View(db, key).Some? && j < |View(db, key).value.attempts|
    ensures Kept(db, db.(gates := Insert(db.gates, Some(IdsOf(db.attempts, TaskIdOf(db, key))[j]), gate)), key, k, i)
  {
    assert Rooted(db, k, i);
    var id := TaskIdOf(db, key);
    var owner := Some(IdsOf(db.attempts, id)[j]);
    InsertOf(db.gates, owner, gate, owner);
    IdsOfAre(db.attempts, id, j);
    if Of(db.tasks, k) != [] && k != key {
      OtherTask(db, key, k);
      var ids := IdsOf(db.attempts, TaskIdOf(db, k));
      forall a | a in ids ensures Of(Insert(db.gates, owner, gate), Some(a)) == Of(db.gates, Some(a)) {
        OtherAttempt(db, id, j, TaskIdOf(db, k), a);
        InsertOf(db.gates, owner, gate, Some(a));
      }
      GatesSame(db.gates, Insert(db.gates, owner, gate), ids);
      SameRows(db, db.(gates := Insert(db.gates, owner, gate)), k);
    }
  }

  lemma GateRefines(db: Db, key: TaskKey, j: nat, gate: Gate)
    requires WellFormed(db) && View(db, key).Some? && j < |View(db, key).value.attempts|
    ensures var v := View(db, key).value;
      Refines(db, db.(gates := Insert(db.gates, Some(IdsOf(db.attempts, TaskIdOf(db, key))[j]), gate)), key,
              v.(gates := v.gates[j := v.gates[j] + [gate]]))
  {
    var db' := db.(gates := Insert(db.gates, Some(IdsOf(db.attempts, TaskIdOf(db, key))[j]), gate));
    forall k, i ensures Kept(db, db', key, k, i) { GateOther(db, key, j, gate, k, i); }
    var owner := Some(IdsOf(db.attempts, TaskIdOf(db, key))[j]);
    InsertSorted(db.gates, owner, gate);
    GateOwn(db, key, j, gate);
  }

  lemma FoundOther(db: Db, key: TaskKey, f: Finding, k: TaskKey, i: nat)
    requires WellFormed(db) && View(db, key).Some?
    ensures Kept(db, db.(findings := Insert(db.findings, TaskIdOf(db, key), f)), key, k, i)
  {
    assert Rooted(db, k, i);
    InsertOf(db.findings, TaskIdOf(db, key), f, TaskIdOf(db, key));
    IdsOfAre(db.tasks, key, 0);
    if Of(db.tasks, k) != [] && k != key {
      OtherTask(db, key, k);
      InsertOf(db.findings, TaskIdOf(db, key), f, TaskIdOf(db, k));
      SameRows(db, db.(findings := Insert(db.findings, TaskIdOf(db, key), f)), k);
    }
  }

  lemma FoundRefines(db: Db, key: TaskKey, f: Finding)
    requires WellFormed(db) && View(db, key).Some?
    ensures var v := View(db, key).value;
      Refines(db, db.(findings := Insert(db.findings, TaskIdOf(db, key), f)), key, v.(findings := v.findings + [f]))
  {
    var db' := db.(findings := Insert(db.findings, TaskIdOf(db, key), f));
    forall k, i ensures Kept(db, db', key, k, i) { FoundOther(db, key, f, k, i); }
    InsertSorted(db.findings, TaskIdOf(db, key), f);
    InsertOf(db.findings, TaskIdOf(db, key), f, TaskIdOf(db, key));
  }

  lemma RebutOther(db: Db, key: TaskKey, j: nat, f: Finding, k: TaskKey, i: nat)
    requires WellFormed(db) && View(db, key).Some? && j < |View(db, key).value.findings|
    ensures Kept(db, db.(findings := SetData(db.findings, IdsOf(db.findings, TaskIdOf(db, key))[j], f)), key, k, i)
  {
    assert Rooted(db, k, i);
    var id := TaskIdOf(db, key);
    SetDataKeeps(db.findings, IdsOf(db.findings, id)[j], f, id);
    if Of(db.tasks, k) != [] && k != key {
      OtherTask(db, key, k);
      SetDataOf(db.findings, id, j, f, TaskIdOf(db, k));
      SameRows(db, db.(findings := SetData(db.findings, IdsOf(db.findings, id)[j], f)), k);
    }
  }

  lemma RebutRefines(db: Db, key: TaskKey, j: nat, f: Finding)
    requires WellFormed(db) && View(db, key).Some? && j < |View(db, key).value.findings|
    ensures var v := View(db, key).value;
      Refines(db, db.(findings := SetData(db.findings, IdsOf(db.findings, TaskIdOf(db, key))[j], f)), key,
              v.(findings := v.findings[j := f]))
  {
    var db' := db.(findings := SetData(db.findings, IdsOf(db.findings, TaskIdOf(db, key))[j], f));
    forall k, i ensures Kept(db, db', key, k, i) { RebutOther(db, key, j, f, k, i); }
    var id := TaskIdOf(db, key);
    SetDataOf(db.findings, id, j, f, id);
    SetDataKeeps(db.findings, IdsOf(db.findings, id)[j], f, id);
  }

  lemma FiledOther(db: Db, key: TaskKey, e: Entry, k: TaskKey, i: nat)
    requires WellFormed(db) && View(db, key).Some?
    ensures Kept(db, db.(entries := Insert(db.entries, key, e)), key, k, i)
  {
    assert Rooted(db, k, i);
    OwnerHasRows(db.tasks, key);
    InsertOf(db.entries, key, e, k);
    if k != key { SameRows(db, db.(entries := Insert(db.entries, key, e)), k); }
  }

  lemma FiledRefines(db: Db, key: TaskKey, e: Entry)
    requires WellFormed(db) && View(db, key).Some?
    ensures var v := View(db, key).value;
      Refines(db, db.(entries := Insert(db.entries, key, e)), key, v.(entries := v.entries + [e]))
  {
    var db' := db.(entries := Insert(db.entries, key, e));
    forall k, i ensures Kept(db, db', key, k, i) { FiledOther(db, key, e, k, i); }
    InsertSorted(db.entries, key, e);
    InsertOf(db.entries, key, e, key);
  }

  lemma RegateOther(db: Db, key: TaskKey, r: Regate, k: TaskKey, i: nat)
    requires WellFormed(db) && View(db, key).Some?
    ensures Kept(db, db.(regates := db.regates[key := r]), key, k, i)
  {
    assert Rooted(db, k, i);
    OwnerHasRows(db.tasks, key);
    if k != key { SameRows(db, db.(regates := db.regates[key := r]), k); }
  }

  lemma RegateRefines(db: Db, key: TaskKey, r: Regate)
    requires WellFormed(db) && View(db, key).Some?
    ensures Refines(db, db.(regates := db.regates[key := r]), key, View(db, key).value.(regate := Some(r)))
  {
    var db' := db.(regates := db.regates[key := r]);
    forall k, i ensures Kept(db, db', key, k, i) { RegateOther(db, key, r, k, i); }
  }

  lemma CreateOther(db: Db, key: TaskKey, t: Task, k: TaskKey, i: nat)
    requires WellFormed(db) && View(db, key).None?
    ensures Kept(db, db.(tasks := Insert(db.tasks, key, t)), key, k, i)
  {
    assert Rooted(db, k, i);
    InsertOf(db.tasks, key, t, k);
    if k != key { SameRows(db, db.(tasks := Insert(db.tasks, key, t)), k); }
  }

  lemma CreateRefines(db: Db, key: TaskKey, t: Task)
    requires WellFormed(db) && View(db, key).None?
    ensures Refines(db, db.(tasks := Insert(db.tasks, key, t)), key, TaskView(t, [], [], [], [], None))
  {
    var db' := db.(tasks := Insert(db.tasks, key, t));
    forall k, i ensures Kept(db, db', key, k, i) { CreateOther(db, key, t, k, i); }
    var id := NextId(db.tasks);
    InsertSorted(db.tasks, key, t);
    InsertOf(db.tasks, key, t, key);
    assert Rooted(db, key, id);
    OwnerHasRows(db.tasks, key);
    OwnerHasRows(db.attempts, id);
    OwnerHasRows(db.findings, id);
    OwnerHasRows(db.entries, key);
  }

  lemma NamedAttempt(db: Db, key: TaskKey, phase: string, n: nat)
    requires WellFormed(db) && View(db, key).Some?
    ensures var id, j := TaskIdOf(db, key), FirstAt(View(db, key).value.attempts, phase, n);
      && AttemptFor(db.attempts, id, phase, n) == (if j.Some? then Some(IdsOf(db.attempts, id)[j.value]) else None)
      && (j.Some? ==>
            Find(db.attempts, IdsOf(db.attempts, id)[j.value])
              == Some(Row(IdsOf(db.attempts, id)[j.value], id, View(db, key).value.attempts[j.value])))
  {
    var id := TaskIdOf(db, key);
    AttemptForIsFirst(db.attempts, id, phase, n);
    var j := FirstAt(Of(db.attempts, id), phase, n);
    if j.Some? { FindOf(db.attempts, id, j.value); }
  }

  lemma ThenRefines(db: Db, db1: Db, db2: Db, key: TaskKey, v1: TaskView, v2: TaskView)
    requires Refines(db, db1, key, v1) && Refines(db1, db2, key, v2)
    ensures Refines(db, db2, key, v2)
  {
    forall k, id ensures Kept(db, db2, key, k, id) { assert Kept(db, db1, key, k, id) && Kept(db1, db2, key, k, id); }
  }

  // A fact means to the tables what it means to its task.
  ghost predicate Agrees(db: Db, f: Fact)
    requires WellFormed(db)
  {
    match Apply(db, f)
    case Err(e) => Step(View(db, f.key), f.at, f.payload) == Err(e)
    case Ok(db') =>
      var s := Step(View(db, f.key), f.at, f.payload);
      s.Ok? && Refines(db, db', f.key, s.value)
  }

  lemma GateResultAgrees(db: Db, f: Fact)
    requires WellFormed(db) && View(db, f.key).Some? && f.payload.GateResult?
    ensures Agrees(db, f)
  {
    var p, v := f.payload, View(db, f.key).value;
    NamedAttempt(db, f.key, p.phase, p.n);
    if Apply(db, f).Ok? {
      var j := FirstAt(v.attempts, p.phase, p.n).value;
      var a := IdsOf(db.attempts, TaskIdOf(db, f.key))[j];
      var db1 := db.(gates := Insert(db.gates, Some(a), p.gate));
      var v1 := v.(gates := v.gates[j := v.gates[j] + [p.gate]]);
      GateRefines(db, f.key, j, p.gate);
      RefinesKeeps(db, db1, f.key, v1);
      ReattemptRefines(db1, f.key, j, Risked(v.attempts[j], p.earnedRisk));
      ThenRefines(db, db1, Apply(db, f).value, f.key, v1,
                  v1.(attempts := v.attempts[j := Risked(v.attempts[j], p.earnedRisk)]));
    }
  }

  lemma ClosedAgrees(db: Db, f: Fact)
    requires WellFormed(db) && View(db, f.key).Some? && f.payload.AttemptClosed?
    ensures Agrees(db, f)
  {
    var p, v := f.payload, View(db, f.key).value;
    NamedAttempt(db, f.key, p.phase, p.n);
    if Apply(db, f).Ok? {
      var j := FirstAt(v.attempts, p.phase, p.n).value;
      ReattemptRefines(db, f.key, j, v.attempts[j].(closed := Some(Closed(f.at, p.closing))));
    }
  }

  lemma RebuttalAgrees(db: Db, f: Fact)
    requires WellFormed(db) && View(db, f.key).Some? && f.payload.Rebuttal?
    ensures Agrees(db, f)
  {
    var p, v := f.payload, View(db, f.key).value;
    if Apply(db, f).Ok? {
      FindOf(db.findings, TaskIdOf(db, f.key), Offset(p.position));
      RebutRefines(db, f.key, Offset(p.position), Rebutted(v.findings[Offset(p.position)], p.verdict, p.rebuttal));
    }
  }

  predicate Retasks(p: Payload) {
    p.TaskState? || p.TaskPackage? || p.TaskPush? || p.TaskMergedHead? || p.TaskPolicy? || p.TaskEngine?
  }

  lemma RetaskAgrees(db: Db, f: Fact)
    requires WellFormed(db) && View(db, f.key).Some? && Retasks(f.payload)
    ensures Agrees(db, f)
  {
    RetaskRefines(db, f.key, Retask(View(db, f.key).value.task, View(db, f.key).value.attempts, f.at, f.payload));
  }

  lemma OpenedAgrees(db: Db, f: Fact)
    requires WellFormed(db) && View(db, f.key).Some? && f.payload.AttemptOpened?
    ensures Agrees(db, f)
  {
    OpenRefines(db, f.key, Attempt(f.payload.phase, f.payload.n, f.at, None, None));
  }

  lemma FoundAgrees(db: Db, f: Fact)
    requires WellFormed(db) && View(db, f.key).Some? && f.payload.FindingFact?
    ensures Agrees(db, f)
  {
    FoundRefines(db, f.key, Rebutted(f.payload.finding, None, None));
  }

  lemma FiledAgrees(db: Db, f: Fact)
    requires WellFormed(db) && View(db, f.key).Some? && f.payload.Filed?
    ensures Agrees(db, f)
  {
    FiledRefines(db, f.key, f.payload.entry);
  }

  lemma RegateAgrees(db: Db, f: Fact)
    requires WellFormed(db) && View(db, f.key).Some? && (f.payload.TaskRegate? || f.payload.UnknownKind?)
    ensures Agrees(db, f)
  {
    if f.payload.TaskRegate? { RegateRefines(db, f.key, f.payload.regate); }
  }

  lemma CreatedAgrees(db: Db, f: Fact)
    requires WellFormed(db) && (f.payload.TaskCreated? || View(db, f.key).None?)
    ensures Agrees(db, f)
  {
    if f.payload.TaskCreated? && View(db, f.key).None? { CreateRefines(db, f.key, NewTask(f.at, f.payload)); }
  }

  /** Applying a fact to the tables is one step of the task it names: the same
      task comes of it, the same facts are refused, and every other task's rows
      stay what they were. */
  lemma ApplyRefines(db: Db, f: Fact)
    requires WellFormed(db)
    ensures Agrees(db, f)
    ensures Apply(db, f).Ok? ==>
      WellFormed(Apply(db, f).value) && forall other :: other != f.key ==> SameView(db, Apply(db, f).value, other)
  {
    if f.payload.TaskCreated? || View(db, f.key).None? { CreatedAgrees(db, f); }
    else if Retasks(f.payload) { RetaskAgrees(db, f); }
    else if f.payload.GateResult? { GateResultAgrees(db, f); }
    else if f.payload.AttemptClosed? { ClosedAgrees(db, f); }
    else if f.payload.Rebuttal? { RebuttalAgrees(db, f); }
    else if f.payload.AttemptOpened? { OpenedAgrees(db, f); }
    else if f.payload.FindingFact? { FoundAgrees(db, f); }
    else if f.payload.Filed? { FiledAgrees(db, f); }
    else { RegateAgrees(db, f); }
    if Apply(db, f).Ok? {
      RefinesKeeps(db, Apply(db, f).value, f.key, Step(View(db, f.key), f.at, f.payload).value);
    }
  }

  // ---------------------------------------------------------------------------
  // The fold

  // `_drop_task_rows`: every row under a key, task row last.
  function DropTask(db: Db, key: TaskKey): Db {
    var filed := db.(entries := Delete(db.entries, {key}), regates := db.regates - {key});
    if Of(db.tasks, key) == [] then filed else
      var id := TaskIdOf(db, key);
      filed.(
        gates := Delete(db.gates, Owning(IdsOf(db.attempts, id))),
        attempts := Delete(db.attempts, {id}),
        findings := Delete(db.findings, {id}),
        tasks := Delete(db.tasks, {key}))
  }

  function Owning(attempts: seq<nat>): (r: set<Option<nat>>)
    ensures forall o: Option<nat> :: o in r <==> o.Some? && o.value in attempts
  {
    set a | a in attempts :: Some(a)
  }

  // A dropped task's attempts take their gate results along, and no others.
  lemma DropGates(db: Db, key: TaskKey, k: TaskKey)
    requires WellFormed(db) && Of(db.tasks, key) != [] && Of(db.tasks, k) != [] && k != key
    ensures var ids := IdsOf(db.attempts, TaskIdOf(db, k));
      GatesOf(Delete(db.gates, Owning(IdsOf(db.attempts, TaskIdOf(db, key)))), ids) == GatesOf(db.gates, ids)
  {
    var id, other := TaskIdOf(db, key), TaskIdOf(db, k);
    var gone := Owning(IdsOf(db.attempts, id));
    OtherTask(db, key, k);
    forall a | a in IdsOf(db.attempts, other) ensures Of(Delete(db.gates, gone), Some(a)) == Of(db.gates, Some(a)) {
      if a in IdsOf(db.attempts, id) {
        var j :| 0 <= j < |IdsOf(db.attempts, id)| && IdsOf(db.attempts, id)[j] == a;
        OtherAttempt(db, id, j, other, a);
      }
      DeleteOf(db.gates, gone, Some(a));
    }
    GatesSame(db.gates, Delete(db.gates, gone), IdsOf(db.attempts, other));
  }

  lemma DropOther(db: Db, key: TaskKey, k: TaskKey)
    requires WellFormed(db) && k != key
    ensures SameView(db, DropTask(db, key), k)
  {
    DeleteOf(db.entries, {key}, k);
    if Of(db.tasks, key) != [] {
      DeleteOf(db.tasks, {key}, k);
      if Of(db.tasks, k) != [] {
        OtherTask(db, key, k);
        DeleteOf(db.attempts, {TaskIdOf(db, key)}, TaskIdOf(db, k));
        DeleteOf(db.findings, {TaskIdOf(db, key)}, TaskIdOf(db, k));
        DropGates(db, key, k);
      }
    }
    SameRows(db, DropTask(db, key), k);
  }

  lemma DropRooted(db: Db, key: TaskKey, k: TaskKey, i: nat)
    requires WellFormed(db)
    ensures Rooted(DropTask(db, key), k, i)
  {
    assert Rooted(db, k, i);
    DeleteKeeps(db.entries, {key});
    OwnerHasRows(db.tasks, key);
    if Of(db.tasks, key) != [] {
      var id := TaskIdOf(db, key);
      DeleteOf(db.tasks, {key}, k);
      DeleteKeeps(db.tasks, {key});
      DeleteKeeps(db.attempts, {id});
      DeleteKeeps(db.findings, {id});
      DeleteKeeps(db.gates, Owning(IdsOf(db.attempts, id)));
      DropIds(db, key, i);
    }
  }

  // Only the dropped task's own id leaves, and only its attempts' ids.
  lemma DropIds(db: Db, key: TaskKey, i: nat)
    requires WellFormed(db) && Of(db.tasks, key) != []
    ensures i in Ids(db.tasks) && i != TaskIdOf(db, key) ==> i in Ids(Delete(db.tasks, {key}))
    ensures i in Ids(db.attempts) && i !in IdsOf(db.attempts, TaskIdOf(db, key)) ==>
      i in Ids(Delete(db.attempts, {TaskIdOf(db, key)}))
  {
    assert Rooted(db, key, i);
    DeletedIds(db.tasks, key, i);
    DeletedIds(db.attempts, TaskIdOf(db, key), i);
  }

  lemma {:induction false} DeletedIds<O, T>(t: seq<Row<O, T>>, owner: O, i: nat)
    ensures i in Ids(t) && i !in IdsOf(t, owner) ==> i in Ids(Delete(t, {owner}))
  {
    if t != [] {
      var init, last := t[..|t| - 1], t[|t| - 1];
      DeletedIds(init, owner, i);
      Grown(Delete(init, {owner}), last, owner);
      assert last.owner == owner ==> Delete(t, {owner}) == Delete(init, {owner});
    }
  }

  /** Dropping a task leaves no row of it and every other task untouched. */
  lemma DropForgets(db: Db, key: TaskKey)
    requires WellFormed(db)
    ensures var db' := DropTask(db, key);
      WellFormed(db') && View(db', key).None? && forall k :: k != key ==> SameView(db, db', k)
  {
    var db' := DropTask(db, key);
    forall k, i ensures Rooted(db', k, i) { DropRooted(db, key, k, i); }
    forall k | k != key ensures SameView(db, db', k) { DropOther(db, key, k); }
    DeleteKeeps(db.entries, {key});
    DeleteOf(db.tasks, {key}, key);
    if Of(db.tasks, key) != [] {
      DeleteKeeps(db.tasks, {key});
      DeleteKeeps(db.attempts, {TaskIdOf(db, key)});
      DeleteKeeps(db.findings, {TaskIdOf(db, key)});
      DeleteKeeps(db.gates, Owning(IdsOf(db.attempts, TaskIdOf(db, key))));
    }
  }

  function ApplyAll(db: Db, facts: seq<Fact>): (r: Result<Db, Refusal>)
    requires WellFormed(db)
    ensures r.Ok? ==> WellFormed(r.value)
  {
    if facts == [] then Ok(db) else
      var before := ApplyAll(db, facts[..|facts| - 1]);
      if before.Err? then before else
        ApplyRefines(before.value, facts[|facts| - 1]);
        Apply(before.value, facts[|facts| - 1])
  }

  // `fold_task`: one transaction, so a fact that is refused undoes it whole.
  function Fold(db: Db, key: TaskKey, facts: seq<Fact>): (r: Result<Db, Refusal>)
    requires WellFormed(db)
    ensures r.Ok? ==> WellFormed(r.value)
  {
    DropForgets(db, key);
    ApplyAll(DropTask(db, key), facts)
  }

  ghost predicate Under(facts: seq<Fact>, key: TaskKey) {
    facts == [] || (Under(facts[..|facts| - 1], key) && facts[|facts| - 1].key == key)
  }

  // Tables that have come, from `db`, to tell a task as its facts do, or have
  // refused what the facts refuse. Every other task is told as it was.
  ghost predicate Follows(db: Db, r: Result<Db, Refusal>, key: TaskKey, s: Result<Option<TaskView>, Refusal>) {
    match r
    case Err(e) => s == Err(e)
    case Ok(db') =>
      WellFormed(db') && s == Ok(View(db', key)) && forall other :: other != key ==> SameView(db, db', other)
  }

  lemma ApplyFollows(db: Db, db1: Db, f: Fact)
    requires WellFormed(db1) && forall other :: other != f.key ==> SameView(db, db1, other)
    ensures Follows(db, Apply(db1, f), f.key, Stepped(View(db1, f.key), f))
  {
    ApplyRefines(db1, f);
    if Apply(db1, f).Ok? {
      var db2 := Apply(db1, f).value;
      RefinesKeeps(db1, db2, f.key, Step(View(db1, f.key), f.at, f.payload).value);
      forall other | other != f.key ensures SameView(db, db2, other) {
        assert SameView(db, db1, other) && SameView(db1, db2, other);
      }
    }
  }

  lemma {:induction false} ApplyAllFollows(db0: Db, db: Db, key: TaskKey, facts: seq<Fact>)
    requires WellFormed(db) && View(db, key).None? && Under(facts, key)
    requires forall other :: other != key ==> SameView(db0, db, other)
    ensures Follows(db0, ApplyAll(db, facts), key, Replay(facts))
  {
    if facts != [] {
      var init, last := facts[..|facts| - 1], facts[|facts| - 1];
      ApplyAllFollows(db0, db, key, init);
      if ApplyAll(db, init).Ok? {
        ApplyFollows(db0, ApplyAll(db, init).value, last);
      }
    }
  }

  /** Folding a task is replaying its facts: whatever rows it had before, the
      task that comes of it is the one the facts tell, refused exactly when a
      fact is, and every other task keeps its rows. */
  lemma FoldReplays(db: Db, key: TaskKey, facts: seq<Fact>)
    requires WellFormed(db) && Under(facts, key)
    ensures Follows(db, Fold(db, key, facts), key, Replay(facts))
  {
    DropForgets(db, key);
    ApplyAllFollows(db, DropTask(db, key), key, facts);
  }

  /** Folding twice comes to what folding once does. */
  lemma FoldIsIdempotent(db: Db, key: TaskKey, facts: seq<Fact>, other: TaskKey)
    requires WellFormed(db) && Under(facts, key) && Fold(db, key, facts).Ok?
    ensures var once := Fold(db, key, facts).value;
      Fold(once, key, facts).Ok? && View(Fold(once, key, facts).value, other) == View(once, other)
  {
    var once := Fold(db, key, facts).value;
    FoldReplays(db, key, facts);
    FoldReplays(once, key, facts);
    assert other != key ==> SameView(once, Fold(once, key, facts).value, other);
  }
}
