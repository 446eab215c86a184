/** The ledger's live write methods, as saffron/ledger.py has them: each builds
    one fact from the rows, turns it into rows through `_apply`, and appends it
    to the task's own record. */
module Writes {
  import opened Wrappers
  import opened Lists
  import opened Tables
  import opened Facts
  import opened Ledger
  import opened Baseline

  type Record = map<TaskKey, seq<Fact>>

  function RecordOf(record: Record, key: TaskKey): seq<Fact> {
    if key in record then record[key] else []
  }

  // Attempts are told apart by phase and number.
  ghost predicate Numbered(attempts: seq<Attempt>) {
    attempts == [] ||
    (var init, last := attempts[..|attempts| - 1], attempts[|attempts| - 1];
     Numbered(init) && FirstAt(init, last.phase, last.n).None?)
  }

  datatype Kind = TextKind | ReviewKind | QualificationKind | OtherKind

  function KindOf(e: Entry): Kind {
    match e
    case SpecText(_, _, _, _, _, _) => TextKind
    case SpecReview(_, _, _, _, _) => ReviewKind
    case Qualification(_, _, _, _, _, _, _, _, _) => QualificationKind
    case _ => OtherKind
  }

  function NumberOf(e: Entry): nat {
    match e
    case SpecText(n, _, _, _, _, _) => n
    case SpecReview(n, _, _, _, _) => n
    case Qualification(position, _, _, _, _, _, _, _, _) => position
    case _ => 0
  }

  function CountKind(entries: seq<Entry>, kind: Kind): nat {
    if entries == [] then 0 else
      CountKind(entries[..|entries| - 1], kind) + (if KindOf(entries[|entries| - 1]) == kind then 1 else 0)
  }

  // Texts, reviews and qualifications are each numbered one past those before.
  ghost predicate Counted(entries: seq<Entry>) {
    entries == [] ||
    (var init, last := entries[..|entries| - 1], entries[|entries| - 1];
     Counted(init) && (KindOf(last) != OtherKind ==> NumberOf(last) == CountKind(init, KindOf(last)) + 1))
  }

  ghost predicate Orderly(v: Option<TaskView>) {
    v.Some? ==> Numbered(v.value.attempts) && Counted(v.value.entries)
  }

  // What keeps a task orderly: no attempt opened twice, nothing numbered out of turn.
  ghost predicate InTurn(v: Option<TaskView>, p: Payload) {
    v.Some? ==>
      && (p.AttemptOpened? ==> FirstAt(v.value.attempts, p.phase, p.n).None?)
      && (p.Filed? && KindOf(p.entry) != OtherKind ==>
           NumberOf(p.entry) == CountKind(v.value.entries, KindOf(p.entry)) + 1)
  }

  lemma {:induction false} NumberedSame(a: seq<Attempt>, j: nat, x: Attempt)
    requires j < |a| && a[j].phase == x.phase && a[j].n == x.n
    ensures Numbered(a[j := x]) == Numbered(a)
    ensures forall phase, n :: FirstAt(a[j := x], phase, n) == FirstAt(a, phase, n)
  {
    var init, last := a[..|a| - 1], a[|a| - 1];
    assert a[j := x][..|a| - 1] == if j < |a| - 1 then init[j := x] else init;
    if j < |a| - 1 { NumberedSame(init, j, x); }
  }

  lemma StepKeepsOrder(v: Option<TaskView>, f: Fact)
    requires v.Some? ==> |v.value.gates| == |v.value.attempts|
    requires Orderly(v) && InTurn(v, f.payload) && Stepped(v, f).Ok?
    ensures Orderly(Stepped(v, f).value)
  {
    if v.Some? {
      match f.payload {
        case AttemptOpened(phase, n) => InitLast(v.value.attempts, Attempt(phase, n, f.at, None, None));
        case AttemptClosed(phase, n, closing) =>
          var j := FirstAt(v.value.attempts, phase, n).value;
          NumberedSame(v.value.attempts, j, v.value.attempts[j].(closed := Some(Closed(f.at, closing))));
        case GateResult(phase, n, _, earnedRisk) =>
          var j := FirstAt(v.value.attempts, phase, n).value;
          NumberedSame(v.value.attempts, j, Risked(v.value.attempts[j], earnedRisk));
        case Filed(entry) => InitLast(v.value.entries, entry);
        case _ =>
      }
    }
  }

  /** With attempts told apart, naming one by phase and number names it again. */
  lemma {:induction false} FirstIsIt(attempts: seq<Attempt>, j: nat)
    requires Numbered(attempts) && j < |attempts|
    ensures FirstAt(attempts, attempts[j].phase, attempts[j].n) == Some(j)
  {
    if j < |attempts| - 1 { FirstIsIt(attempts[..|attempts| - 1], j); }
  }

  // One past the highest number of a phase.
  function NextNumber(attempts: seq<Attempt>, phase: string): nat {
    if attempts == [] then 1 else
      var before := NextNumber(attempts[..|attempts| - 1], phase);
      var last := attempts[|attempts| - 1];
      if last.phase == phase && last.n >= before then last.n + 1 else before
  }

  lemma {:induction false} NextIsFree(attempts: seq<Attempt>, phase: string, n: nat)
    requires n >= NextNumber(attempts, phase)
    ensures FirstAt(attempts, phase, n).None?
  {
    if attempts != [] { NextIsFree(attempts[..|attempts| - 1], phase, n); }
  }

  lemma {:induction false} NextSlotIsFree(entries: seq<Entry>, e: Entry)
    requires Counted(entries) && KindOf(e) != OtherKind && NumberOf(e) > CountKind(entries, KindOf(e))
    ensures !HasSlot(entries, SlotOf(e))
  {
    if entries != [] { NextSlotIsFree(entries[..|entries| - 1], e); }
  }

  // The task with this id is the one task under its key.
  lemma TaskRow(db: Db, id: nat)
    requires WellFormed(db) && Find(db.tasks, id).Some?
    ensures var row := Find(db.tasks, id).value;
      View(db, row.owner).Some? && TaskIdOf(db, row.owner) == id && View(db, row.owner).value.task == row.data
  {
    CountIsPlace(db.tasks, id);
    assert Rooted(db, Find(db.tasks, id).value.owner, id);
  }

  // The task with this id, as its rows tell it.
  ghost function Told(db: Db, id: nat): (v: TaskView)
    requires WellFormed(db) && Find(db.tasks, id).Some?
    ensures View(db, Find(db.tasks, id).value.owner) == Some(v)
  {
    TaskRow(db, id);
    View(db, Find(db.tasks, id).value.owner).value
  }

  // The attempt with this id, at its place among its task's.
  lemma AttemptRow(db: Db, id: nat) returns (key: TaskKey, j: nat)
    requires WellFormed(db) && Find(db.attempts, id).Some?
    ensures var row := Find(db.attempts, id).value;
      && Find(db.tasks, row.owner).Some? && key == Find(db.tasks, row.owner).value.owner
      && View(db, key).Some? && TaskIdOf(db, key) == row.owner
      && j < |View(db, key).value.attempts| && View(db, key).value.attempts[j] == row.data
      && IdsOf(db.attempts, row.owner)[j] == id
  {
    var row := Find(db.attempts, id).value;
    CountIsPlace(db.attempts, id);
    j := CountUpTo(db.attempts, row.owner, id) - 1;
    OwnerHasRows(db.attempts, row.owner);
    assert Rooted(db, "", row.owner);
    key := Find(db.tasks, row.owner).value.owner;
    TaskRow(db, row.owner);
  }

  lemma FindingRow(db: Db, id: nat) returns (key: TaskKey)
    requires WellFormed(db) && Find(db.findings, id).Some?
    ensures var row := Find(db.findings, id).value; var place := CountUpTo(db.findings, row.owner, id);
      && Find(db.tasks, row.owner).Some? && key == Find(db.tasks, row.owner).value.owner
      && View(db, key).Some? && TaskIdOf(db, key) == row.owner
      && 1 <= place <= |View(db, key).value.findings| && View(db, key).value.findings[place - 1] == row.data
      && IdsOf(db.findings, row.owner)[place - 1] == id
  {
    var row := Find(db.findings, id).value;
    CountIsPlace(db.findings, id);
    OwnerHasRows(db.findings, row.owner);
    assert Rooted(db, "", row.owner);
    key := Find(db.tasks, row.owner).value.owner;
    TaskRow(db, row.owner);
  }

  // A rebuttal names its finding by its place among its task's.
  lemma RebuttalApplies(db: Db, finding: nat, verdict: Option<string>, rebuttal: Option<string>, at: string)
    requires WellFormed(db) && Find(db.findings, finding).Some?
    ensures var row := Find(db.findings, finding).value;
      && Find(db.tasks, row.owner).Some?
      && var f := Fact(Find(db.tasks, row.owner).value.owner, at,
                       Rebuttal(CountUpTo(db.findings, row.owner, finding), verdict, rebuttal));
        Apply(db, f) == Ok(db.(findings := SetData(db.findings, finding, Rebutted(row.data, verdict, rebuttal))))
  {
    var key := FindingRow(db, finding);
  }

  // A task's rows are what its own record says.
  ghost predicate Faithful(db: Db, record: Record, key: TaskKey) {
    && Under(RecordOf(record, key), key)
    && Replay(RecordOf(record, key)) == Ok(View(db, key))
    && Orderly(View(db, key))
  }

  ghost predicate AllFaithful(db: Db, record: Record) {
    forall key :: Faithful(db, record, key)
  }

  lemma OwnIsFaithful(db: Db, record: Record, db': Db, f: Fact)
    requires Faithful(db, record, f.key)
    requires (View(db, f.key).Some? ==> |View(db, f.key).value.gates| == |View(db, f.key).value.attempts|)
    requires Stepped(View(db, f.key), f) == Ok(View(db', f.key)) && InTurn(View(db, f.key), f.payload)
    ensures Faithful(db', record[f.key := RecordOf(record, f.key) + [f]], f.key)
  {
    InitLast(RecordOf(record, f.key), f);
    StepKeepsOrder(View(db, f.key), f);
  }

  lemma OtherIsFaithful(db: Db, record: Record, db': Db, f: Fact, key: TaskKey)
    requires Faithful(db, record, key) && key != f.key && SameView(db, db', key)
    ensures Faithful(db', record[f.key := RecordOf(record, f.key) + [f]], key)
  {
  }

  lemma WriteIsFaithful(db: Db, record: Record, db': Db, f: Fact)
    requires WellFormed(db) && AllFaithful(db, record)
    requires Follows(db, Ok(db'), f.key, Stepped(View(db, f.key), f)) && InTurn(View(db, f.key), f.payload)
    ensures AllFaithful(db', record[f.key := RecordOf(record, f.key) + [f]])
  {
    var record' := record[f.key := RecordOf(record, f.key) + [f]];
    forall key ensures Faithful(db', record', key) {
      assert Faithful(db, record, key);
      if key == f.key {
        OwnIsFaithful(db, record, db', f);
      } else {
        OtherIsFaithful(db, record, db', f, key);
      }
    }
  }

  // ---------------------------------------------------------------------------
  // Where a spec text may say its file is

  const SPEC_TEXT_ORIGINS := ["revision", "follow_up", "draft"]
  const SPECS := ".saffron/specs/"

  predicate Alphanumeric(c: char) {
    'a' <= c <= 'z' || 'A' <= c <= 'Z' || '0' <= c <= '9'
  }

  predicate Slug(name: string) {
    name != [] && forall c :: c in name ==> Alphanumeric(c) || c in "._-"
  }

  // What the host puts before a file's own name: a follow-up's and a draft's are
  // named for the spec, a revision's is tied to none.
  function NamePrefix(origin: string, specId: string): string {
    if origin == "revision" then SPECS else SPECS + specId + "-"
  }

  // `_FOLLOW_UP_PATH` and `_REVISION_PATH`.
  predicate FitsPath(origin: string, specId: string, path: string) {
    var prefix := NamePrefix(origin, specId);
    && |prefix| + 3 < |path| && path[..|prefix|] == prefix && path[|path| - 3..] == ".md"
    && Slug(path[|prefix|..|path| - 3]) && (origin == "revision" ==> Alphanumeric(path[|prefix|]))
  }

  /** A path fits exactly when it is a name after the prefix and before `.md`. */
  lemma FitsIffNamed(origin: string, specId: string, path: string)
    ensures FitsPath(origin, specId, path) <==>
      exists name :: Slug(name) && (origin == "revision" ==> Alphanumeric(name[0]))
        && path == NamePrefix(origin, specId) + name + ".md"
  {
    var prefix := NamePrefix(origin, specId);
    if FitsPath(origin, specId, path) {
      var name := path[|prefix|..|path| - 3];
      assert path == prefix + name + ".md" && name[0] == path[|prefix|];
    }
    forall name | Slug(name) && (origin == "revision" ==> Alphanumeric(name[0])) && path == prefix + name + ".md"
      ensures FitsPath(origin, specId, path)
    {
      assert path[|prefix|..|path| - 3] == name && path[|path| - 3..] == ".md" && path[|prefix|] == name[0];
    }
  }

  class LiveLedger {
    var db: Db
    var record: Record

    constructor ()
      ensures Valid() && record == map[] && db == EMPTY_DB
    {
      db, record := EMPTY_DB, map[];
      new;
      forall key, id ensures Rooted(EMPTY_DB, key, id) {}
      forall key ensures Faithful(EMPTY_DB, map[], key) {}
    }

    /** Every task's rows are the replay of its record, however they came to be. */
    ghost predicate Valid()
      reads this
    {
      WellFormed(db) && AllFaithful(db, record)
    }

    // One fact more under its task's key.
    ghost predicate Wrote(before: Db, recordBefore: Record, f: Fact)
      reads this
    {
      && Stepped(View(before, f.key), f) == Ok(View(db, f.key))
      && record == recordBefore[f.key := RecordOf(recordBefore, f.key) + [f]]
      && forall other :: other != f.key ==> SameView(before, db, other)
    }

    /** Applies, commits, then appends. A fact that is refused leaves no row and
        no fact. */
    method CommitAndAppend(f: Fact) returns (refused: Option<Refusal>)
      requires Valid() && InTurn(View(db, f.key), f.payload)
      modifies this
      ensures Valid()
      ensures refused.Some? ==>
        db == old(db) && record == old(record) && Stepped(View(db, f.key), f) == Err(refused.value)
      ensures refused.Some? ==> Apply(old(db), f).Err?
      ensures refused.None? ==> Wrote(old(db), old(record), f) && Apply(old(db), f) == Ok(db)
    {
      ApplyFollows(db, db, f);
      var r := Apply(db, f);
      if r.Err? {
        return Some(r.error);
      }
      WriteIsFaithful(db, record, r.value, f);
      db := r.value;
      record := record[f.key := RecordOf(record, f.key) + [f]];
      refused := None;
    }

    /** One agent turn, numbered one past its phase's highest. No phase given is
        the task's own state. */
    method OpenAttempt(task: nat, phase: Option<string>, at: string) returns (attempt: Option<nat>)
      requires Valid()
      modifies this
      ensures Valid()
      ensures attempt.None? <==> Find(old(db).tasks, task).None?
      ensures attempt.None? ==> db == old(db) && record == old(record)
      ensures attempt.Some? ==>
        var row := Find(old(db).tasks, task).value;
        var named := if phase.Some? then phase.value else row.data.state;
        var before := Of(old(db).attempts, task);
        && FirstAt(before, named, NextNumber(before, named)).None?
        && Wrote(old(db), old(record), Fact(row.owner, at, AttemptOpened(named, NextNumber(before, named))))
        && db == old(db).(
          attempts := Insert(old(db).attempts, task, Attempt(named, NextNumber(before, named), at, None, None)))
        && attempt.value == NextId(old(db).attempts)
    {
      var found := Find(db.tasks, task);
      if found.None? {
        return None;
      }
      TaskRow(db, task);
      var key := found.value.owner;
      var named := if phase.Some? then phase.value else found.value.data.state;
      var n := NextNumber(Of(db.attempts, task), named);
      NextIsFree(Of(db.attempts, task), named, n);
      attempt := Some(NextId(db.attempts));
      var refused := CommitAndAppend(Fact(key, at, AttemptOpened(named, n)));
    }

    /** Closing an attempt by its id closes that attempt and no other. */
    method CloseAttempt(attempt: nat, closing: Closing, at: string) returns (found: bool)
      requires Valid()
      modifies this
      ensures Valid()
      ensures found == Find(old(db).attempts, attempt).Some?
      ensures !found ==> db == old(db) && record == old(record)
      ensures found ==>
        var data := Find(old(db).attempts, attempt).value.data;
        db == old(db).(attempts := SetData(old(db).attempts, attempt, data.(closed := Some(Closed(at, closing)))))
    {
      var row := Find(db.attempts, attempt);
      if row.None? {
        return false;
      }
      ghost var key, j := AttemptRow(db, attempt);
      assert Faithful(db, record, key);
      FirstIsIt(View(db, key).value.attempts, j);
      NamedAttempt(db, key, row.value.data.phase, row.value.data.n);
      var owner := Find(db.tasks, row.value.owner).value.owner;
      var refused := CommitAndAppend(Fact(owner, at, AttemptClosed(row.value.data.phase, row.value.data.n, closing)));
      found := true;
    }

    /** A gate result lands on the attempt it names with the failures its baseline
        does not cancel, and an earned risk with it. Without a baseline passed,
        an empty one included, the run's own stored one is what is subtracted. */
    method RecordGateResult(attempt: nat, norm: Normal, result: Gate, baseline: Option<seq<Gate>>, stored: seq<Gate>,
                            earnedRisk: Option<string>, at: string) returns (found: bool)
      requires Valid()
      modifies this
      ensures Valid()
      ensures found == Find(old(db).attempts, attempt).Some?
      ensures !found ==> db == old(db) && record == old(record)
      ensures found ==>
        var data := Find(old(db).attempts, attempt).value.data;
        db == old(db).(
          gates := Insert(old(db).gates, Some(attempt),
                          OnlyNew(norm, result, if baseline.Some? then baseline.value else stored)),
          attempts := SetData(old(db).attempts, attempt, Risked(data, earnedRisk)))
    {
      var row := Find(db.attempts, attempt);
      if row.None? {
        return false;
      }
      ghost var key, j := AttemptRow(db, attempt);
      assert Faithful(db, record, key);
      FirstIsIt(View(db, key).value.attempts, j);
      NamedAttempt(db, key, row.value.data.phase, row.value.data.n);
      var owner := Find(db.tasks, row.value.owner).value.owner;
      var new_ := SubtractBaseline(norm, [result], if baseline.Some? then baseline.value else stored);
      var kept := result.(failures := FailuresOf(new_), failuresAtHead := Some(|result.failures|));
      var refused := CommitAndAppend(Fact(owner, at,
                                          GateResult(row.value.data.phase, row.value.data.n, kept, earnedRisk)));
      found := true;
    }

    /** A rebuttal counts its finding's position and lands on that finding. */
    method RecordRebuttal(finding: nat, verdict: Option<string>, rebuttal: Option<string>, at: string)
      returns (found: bool)
      requires Valid()
      modifies this
      ensures Valid()
      ensures found == Find(old(db).findings, finding).Some?
      ensures !found ==> db == old(db) && record == old(record)
      ensures found ==>
        var data := Find(old(db).findings, finding).value.data;
        db == old(db).(findings := SetData(old(db).findings, finding, Rebutted(data, verdict, rebuttal)))
    {
      var row := Find(db.findings, finding);
      if row.None? {
        return false;
      }
      RebuttalApplies(db, finding, verdict, rebuttal, at);
      var owner := Find(db.tasks, row.value.owner).value.owner;
      var position := CountUpTo(db.findings, row.value.owner, finding);
      var refused := CommitAndAppend(Fact(owner, at, Rebuttal(position, verdict, rebuttal)));
      found := true;
    }

    // `_build_fact` and its write, against a task by its id.
    method WriteOn(task: nat, payload: Payload, at: string) returns (refused: Option<Refusal>)
      requires Valid() && (Find(db.tasks, task).Some? ==> InTurn(View(db, Find(db.tasks, task).value.owner), payload))
      requires !payload.TaskCreated?
      modifies this
      ensures Valid()
      ensures refused.Some? ==> db == old(db) && record == old(record)
      ensures Find(old(db).tasks, task).None? ==> refused == Some(NO_TASK)
      ensures Find(old(db).tasks, task).Some? && refused.Some? ==>
        Stepped(View(old(db), Find(old(db).tasks, task).value.owner),
                Fact(Find(old(db).tasks, task).value.owner, at, payload)) == Err(refused.value)
      ensures refused.None? ==> Wrote(old(db), old(record), Fact(Find(old(db).tasks, task).value.owner, at, payload))
      ensures refused.None? ==> View(old(db), Find(old(db).tasks, task).value.owner).Some?
      ensures refused.None? ==>
        Apply(old(db), Fact(Find(old(db).tasks, task).value.owner, at, payload)) == Ok(db)
    {
      var row := Find(db.tasks, task);
      if row.None? {
        return Some(NO_TASK);
      }
      TaskRow(db, task);
      refused := CommitAndAppend(Fact(row.value.owner, at, payload));
    }

    /** A task minted under a key no task holds. */
    method CreateTask(key: TaskKey, created: Payload, at: string) returns (task: Option<nat>)
      requires Valid() && created.TaskCreated?
      modifies this
      ensures Valid()
      ensures task.None? <==> View(old(db), key).Some?
      ensures task.None? ==> db == old(db) && record == old(record)
      ensures task.Some? ==>
        && Wrote(old(db), old(record), Fact(key, at, created))
        && db == old(db).(tasks := Insert(old(db).tasks, key, NewTask(at, created)))
        && task.value == NextId(old(db).tasks)
        && Find(db.tasks, task.value) == Some(Row(task.value, key, NewTask(at, created)))
    {
      task := Some(NextId(db.tasks));
      InitLast(db.tasks, Row(NextId(db.tasks), key, NewTask(at, created)));
      var refused := CommitAndAppend(Fact(key, at, created));
      if refused.Some? {
        task := None;
      }
    }

    /** The state, and the spend rolled up from the task's own closed attempts. */
    method SetTaskState(task: nat, state: string, at: string) returns (refused: Option<Refusal>)
      requires Valid()
      modifies this
      ensures Valid()
      ensures refused.Some? <==> Find(old(db).tasks, task).None?
      ensures refused.Some? ==> db == old(db) && record == old(record)
      ensures refused.None? ==>
        var key := Find(old(db).tasks, task).value.owner; var v := Told(old(db), task);
        && View(db, key) == Some(v.(task := v.task.(state := state, updatedAt := at, spent := Spent(v.attempts))))
        && db == old(db).(tasks := SetData(old(db).tasks, task, v.task.(state := state, updatedAt := at,
                                                                        spent := Spent(v.attempts))))
    {
      if Find(db.tasks, task).Some? { TaskRow(db, task); }
      refused := WriteOn(task, TaskState(state), at);
    }

    /** The push, and the state it landed in: the row's own, before this write. */
    method RecordPush(task: nat, sha: string, at: string) returns (refused: Option<Refusal>)
      requires Valid()
      modifies this
      ensures Valid()
      ensures refused.Some? <==> Find(old(db).tasks, task).None?
      ensures refused.None? ==>
        var key := Find(old(db).tasks, task).value.owner; var v := Told(old(db), task);
        View(db, key) == Some(v.(task := v.task.(pushedSha := Some(sha),
                                                 pushedInState := Some(Find(old(db).tasks, task).value.data.state),
                                                 updatedAt := at)))
    {
      if Find(db.tasks, task).Some? { TaskRow(db, task); }
      refused := WriteOn(task, TaskPush(sha), at);
    }

    /** A pull request made by hand changes the url, the state it is pushed in and
        the spend, and carries the rest of the row over. */
    method AdoptPullRequest(task: nat, prUrl: string, at: string) returns (refused: Option<Refusal>)
      requires Valid()
      modifies this
      ensures Valid()
      ensures refused.Some? <==> Find(old(db).tasks, task).None?
      ensures refused.None? ==>
        var key := Find(old(db).tasks, task).value.owner; var v := Told(old(db), task);
        View(db, key) == Some(v.(task := v.task.(prUrl := Some(prUrl), pushedInState := Some(v.task.state),
                                                 spent := Spent(v.attempts), updatedAt := at)))
    {
      var row := Find(db.tasks, task);
      if row.None? {
        return Some(NO_TASK);
      }
      TaskRow(db, task);
      var data := row.value.data;
      refused := WriteOn(task, TaskPackage(data.state, data.branch, data.pushedSha, Some(prUrl), data.added,
                                           data.removed), at);
    }

    /** A layer is filed under its own key, with its predecessor's key and pushed
        head as they stand now. A task is a layer at most once. */
    method RecordStackLayer(task: nat, position: nat, predecessor: Option<nat>, generation: nat, batch: Option<string>,
                            at: string)
      returns (refused: Option<Refusal>)
      requires Valid()
      modifies this
      ensures Valid()
      ensures refused.Some? ==> db == old(db) && record == old(record)
      ensures Find(old(db).tasks, task).None? || (predecessor.Some? && Find(old(db).tasks, predecessor.value).None?) ==>
        refused == Some(NO_TASK)
      ensures refused.None? ==>
        var row := Find(old(db).tasks, task).value; var v := Told(old(db), task);
        var below := if predecessor.None? then None else Find(old(db).tasks, predecessor.value);
        && !HasSlot(v.entries, LayerSlot)
        && db == old(db).(entries := Insert(old(db).entries, row.owner, StackLayer(batch, position, row.data.specId,
          if below.Some? then Some(below.value.owner) else None,
          if below.Some? then below.value.data.pushedSha else None, generation)))
        && View(db, row.owner) == Some(v.(entries := v.entries + [StackLayer(batch, position, row.data.specId,
          if below.Some? then Some(below.value.owner) else None,
          if below.Some? then below.value.data.pushedSha else None, generation)]))
    {
      var row := Find(db.tasks, task);
      if row.None? {
        return Some(NO_TASK);
      }
      TaskRow(db, task);
      var below := None;
      if predecessor.Some? {
        below := Find(db.tasks, predecessor.value);
        if below.None? {
          return Some(NO_TASK);
        }
      }
      refused := WriteOn(task, Filed(StackLayer(batch, position, row.value.data.specId,
        if below.Some? then Some(below.value.owner) else None,
        if below.Some? then below.value.data.pushedSha else None, generation)), at);
    }

    /** One lens's outcome against a layer, at most once for each lens. */
    method RecordEndReview(task: nat, lens: string, status: string, cost: real, error: Option<string>, at: string)
      returns (refused: Option<Refusal>)
      requires Valid()
      modifies this
      ensures Valid()
      ensures refused.Some? ==> db == old(db) && record == old(record)
      ensures refused.None? <==>
        && Find(old(db).tasks, task).Some?
        && !HasSlot(Of(old(db).entries, Find(old(db).tasks, task).value.owner), LensSlot(lens))
      ensures refused.None? ==>
        db == old(db).(entries := Insert(old(db).entries, Find(old(db).tasks, task).value.owner,
                                         EndReview(lens, status, cost, error)))
    {
      if Find(db.tasks, task).Some? { TaskRow(db, task); }
      refused := WriteOn(task, Filed(EndReview(lens, status, cost, error)), at);
    }

    /** A spec text, numbered one past the task's own: refused exactly for an
        unknown origin, a task that does not carry the spec id, or a path its
        origin does not allow. */
    method RecordSpecText(task: nat, origin: string, specId: string, path: string, text: string, sha: string,
                          at: string) returns (n: Option<nat>)
      requires Valid()
      modifies this
      ensures Valid()
      ensures n.Some? <==>
        && origin in SPEC_TEXT_ORIGINS && FitsPath(origin, specId, path)
        && Find(old(db).tasks, task).Some? && Find(old(db).tasks, task).value.data.specId == specId
      ensures n.None? ==> db == old(db) && record == old(record)
      ensures n.Some? ==>
        var key := Find(old(db).tasks, task).value.owner; var v := Told(old(db), task);
        && n.value == CountKind(v.entries, TextKind) + 1
        && View(db, key) == Some(v.(entries := v.entries + [SpecText(n.value, origin, specId, path, text, sha)]))
    {
      n := None;
      var row := Find(db.tasks, task);
      if origin in SPEC_TEXT_ORIGINS && row.Some? && row.value.data.specId == specId && FitsPath(origin, specId, path) {
        var number := FileText(task, origin, specId, path, text, sha, at);
        n := Some(number);
      }
    }

    // The text of a task's own spec, at the next number.
    method FileText(task: nat, origin: string, specId: string, path: string, text: string, sha: string, at: string)
      returns (number: nat)
      requires Valid() && Find(db.tasks, task).Some? && Find(db.tasks, task).value.data.specId == specId
      modifies this
      ensures Valid()
      ensures var key := Find(old(db).tasks, task).value.owner; var v := Told(old(db), task);
        && number == CountKind(v.entries, TextKind) + 1
        && View(db, key) == Some(v.(entries := v.entries + [SpecText(number, origin, specId, path, text, sha)]))
    {
      var row := Find(db.tasks, task);
      TaskRow(db, task);
      assert Faithful(db, record, row.value.owner);
      number := CountKind(Of(db.entries, row.value.owner), TextKind) + 1;
      var entry := SpecText(number, origin, specId, path, text, sha);
      NextSlotIsFree(Of(db.entries, row.value.owner), entry);
      var refused := WriteOn(task, Filed(entry), at);
    }

    // One finding, at the next position.
    method RecordFinding(task: nat, finding: Finding, at: string) returns (id: nat)
      requires Valid() && Find(db.tasks, task).Some?
      modifies this
      ensures Valid() && db == old(db).(findings := Insert(old(db).findings, task, Rebutted(finding, None, None)))
      ensures Of(db.findings, task) == Of(old(db).findings, task) + [Rebutted(finding, None, None)]
      ensures IdsOf(db.findings, task) == IdsOf(old(db).findings, task) + [id]
    {
      var fact := Fact(Find(db.tasks, task).value.owner, at, FindingFact(|Of(db.findings, task)| + 1, finding));
      id := NextId(db.findings);
      FindingApplies(db, task, fact);
      InsertOf(db.findings, task, Rebutted(finding, None, None), task);
      var refused := CommitAndAppend(fact);
    }

    /** A review's findings, each at the next position, in the order given. */
    method RecordFindings(task: nat, findings: seq<Finding>, at: string) returns (ids: Option<seq<nat>>)
      requires Valid()
      modifies this
      ensures Valid()
      ensures ids.None? <==> Find(old(db).tasks, task).None? && findings != []
      ensures ids.None? ==> db == old(db) && record == old(record)
      ensures ids.Some? && findings != [] ==>
        && db == old(db).(findings := db.findings)
        && Of(db.findings, task) == Of(old(db).findings, task) + Unjudged(findings)
        && IdsOf(db.findings, task) == IdsOf(old(db).findings, task) + ids.value
    {
      ids := Some([]);
      if findings == [] {
        return;
      }
      if Find(db.tasks, task).None? {
        return None;
      }
      for i := 0 to |findings|
        invariant Valid() && ids.Some? && db == old(db).(findings := db.findings)
        invariant Of(db.findings, task) == Of(old(db).findings, task) + Unjudged(findings[..i])
        invariant IdsOf(db.findings, task) == IdsOf(old(db).findings, task) + ids.value
      {
        TakeNext(findings, i);
        InitLast(findings[..i], findings[i]);
        Associates(Of(old(db).findings, task), Unjudged(findings[..i]), [Rebutted(findings[i], None, None)]);
        var id := RecordFinding(task, findings[i], at);
        Associates(IdsOf(old(db).findings, task), ids.value, [id]);
        ids := Some(ids.value + [id]);
      }
      TakeAll(findings);
    }

    /** The whole task rebuilt from its facts in one go. Folding the record itself
        changes nothing any task says of itself. */
    method FoldTask(key: TaskKey, facts: seq<Fact>) returns (refused: Option<Refusal>)
      requires Valid() && Under(facts, key)
      modifies this
      ensures WellFormed(db) && record == old(record)
      ensures refused.Some? <==> Replay(facts).Err?
      ensures refused.Some? ==> db == old(db)
      ensures refused.None? ==>
        Replay(facts) == Ok(View(db, key)) && forall other :: other != key ==> SameView(old(db), db, other)
      ensures facts == RecordOf(record, key) ==> refused.None? && Valid() && forall any :: SameView(old(db), db, any)
    {
      assert Faithful(db, record, key);
      FoldReplays(db, key, facts);
      var r := Fold(db, key, facts);
      if r.Err? {
        return Some(r.error);
      }
      ghost var before := db;
      db, refused := r.value, None;
      if facts == RecordOf(record, key) {
        forall any ensures SameView(before, db, any) && Faithful(db, record, any) {
          assert Faithful(before, record, any);
          assert any != key ==> SameView(before, db, any);
        }
      }
    }
  }

  // A finding at the next position is never refused.
  lemma FindingApplies(db: Db, task: nat, f: Fact)
    requires WellFormed(db) && Find(db.tasks, task).Some? && f.key == Find(db.tasks, task).value.owner
    requires f.payload.FindingFact? && f.payload.position == |Of(db.findings, task)| + 1
    ensures Apply(db, f) == Ok(db.(findings := Insert(db.findings, task, Rebutted(f.payload.finding, None, None))))
    ensures Stepped(View(db, f.key), f).Ok?
  {
    TaskRow(db, task);
  }

  function Unjudged(findings: seq<Finding>): seq<Finding> {
    if findings == [] then [] else
      Unjudged(findings[..|findings| - 1]) + [Rebutted(findings[|findings| - 1], None, None)]
  }
}
