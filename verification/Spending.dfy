/** What the driver's own ledger of charges is of the rows: `batch_spend` and
    `batch_phase_spend` of saffron/ledger.py over the attempts and end reviews of
    one batch, kept equal to the driver's sums by every write it makes. */
module Spending {
  import opened Wrappers
  import opened Lists
  import opened Tables
  import opened Facts
  import opened Ledger
  import opened Writes
  import SpendBook

  // The phase an attempt is summed under. Any other is the cell's own.
  function PhaseOf(name: string): SpendBook.Phase {
    if name == "SPEC_REVIEW" then SpendBook.SPEC_REVIEW
    else if name == "SPEC_WRITING" then SpendBook.SPEC_WRITING
    else SpendBook.CELL
  }

  // `COALESCE(cost_usd_est, 0)` of one attempt, when it is of the phase asked for.
  function UsdOf(a: Attempt, phase: Option<SpendBook.Phase>): real {
    if a.closed.Some? && (phase.None? || PhaseOf(a.phase) == phase.value) then a.closed.value.closing.cost else 0.0
  }

  function SpendTo(t: seq<Row<nat, Attempt>>, n: nat, tasks: set<nat>, phase: Option<SpendBook.Phase>): real
    requires n <= |t|
  {
    if n == 0 then 0.0 else
      SpendTo(t, n - 1, tasks, phase) + (if t[n - 1].owner in tasks then UsdOf(t[n - 1].data, phase) else 0.0)
  }

  // The attempts of some tasks, in one phase or in all of them.
  function RowSpend(t: seq<Row<nat, Attempt>>, tasks: set<nat>, phase: Option<SpendBook.Phase>): real {
    SpendTo(t, |t|, tasks, phase)
  }

  // One end review's cost for each row that makes its task a layer of the batch.
  function JoinTo(entries: seq<Row<TaskKey, Entry>>, n: nat, key: TaskKey, batch: string, cost: real): real
    requires n <= |entries|
  {
    if n == 0 then 0.0 else
      JoinTo(entries, n - 1, key, batch, cost) + (if LayerAt(entries[n - 1], key, batch) then cost else 0.0)
  }

  predicate LayerAt(row: Row<TaskKey, Entry>, key: TaskKey, batch: string) {
    row.owner == key && row.data.StackLayer? && row.data.batch == Some(batch)
  }

  function EndsTo(entries: seq<Row<TaskKey, Entry>>, n: nat, batch: string): real
    requires n <= |entries|
  {
    if n == 0 then 0.0 else
      var row := entries[n - 1];
      EndsTo(entries, n - 1, batch)
        + (if row.data.EndReview? then JoinTo(entries, |entries|, row.owner, batch, row.data.cost) else 0.0)
  }

  // `end_reviews e JOIN stack_layers sl ON sl.task_key = e.task_key`.
  function EndSpend(entries: seq<Row<TaskKey, Entry>>, batch: string): real {
    EndsTo(entries, |entries|, batch)
  }

  // ---------------------------------------------------------------------------
  // Attempts

  lemma {:induction false} SpendBefore(a: seq<Row<nat, Attempt>>, b: seq<Row<nat, Attempt>>, n: nat, tasks: set<nat>,
                                       phase: Option<SpendBook.Phase>)
    requires n <= |a|
    ensures SpendTo(a + b, n, tasks, phase) == SpendTo(a, n, tasks, phase)
  {
    if n > 0 {
      SpendBefore(a, b, n - 1, tasks, phase);
    }
  }

  // An attempt just opened has cost nothing.
  lemma OpenCostsNothing(t: seq<Row<nat, Attempt>>, task: nat, a: Attempt, tasks: set<nat>,
                         phase: Option<SpendBook.Phase>)
    requires a.closed.None?
    ensures RowSpend(Insert(t, task, a), tasks, phase) == RowSpend(t, tasks, phase)
  {
    SpendBefore(t, [Row(NextId(t), task, a)], |t|, tasks, phase);
  }

  lemma {:induction false} SpendChanged(t: seq<Row<nat, Attempt>>, k: nat, a: Attempt, n: nat, tasks: set<nat>,
                                        phase: Option<SpendBook.Phase>)
    requires k < |t| && n <= |t|
    ensures SpendTo(t[k := t[k].(data := a)], n, tasks, phase) == SpendTo(t, n, tasks, phase)
      + (if k < n && t[k].owner in tasks then UsdOf(a, phase) - UsdOf(t[k].data, phase) else 0.0)
  {
    if n > 0 {
      SpendChanged(t, k, a, n - 1, tasks, phase);
    }
  }

  // An update by id changes the one row found under it.
  lemma {:induction false} SetDataIs<O, T>(t: seq<Row<O, T>>, id: nat, data: T) returns (k: nat)
    requires Sorted(t) && Find(t, id).Some?
    ensures k < |t| && Find(t, id) == Some(t[k]) && SetData(t, id, data) == t[k := t[k].(data := data)]
  {
    var init, last := t[..|t| - 1], t[|t| - 1];
    assert t == init + [last];
    if last.id == id {
      k := |t| - 1;
      if id in Tables.Ids(init) { IdsBelow(init, id); }
      SetDataKeeps(init, id, data, last.owner);
      UpdateLast(init, last, last.(data := data));
    } else {
      k := SetDataIs(init, id, data);
      UpdateLeft(init, [last], k, init[k].(data := data));
    }
  }

  // Closing an open attempt adds what it cost to its own task.
  lemma ClosingCosts(t: seq<Row<nat, Attempt>>, attempt: nat, closed: Closed, tasks: set<nat>,
                     phase: Option<SpendBook.Phase>)
    requires Sorted(t) && Find(t, attempt).Some? && Find(t, attempt).value.data.closed.None?
    ensures var row := Find(t, attempt).value; var a := row.data.(closed := Some(closed));
      RowSpend(SetData(t, attempt, a), tasks, phase)
        == RowSpend(t, tasks, phase) + (if row.owner in tasks then UsdOf(a, phase) else 0.0)
  {
    var a := Find(t, attempt).value.data.(closed := Some(closed));
    var k := SetDataIs(t, attempt, a);
    SpendChanged(t, k, a, |t|, tasks, phase);
  }

  // ---------------------------------------------------------------------------
  // End reviews

  lemma {:induction false} JoinBefore(a: seq<Row<TaskKey, Entry>>, b: seq<Row<TaskKey, Entry>>, n: nat, key: TaskKey,
                                      batch: string, cost: real)
    requires n <= |a|
    ensures JoinTo(a + b, n, key, batch, cost) == JoinTo(a, n, key, batch, cost)
  {
    if n > 0 {
      JoinBefore(a, b, n - 1, key, batch, cost);
    }
  }

  // One more row, which makes no task with an end review a layer of the batch.
  lemma {:induction false} EndsMore(a: seq<Row<TaskKey, Entry>>, row: Row<TaskKey, Entry>, n: nat, batch: string)
    requires n <= |a|
    requires forall k :: 0 <= k < n && a[k].data.EndReview? ==> !LayerAt(row, a[k].owner, batch)
    ensures EndsTo(a + [row], n, batch) == EndsTo(a, n, batch)
  {
    if n > 0 {
      EndsMore(a, row, n - 1, batch);
      JoinBefore(a, [row], |a|, a[n - 1].owner, batch, if a[n - 1].data.EndReview? then a[n - 1].data.cost else 0.0);
    }
  }

  // No two rows make one task a layer.
  ghost predicate OnceAt(entries: seq<Row<TaskKey, Entry>>, i: nat, j: nat) {
    i < j < |entries| && entries[i].data.StackLayer? && entries[j].data.StackLayer? ==>
      entries[i].owner != entries[j].owner
  }

  ghost predicate LayersOnce(entries: seq<Row<TaskKey, Entry>>) {
    forall i: nat, j: nat :: OnceAt(entries, i, j)
  }

  ghost predicate IsLayer(entries: seq<Row<TaskKey, Entry>>, n: nat, key: TaskKey, batch: string) {
    n <= |entries| && exists i :: 0 <= i < n && LayerAt(entries[i], key, batch)
  }

  /** A task is a layer at most once, so the join counts each end review of the
      batch's own layers once, and no other. */
  lemma {:induction false} JoinIs(entries: seq<Row<TaskKey, Entry>>, n: nat, key: TaskKey, batch: string, cost: real)
    requires n <= |entries| && LayersOnce(entries)
    ensures JoinTo(entries, n, key, batch, cost) == if IsLayer(entries, n, key, batch) then cost else 0.0
  {
    if n > 0 {
      var last := n - 1;
      JoinIs(entries, last, key, batch, cost);
      if LayerAt(entries[last], key, batch) {
        forall i: nat | i < last ensures !LayerAt(entries[i], key, batch) { assert OnceAt(entries, i, last); }
      }
    }
  }

  // Only a layer has an end review.
  ghost predicate LayeredAt(entries: seq<Row<TaskKey, Entry>>, k: nat) {
    k < |entries| && entries[k].data.EndReview? ==>
      exists i :: 0 <= i < |entries| && entries[i].data.StackLayer? && entries[i].owner == entries[k].owner
  }

  ghost predicate EndsLayered(entries: seq<Row<TaskKey, Entry>>) {
    forall k: nat :: LayeredAt(entries, k)
  }

  // A slot nothing is filed in has no row.
  lemma {:induction false} NoLayer(entries: seq<Row<TaskKey, Entry>>, key: TaskKey, i: nat)
    requires !HasSlot(Of(entries, key), LayerSlot) && i < |entries|
    ensures entries[i].owner == key ==> !entries[i].data.StackLayer?
  {
    var init, last := entries[..|entries| - 1], entries[|entries| - 1];
    assert entries == init + [last];
    Grown(init, last, key);
    if last.owner == key { InitLast(Of(init, key), last.data); }
    if i < |init| { NoLayer(init, key, i); }
  }

  lemma LayersGrow(entries: seq<Row<TaskKey, Entry>>, row: Row<TaskKey, Entry>)
    requires LayersOnce(entries) && EndsLayered(entries)
    requires row.data.StackLayer? ==> !HasSlot(Of(entries, row.owner), LayerSlot)
    requires row.data.EndReview? ==> exists batch :: IsLayer(entries, |entries|, row.owner, batch)
    ensures LayersOnce(entries + [row]) && EndsLayered(entries + [row])
  {
    var grown := entries + [row];
    forall i: nat, j: nat ensures OnceAt(grown, i, j) {
      assert OnceAt(entries, i, j);
      if i < |entries| && j == |entries| && row.data.StackLayer? { NoLayer(entries, row.owner, i); }
    }
    forall k: nat ensures LayeredAt(grown, k) {
      assert LayeredAt(entries, k);
      if k < |entries| && entries[k].data.EndReview? {
        var i :| 0 <= i < |entries| && entries[i].data.StackLayer? && entries[i].owner == entries[k].owner;
        assert grown[i].data.StackLayer?;
      }
      if k == |entries| && row.data.EndReview? {
        var batch :| IsLayer(entries, |entries|, row.owner, batch);
        var i :| 0 <= i < |entries| && LayerAt(entries[i], row.owner, batch);
        assert grown[i].data.StackLayer?;
      }
    }
  }

  // An end review of the batch's own layer adds its cost.
  lemma EndAdds(entries: seq<Row<TaskKey, Entry>>, row: Row<TaskKey, Entry>, batch: string)
    requires LayersOnce(entries) && row.data.EndReview? && IsLayer(entries, |entries|, row.owner, batch)
    ensures EndSpend(entries + [row], batch) == EndSpend(entries, batch) + row.data.cost
  {
    EndsMore(entries, row, |entries|, batch);
    JoinBefore(entries, [row], |entries|, row.owner, batch, row.data.cost);
    JoinIs(entries, |entries|, row.owner, batch, row.data.cost);
  }

  // A new layer has no end review yet.
  lemma LayerAddsNothing(entries: seq<Row<TaskKey, Entry>>, row: Row<TaskKey, Entry>, batch: string)
    requires EndsLayered(entries) && row.data.StackLayer? && !HasSlot(Of(entries, row.owner), LayerSlot)
    ensures EndSpend(entries + [row], batch) == EndSpend(entries, batch)
  {
    forall k | 0 <= k < |entries| && entries[k].data.EndReview? ensures !LayerAt(row, entries[k].owner, batch) {
      assert LayeredAt(entries, k);
      var i :| 0 <= i < |entries| && entries[i].data.StackLayer? && entries[i].owner == entries[k].owner;
      NoLayer(entries, row.owner, i);
    }
    EndsMore(entries, row, |entries|, batch);
  }

  // ---------------------------------------------------------------------------
  // The driver's ledger, and the rows behind it

  // Which task's row each of the driver's tasks is.
  type Numbering = map<nat, nat>

  ghost predicate NumbersAt(db: Db, number: Numbering, tasks: nat, a: nat, b: nat) {
    && (a in number <==> 1 <= a <= tasks) && (a in number ==> number[a] in Tables.Ids(db.tasks))
    && (a in number && b in number && number[a] == number[b] ==> a == b)
  }

  ghost predicate Numbers(db: Db, number: Numbering, tasks: nat) {
    forall a, b :: NumbersAt(db, number, tasks, a, b)
  }

  function Rows(number: Numbering, tasks: set<nat>): set<nat> {
    set t | t in tasks && t in number :: number[t]
  }

  ghost predicate BackedAt(db: Db, number: Numbering, book: SpendBook.Book, tasks: set<nat>,
                           phase: Option<SpendBook.Phase>)
  {
    RowSpend(db.attempts, Rows(number, tasks), phase) == SpendBook.Attached(book.charges, tasks, phase)
  }

  // Whatever tasks and phase are asked about, the rows add up to the charges, and
  // the end reviews of the batch to those it filed.
  ghost predicate Backs(db: Db, number: Numbering, batch: string, book: SpendBook.Book) {
    && Numbers(db, number, book.tasks) && (forall tasks, phase :: BackedAt(db, number, book, tasks, phase))
    && LayersOnce(db.entries) && EndsLayered(db.entries)
    && EndSpend(db.entries, batch) == SpendBook.ReviewCost(book.endReviews)
  }

  // `batch_spend`, over the attempts of the batch's attached tasks.
  function BatchSpend(db: Db, attached: set<nat>, batch: string): real {
    RowSpend(db.attempts, attached, None) + EndSpend(db.entries, batch)
  }

  // `writer_left`, over those of one phase.
  function WriterLeft(db: Db, attached: set<nat>, share: real): real {
    SpendBook.Max(0.0, share - RowSpend(db.attempts, attached, Some(SpendBook.SPEC_WRITING)))
  }

  /** What the driver reads as spent, and as left of the writer's share, is what the
      rows add up to; with every charge attached it is all that was ever charged, so
      a bound on that is one on the rows. */
  lemma RowsAreSpend(db: Db, number: Numbering, batch: string, book: SpendBook.Book, share: real)
    requires Backs(db, number, batch, book)
    ensures BatchSpend(db, Rows(number, book.attached), batch) == book.BatchSpend()
    ensures WriterLeft(db, Rows(number, book.attached), share) == book.WriterLeft(share)
    ensures book.Complete() ==> BatchSpend(db, Rows(number, book.attached), batch) == book.Total()
  {
    assert BackedAt(db, number, book, book.attached, None);
    assert BackedAt(db, number, book, book.attached, Some(SpendBook.SPEC_WRITING));
  }

  /** A ledger with nothing in it backs a batch that has done nothing. */
  lemma NothingBacked(db: Db, batch: string)
    requires db == EMPTY_DB
    ensures Backs(db, map[], batch, SpendBook.EMPTY_BOOK)
  {
    forall a, b ensures NumbersAt(db, map[], 0, a, b) {
    }
    forall tasks, phase ensures BackedAt(db, map[], SpendBook.EMPTY_BOOK, tasks, phase) {
    }
    forall i: nat, j: nat ensures OnceAt(db.entries, i, j) && LayeredAt(db.entries, i) {
    }
  }

  lemma {:induction false} NoneOf(t: seq<Row<nat, Attempt>>, n: nat, tasks: set<nat>, x: nat,
                                  phase: Option<SpendBook.Phase>)
    requires n <= |t| && forall i :: 0 <= i < n ==> t[i].owner != x
    ensures SpendTo(t, n, tasks + {x}, phase) == SpendTo(t, n, tasks, phase)
  {
    if n > 0 {
      NoneOf(t, n - 1, tasks, x, phase);
    }
  }

  lemma {:induction false} OwnerAt<O, T>(t: seq<Row<O, T>>, i: nat)
    requires i < |t|
    ensures t[i].owner in Owners(t)
  {
    if i < |t| - 1 { OwnerAt(t[..|t| - 1], i); }
  }

  /** A task minted for the batch: nothing is charged to it yet. */
  method Mint(ledger: LiveLedger, key: TaskKey, created: Payload, at: string, ghost number: Numbering,
              ghost batch: string, ghost book: SpendBook.Book)
    returns (task: Option<nat>, ghost number': Numbering)
    requires ledger.Valid() && created.TaskCreated? && book.Valid() && Backs(ledger.db, number, batch, book)
    modifies ledger
    ensures ledger.Valid() && (task.None? <==> View(old(ledger.db), key).Some?)
    ensures if task.None? then ledger.db == old(ledger.db)
            else number' == number[book.tasks + 1 := task.value] && Backs(ledger.db, number', batch, book.Mint())
  {
    ghost var db := ledger.db;
    task := ledger.CreateTask(key, created, at);
    number' := number;
    if task.Some? {
      number' := number[book.tasks + 1 := task.value];
      MintBacks(db, ledger.db, number, batch, book);
    }
  }

  lemma MintBacks(db: Db, db': Db, number: Numbering, batch: string, book: SpendBook.Book)
    requires WellFormed(db) && book.Valid() && Backs(db, number, batch, book)
    requires exists key, data :: db' == db.(tasks := Insert(db.tasks, key, data))
    ensures Backs(db', number[book.tasks + 1 := NextId(db.tasks)], batch, book.Mint())
  {
    var key, data :| db' == db.(tasks := Insert(db.tasks, key, data));
    var t, next := book.tasks + 1, NextId(db.tasks);
    var number' := number[t := next];
    InsertSorted(db.tasks, key, data);
    InsertOf(db.tasks, key, data, key);
    forall a, b ensures NumbersAt(db', number', t, a, b) {
      assert NumbersAt(db, number, book.tasks, a, b) && NumbersAt(db, number, book.tasks, b, a);
    }
    forall i | 0 <= i < |db.attempts| ensures db.attempts[i].owner != next {
      OwnerAt(db.attempts, i);
      assert Rooted(db, "", next);
    }
    forall tasks, phase ensures BackedAt(db', number', book.Mint(), tasks, phase) {
      assert BackedAt(db, number, book, tasks, phase) && NumbersAt(db, number, book.tasks, t, t);
      NoneOf(db.attempts, |db.attempts|, Rows(number, tasks), next, phase);
      RowsNext(number, tasks, t, next);
    }
  }

  lemma RowsNext(number: Numbering, tasks: set<nat>, t: nat, next: nat)
    requires t !in number
    ensures Rows(number[t := next], tasks) == if t in tasks then Rows(number, tasks) + {next} else Rows(number, tasks)
  {
    var number', before := number[t := next], Rows(number, tasks);
    forall x | x in before ensures x in Rows(number', tasks) {
      var y :| y in tasks && y in number && number[y] == x;
      assert number'[y] == x;
    }
    if t in tasks { assert number'[t] == next; }
  }

  lemma {:induction false} AttachedBefore(a: seq<SpendBook.Charge>, b: seq<SpendBook.Charge>, n: nat, tasks: set<nat>,
                                          phase: Option<SpendBook.Phase>)
    requires n <= |a|
    ensures SpendBook.AttachedTo(a + b, n, tasks, phase) == SpendBook.AttachedTo(a, n, tasks, phase)
  {
    if n > 0 {
      AttachedBefore(a, b, n - 1, tasks, phase);
    }
  }

  lemma AttachedNext(charges: seq<SpendBook.Charge>, c: SpendBook.Charge, tasks: set<nat>,
                     phase: Option<SpendBook.Phase>)
    ensures SpendBook.Attached(charges + [c], tasks, phase) == SpendBook.Attached(charges, tasks, phase)
      + (if c.task in tasks && SpendBook.InPhase(c, phase) then c.cost else 0.0)
  {
    AttachedBefore(charges, [c], |charges|, tasks, phase);
  }

  /** One session, opened and closed as an attempt of its task: one charge more. */
  method ChargeSession(ledger: LiveLedger, task: nat, phase: string, closing: Closing, at: string,
                       ghost number: Numbering, ghost batch: string, ghost book: SpendBook.Book, ghost t: nat)
    requires ledger.Valid() && book.Valid() && Backs(ledger.db, number, batch, book)
    requires t in number && number[t] == task
    modifies ledger
    ensures ledger.Valid() && t <= book.tasks
    ensures Backs(ledger.db, number, batch, book.AddCharge(t, PhaseOf(phase), closing.cost))
  {
    ghost var db := ledger.db;
    assert NumbersAt(db, number, book.tasks, t, t);
    var attempt := ledger.OpenAttempt(task, Some(phase), at);
    ghost var between := ledger.db;
    ghost var a := between.attempts[|db.attempts|].data;
    InsertSorted(db.attempts, task, a);
    var found := ledger.CloseAttempt(attempt.value, closing, at);
    ChargeBacks(db, between, ledger.db, number, batch, book, t, phase, a, Closed(at, closing));
  }

  lemma ChargeBacks(db: Db, between: Db, db': Db, number: Numbering, batch: string, book: SpendBook.Book, t: nat,
                    phase: string, a: Attempt, closed: Closed)
    requires book.Valid() && Backs(db, number, batch, book) && t in number && t <= book.tasks
    requires Sorted(db.attempts) && Sorted(between.attempts) && a.closed.None? && a.phase == phase
    requires between == db.(attempts := Insert(db.attempts, number[t], a))
    requires Find(between.attempts, NextId(db.attempts)).Some?
    requires db' == between.(attempts := SetData(between.attempts, NextId(db.attempts),
        Find(between.attempts, NextId(db.attempts)).value.data.(closed := Some(closed))))
    ensures Backs(db', number, batch, book.AddCharge(t, PhaseOf(phase), closed.closing.cost))
  {
    InitLast(db.attempts, Row(NextId(db.attempts), number[t], a));
    var book' := book.AddCharge(t, PhaseOf(phase), closed.closing.cost);
    forall x, y ensures NumbersAt(db', number, book'.tasks, x, y) { assert NumbersAt(db, number, book.tasks, x, y); }
    forall tasks, which ensures BackedAt(db', number, book', tasks, which) {
      assert BackedAt(db, number, book, tasks, which);
      OpenCostsNothing(db.attempts, number[t], a, Rows(number, tasks), which);
      ClosingCosts(between.attempts, NextId(db.attempts), closed, Rows(number, tasks), which);
      RowIsIts(db, number, book.tasks, tasks, t);
      AttachedNext(book.charges, SpendBook.Charge(t, PhaseOf(phase), closed.closing.cost), tasks, which);
    }
  }

  // A task's own row is among those of some tasks exactly when it is one of them.
  lemma RowIsIts(db: Db, number: Numbering, most: nat, tasks: set<nat>, t: nat)
    requires Numbers(db, number, most) && t in number
    ensures number[t] in Rows(number, tasks) <==> t in tasks
  {
    if number[t] in Rows(number, tasks) {
      var x :| x in tasks && x in number && number[x] == number[t];
      assert NumbersAt(db, number, most, x, t);
    }
  }

  /** A new state rolls its task's spend up, and changes what no batch has spent. */
  method SetState(ledger: LiveLedger, task: nat, state: string, at: string, ghost number: Numbering,
                  ghost batch: string, ghost book: SpendBook.Book)
    returns (refused: Option<Refusal>)
    requires ledger.Valid() && Backs(ledger.db, number, batch, book)
    modifies ledger
    ensures ledger.Valid() && Backs(ledger.db, number, batch, book)
  {
    ghost var db := ledger.db;
    refused := ledger.SetTaskState(task, state, at);
    if refused.None? {
      TasksBack(db, ledger.db, number, batch, book, task);
    }
  }

  lemma TasksBack(db: Db, db': Db, number: Numbering, batch: string, book: SpendBook.Book, task: nat)
    requires Backs(db, number, batch, book)
    requires exists data :: db' == db.(tasks := SetData(db.tasks, task, data))
    ensures Backs(db', number, batch, book)
  {
    var data :| db' == db.(tasks := SetData(db.tasks, task, data));
    SetDataKeeps(db.tasks, task, data, "");
    forall a, b ensures NumbersAt(db', number, book.tasks, a, b) { assert NumbersAt(db, number, book.tasks, a, b); }
    forall tasks, phase ensures BackedAt(db', number, book, tasks, phase) {
      assert BackedAt(db, number, book, tasks, phase);
    }
  }

  /** A layer of the batch: its spend stands, and its own end reviews will count. */
  method AddLayer(ledger: LiveLedger, task: nat, position: nat, predecessor: Option<nat>, generation: nat,
                  batch: string, at: string, ghost number: Numbering, ghost book: SpendBook.Book)
    returns (refused: Option<Refusal>)
    requires ledger.Valid() && Backs(ledger.db, number, batch, book)
    modifies ledger
    ensures ledger.Valid() && Backs(ledger.db, number, batch, book)
    ensures refused.None? ==>
      && Find(old(ledger.db).tasks, task).Some?
      && IsLayer(ledger.db.entries, |ledger.db.entries|, Find(old(ledger.db).tasks, task).value.owner, batch)
  {
    ghost var db := ledger.db;
    refused := ledger.RecordStackLayer(task, position, predecessor, generation, Some(batch), at);
    if refused.None? {
      ghost var row := ledger.db.entries[|db.entries|];
      assert ledger.db.entries == db.entries + [row] && LayerAt(row, row.owner, batch);
      LayerAddsNothing(db.entries, row, batch);
      EntriesBack(db, ledger.db, number, batch, book, row, 0.0);
      assert book.(endReviews := book.endReviews) == book;
    }
  }

  // What a row more among the entries leaves, with what it adds to the end reviews.
  lemma EntriesBack(db: Db, db': Db, number: Numbering, batch: string, book: SpendBook.Book, row: Row<TaskKey, Entry>,
                    usd: real)
    requires Backs(db, number, batch, book) && db' == db.(entries := db.entries + [row])
    requires row.data.StackLayer? ==> !HasSlot(Of(db.entries, row.owner), LayerSlot)
    requires row.data.EndReview? ==> IsLayer(db.entries, |db.entries|, row.owner, batch)
    requires EndSpend(db'.entries, batch) == EndSpend(db.entries, batch) + usd
    ensures forall ends :: SpendBook.ReviewCost(ends) == SpendBook.ReviewCost(book.endReviews) + usd ==>
      Backs(db', number, batch, book.(endReviews := ends))
  {
    LayersGrow(db.entries, row);
    forall a, b ensures NumbersAt(db', number, book.tasks, a, b) { assert NumbersAt(db, number, book.tasks, a, b); }
    forall ends | SpendBook.ReviewCost(ends) == SpendBook.ReviewCost(book.endReviews) + usd
      ensures Backs(db', number, batch, book.(endReviews := ends))
    {
      forall tasks, phase ensures BackedAt(db', number, book.(endReviews := ends), tasks, phase) {
        assert BackedAt(db, number, book, tasks, phase);
      }
    }
  }

  /** One lens's outcome against a layer of the batch: one end review more. */
  method FileReview(ledger: LiveLedger, task: nat, lens: string, status: string, cost: real, error: Option<string>,
                    at: string, ghost number: Numbering, ghost batch: string, ghost book: SpendBook.Book,
                    ghost filed: SpendBook.EndReviewRow)
    returns (refused: Option<Refusal>)
    requires ledger.Valid() && Backs(ledger.db, number, batch, book) && filed.cost == cost
    requires Find(ledger.db.tasks, task).Some?
    requires IsLayer(ledger.db.entries, |ledger.db.entries|, Find(ledger.db.tasks, task).value.owner, batch)
    modifies ledger
    ensures ledger.Valid()
    ensures if refused.Some? then Backs(ledger.db, number, batch, book)
            else Backs(ledger.db, number, batch, book.(endReviews := book.endReviews + [filed]))
  {
    ghost var db := ledger.db;
    refused := ledger.RecordEndReview(task, lens, status, cost, error, at);
    if refused.None? {
      ghost var row := ledger.db.entries[|db.entries|];
      assert ledger.db.entries == db.entries + [row];
      EndAdds(db.entries, row, batch);
      EntriesBack(db, ledger.db, number, batch, book, row, cost);
      SpendBook.ReviewCostAdd(book.endReviews, filed);
    }
  }
}
