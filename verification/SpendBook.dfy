/** The ledger as a night reads it: the attempts and end reviews a batch has
    paid for, its recorded layers, and the latest text of each task's spec. */
module SpendBook {
  import opened Wrappers
  import opened Graph

  // What one spec review session and one spec writer session may cost.
  const SPEC_REVIEW_SESSION_USD := 8.0
  const SPEC_WRITER_SESSION_USD := 18.5

  datatype Phase = SPEC_REVIEW | SPEC_WRITING | CELL

  // One closed attempt, filed under its task. A task hangs from a run of its own,
  // so attaching a run to the batch attaches exactly that task's attempts.
  datatype Charge = Charge(task: nat, phase: Phase, cost: real)

  datatype LayerRow = LayerRow(task: nat, specId: SpecId, position: nat, predecessorTask: Option<nat>, generation: nat)

  datatype Lens = SpecLens | StandardsLens | JoinLens

  datatype Status = REVIEWED | ERROR | NOT_REACHED

  datatype EndReviewRow = EndReviewRow(task: nat, lens: Lens, status: Status, cost: real)

  datatype Origin = Revision | FollowUpText

  datatype SpecText = SpecText(origin: Origin, text: string)

  function Max(a: real, b: real): real { if a < b then b else a }

  predicate InPhase(c: Charge, phase: Option<Phase>) {
    phase.None? || c.phase == phase.value
  }

  // The cost of the attempts whose runs are attached to the batch, in one phase
  // or in all of them.
  function Attached(charges: seq<Charge>, attached: set<nat>, phase: Option<Phase>): real {
    AttachedTo(charges, |charges|, attached, phase)
  }

  function AttachedTo(charges: seq<Charge>, n: nat, attached: set<nat>, phase: Option<Phase>): real
    requires n <= |charges|
  {
    if n == 0 then 0.0 else
      AttachedTo(charges, n - 1, attached, phase)
        + (if charges[n - 1].task in attached && InPhase(charges[n - 1], phase) then charges[n - 1].cost else 0.0)
  }

  // What was ever charged, attached or not.
  ghost function Charged(charges: seq<Charge>, phase: Option<Phase>): real {
    ChargedTo(charges, |charges|, phase)
  }

  ghost function ChargedTo(charges: seq<Charge>, n: nat, phase: Option<Phase>): real
    requires n <= |charges|
  {
    if n == 0 then 0.0 else
      ChargedTo(charges, n - 1, phase) + (if InPhase(charges[n - 1], phase) then charges[n - 1].cost else 0.0)
  }

  function ReviewCost(rows: seq<EndReviewRow>): real {
    CostTo(rows, |rows|)
  }

  function CostTo(rows: seq<EndReviewRow>, n: nat): real
    requires n <= |rows|
  {
    if n == 0 then 0.0 else CostTo(rows, n - 1) + rows[n - 1].cost
  }

  lemma {:induction false} ChargedBefore(a: seq<Charge>, b: seq<Charge>, n: nat, phase: Option<Phase>)
    requires n <= |a|
    ensures ChargedTo(a + b, n, phase) == ChargedTo(a, n, phase)
  {
    if n > 0 {
      ChargedBefore(a, b, n - 1, phase);
    }
  }

  // One charge more.
  lemma ChargedNext(charges: seq<Charge>, c: Charge, phase: Option<Phase>)
    ensures Charged(charges + [c], phase) == Charged(charges, phase) + (if InPhase(c, phase) then c.cost else 0.0)
  {
    ChargedBefore(charges, [c], |charges|, phase);
  }

  lemma {:induction false} CostBefore(a: seq<EndReviewRow>, b: seq<EndReviewRow>, n: nat)
    requires n <= |a|
    ensures CostTo(a + b, n) == CostTo(a, n)
  {
    if n > 0 {
      CostBefore(a, b, n - 1);
    }
  }

  // One row more.
  lemma ReviewCostAdd(rows: seq<EndReviewRow>, row: EndReviewRow)
    ensures ReviewCost(rows + [row]) == ReviewCost(rows) + row.cost
  {
    CostBefore(rows, [row], |rows|);
  }

  /** Nothing vanishes: once every charged task is attached, what the batch
      reads as spent is all that was ever charged. */
  lemma AttachedIsCharged(charges: seq<Charge>, attached: set<nat>, phase: Option<Phase>)
    requires forall c :: c in charges ==> c.task in attached
    ensures Attached(charges, attached, phase) == Charged(charges, phase)
  {
    AttachedIsChargedTo(charges, |charges|, attached, phase);
  }

  lemma {:induction false} AttachedIsChargedTo(charges: seq<Charge>, n: nat, attached: set<nat>, phase: Option<Phase>)
    requires n <= |charges| && forall c :: c in charges ==> c.task in attached
    ensures AttachedTo(charges, n, attached, phase) == ChargedTo(charges, n, phase)
  {
    if n > 0 {
      AttachedIsChargedTo(charges, n - 1, attached, phase);
      assert charges[n - 1] in charges;
    }
  }

  datatype Book = Book(
    tasks: nat,
    attached: set<nat>,
    charges: seq<Charge>,
    layers: seq<LayerRow>,
    endReviews: seq<EndReviewRow>,
    texts: map<nat, SpecText>
  ) {
    ghost predicate FiledAt(c: Charge) {
      c in charges ==> c.task <= tasks
    }

    ghost predicate MintedAt(task: nat) {
      task in attached ==> task <= tasks
    }

    // Every task charged or attached was minted.
    ghost predicate Valid() {
      (forall c :: FiledAt(c)) && forall task :: MintedAt(task)
    }

    ghost predicate AttachedAt(c: Charge) {
      c in charges ==> c.task in attached
    }

    // Every task charged so far is attached to the batch.
    ghost predicate Complete() {
      forall c :: AttachedAt(c)
    }

    // All that was ever charged.
    ghost function Total(): real {
      Charged(charges, None) + ReviewCost(endReviews)
    }

    ghost function Written(): real {
      Charged(charges, Some(SPEC_WRITING))
    }

    lemma AllCharged(phase: Option<Phase>)
      requires Complete()
      ensures Attached(charges, attached, phase) == Charged(charges, phase)
    {
      forall c | c in charges ensures c.task in attached { assert AttachedAt(c); }
      AttachedIsCharged(charges, attached, phase);
    }

    // `batch_spend`.
    function BatchSpend(): (spend: real)
      ensures Complete() ==> spend == Total()
    {
      assert Complete() ==> Attached(charges, attached, None) == Charged(charges, None) by {
        if Complete() { AllCharged(None); }
      }
      Attached(charges, attached, None) + ReviewCost(endReviews)
    }

    // `writer_left`: what spec writing has not yet drawn of the writer's share.
    function WriterLeft(share: real): (left: real)
      ensures Complete() ==> left == Max(0.0, share - Written())
    {
      assert Complete() ==> Attached(charges, attached, Some(SPEC_WRITING)) == Charged(charges, Some(SPEC_WRITING)) by {
        if Complete() { AllCharged(Some(SPEC_WRITING)); }
      }
      Max(0.0, share - Attached(charges, attached, Some(SPEC_WRITING)))
    }

    function Mint(): (b: Book)
      requires Valid()
      ensures b.Valid() && b.tasks == tasks + 1 && b == this.(tasks := b.tasks)
      ensures Complete() ==> b.Complete()
    {
      var b := this.(tasks := tasks + 1);
      assert b.Valid() && (Complete() ==> b.Complete()) by { KeepsLaws(this, b); }
      b
    }

    function Attach(task: nat): (b: Book)
      requires Valid() && task <= tasks
      ensures b.Valid() && b == this.(attached := b.attached) && b.attached == attached + {task}
      ensures Complete() ==> b.Complete()
    {
      var b := this.(attached := attached + {task});
      assert b.Valid() && (Complete() ==> b.Complete()) by { KeepsLaws(this, b); }
      b
    }

    // Every run minted past the high-water mark, whatever it reached.
    function AttachOrphans(highWater: nat): (b: Book)
      requires Valid() && highWater <= tasks
      ensures b.Valid() && b == this.(attached := b.attached)
      ensures forall t :: t in b.attached <==> t in attached || highWater < t <= tasks
      decreases tasks - highWater
    {
      if highWater == tasks then this else
        var b := AttachOrphans(highWater + 1);
        var b' := b.(attached := b.attached + {highWater + 1});
        assert b'.Valid() by { KeepsLaws(b, b'); }
        b'
    }

    // One attempt, opened and closed.
    function AddCharge(task: nat, phase: Phase, cost: real): (b: Book)
      requires Valid() && task <= tasks
      ensures b.Valid() && b == this.(charges := b.charges) && b.charges == charges + [Charge(task, phase, cost)]
      ensures b.Total() == Total() + cost
      ensures b.Written() == Written() + (if phase == SPEC_WRITING then cost else 0.0)
      ensures Complete() && task in attached ==> b.Complete()
    {
      var b := this.(charges := charges + [Charge(task, phase, cost)]);
      ChargedNext(charges, Charge(task, phase, cost), None);
      ChargedNext(charges, Charge(task, phase, cost), Some(SPEC_WRITING));
      assert b.charges[..|charges|] == charges;
      assert b.Valid() by { KeepsLaws(this, b); }
      assert Complete() && task in attached ==> b.Complete() by { StaysComplete(this, b); }
      b
    }
  }

  // A charge to an attached task.
  lemma StaysComplete(a: Book, b: Book)
    requires b.charges != [] && b.charges[..|b.charges| - 1] == a.charges && b.attached == a.attached
    ensures a.Complete() && b.charges[|b.charges| - 1].task in a.attached ==> b.Complete()
  {
    if a.Complete() && b.charges[|b.charges| - 1].task in a.attached {
      assert b.charges == a.charges + [b.charges[|b.charges| - 1]];
      forall c ensures b.AttachedAt(c) { assert a.AttachedAt(c); }
    }
  }

  // One more charge, to the one task attached since.
  lemma BecomesComplete(a: Book, b: Book, c: Charge)
    requires a.Complete() && b.charges == a.charges + [c] && b.attached == a.attached + {c.task}
    ensures b.Complete()
  {
    forall any ensures b.AttachedAt(any) { assert a.AttachedAt(any); }
  }

  // What a book with at most one new charge keeps of its laws.
  lemma KeepsLaws(a: Book, b: Book)
    requires a.Valid() && a.tasks <= b.tasks && a.attached <= b.attached
    requires
      || b.charges == a.charges
      || (b.charges != [] && b.charges[..|b.charges| - 1] == a.charges && b.charges[|b.charges| - 1].task <= b.tasks)
    requires forall task :: task in b.attached && task !in a.attached ==> task <= b.tasks
    ensures b.Valid() && (b.charges == a.charges && a.Complete() ==> b.Complete())
  {
    forall c ensures b.FiledAt(c) {
      assert a.FiledAt(c);
      if c in b.charges && b.charges != a.charges { assert b.charges == a.charges + [b.charges[|b.charges| - 1]]; }
    }
    forall task ensures b.MintedAt(task) { assert a.MintedAt(task); }
    if b.charges == a.charges && a.Complete() {
      forall c ensures b.AttachedAt(c) { assert a.AttachedAt(c); }
    }
  }

  /** A writing charge leaves what the batch holds, spent or kept for the writer,
      exactly where it was as long as it stays inside the writer's share. */
  lemma WritingLeavesWhatIsHeld(book: Book, task: nat, cost: real, share: real)
    requires book.Valid() && book.Complete() && task in book.attached && task <= book.tasks && cost >= 0.0
    ensures var after := book.AddCharge(task, SPEC_WRITING, cost);
      (after.BatchSpend() + after.WriterLeft(share) == book.BatchSpend() + book.WriterLeft(share))
      <==> (cost == 0.0 || book.Written() + cost <= share)
  {
    var after := book.AddCharge(task, SPEC_WRITING, cost);
    assert after.Complete() && after.Total() == book.Total() + cost && after.Written() == book.Written() + cost;
  }

  const EMPTY_BOOK := Book(0, {}, [], [], [], map[])
}
