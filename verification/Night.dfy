/** A stack batch's whole night, as `run_stack_batch` of saffron/batch.py strings
    it together: the order, the end review, the follow-ups, and the reason the
    batch row is closed with. */
module Night {
  import opened Wrappers
  import opened Scheduler
  import opened StackProgress
  import opened SpendBook
  import opened Plans
  import opened Batch
  import Qualify
  import EndReview
  import Graph
  import FollowUp

  // Anything left in flight makes an ordinary reason INCOMPLETE, and anything
  // left unpackaged makes any reason INFRASTRUCTURE.
  function Promote(reason: StopReason, left: Leftovers): (r: StopReason)
    ensures r == INFRASTRUCTURE <==> left.packageRaised != [] || reason == INFRASTRUCTURE
    ensures r == INCOMPLETE <==>
      left.packageRaised == [] && reason != INFRASTRUCTURE && (left.inFlight != [] || reason == INCOMPLETE)
    ensures r == DRAINED ==> reason == DRAINED && left == Leftovers([], [])
  {
    var named := if left.inFlight != [] && reason != INFRASTRUCTURE then INCOMPLETE else reason;
    if left.packageRaised != [] then INFRASTRUCTURE else named
  }

  function Reversed(rows: seq<LayerRow>): (r: seq<LayerRow>)
    ensures |r| == |rows|
  {
    if rows == [] then [] else [rows[|rows| - 1]] + Reversed(rows[..|rows| - 1])
  }

  // A group's origin is looked up among the batch's own tasks.
  function Grounded(room: FollowUp.Room, attached: set<nat>): FollowUp.Room {
    room.(origin := (g: Qualify.Group, n: nat) =>
      var origin := room.origin(g, n);
      if origin.Some? && origin.value.task !in attached then None else origin)
  }

  lemma GroundedWithin(room: FollowUp.Room, attached: set<nat>)
    requires FollowUp.Within(room)
    ensures FollowUp.Within(Grounded(room, attached))
  {
    forall n ensures FollowUp.WithinAt(Grounded(room, attached), n) { assert FollowUp.WithinAt(room, n); }
  }

  // A spec the planner could parse declares a budget above nothing.
  ghost predicate Parses(room: FollowUp.Room) {
    forall t :: room.parse(t).Some? ==> room.parse(t).value.budget > 0.0
  }

  function AsCandidates(accepted: seq<FollowUp.Accepted>): (cs: seq<Candidate>)
    ensures |cs| == |accepted|
    ensures forall i ::
      0 <= i < |cs| ==>
        cs[i] == Candidate(accepted[i].spec.id, 0, [], accepted[i].spec.budget, Some(accepted[i].task), None)
  {
    seq(|accepted|, i requires 0 <= i < |accepted| =>
      Candidate(accepted[i].spec.id, 0, [], accepted[i].spec.budget, Some(accepted[i].task), None))
  }

  lemma {:induction false} KeptSpecs(room: FollowUp.Room, accepted: seq<FollowUp.Accepted>, i: nat)
    requires FollowUp.Kept(room, accepted) && Parses(room) && i < |accepted|
    ensures accepted[i].spec.budget > 0.0
  {
    if i < |accepted| - 1 { KeptSpecs(room, accepted[..|accepted| - 1], i); }
  }

  // What the end review and the follow-ups are given, and whether reading what the
  // follow-ups need of the pinned base raises.
  datatype Tail = Tail(
    critics: EndReview.Critics, lensBudget: real,
    unread: bool, join: Option<Qualify.Range>, findings: seq<Qualify.Layer>,
    room: FollowUp.Room
  )

  ghost predicate TailWithin(tail: Tail) {
    && EndReview.Within(tail.critics, tail.lensBudget) && tail.lensBudget >= 0.0
    && FollowUp.Within(tail.room) && Parses(tail.room)
  }

  // The shares held back leave the order something of the budget.
  ghost predicate Shared(plan: Plan) {
    0.0 <= plan.reserve && 0.0 <= plan.writer && plan.reserve + plan.writer <= plan.budget
  }

  // What was spent and what is left of the writer's share stay inside `most`.
  ghost predicate Held(book: Book, share: real, most: real) {
    book.Total() + Max(0.0, share - book.Written()) <= most
  }

  // What a night's tail leaves besides its ledger: the layers it reviewed, top
  // first, whether filing a raised review's errors failed, whether the writer's
  // walk raised, and where the findings decided went: accepted texts, the writer's
  // pool, and the pool of those no group was made of, or nothing when qualifying
  // them raised.
  datatype TailEnd = TailEnd(
    reviewed: seq<LayerRow>, failed: bool, raised: bool,
    texts: seq<FollowUp.Accepted>, pooled: seq<FollowUp.Pooled>, pool: Option<seq<Qualify.Qualified>>
  )

  // Each lens of each layer reviewed has one row.
  ghost predicate ReviewedOnce(reviewed: seq<LayerRow>, failed: bool, before: seq<EndReviewRow>,
                               after: seq<EndReviewRow>)
  {
    EndReview.DistinctTasks(reviewed) && EndReview.Unfiled(before, reviewed) ==>
      EndReview.AtMostOnce(after, reviewed) && (!failed ==> EndReview.ExactlyOnce(after, reviewed))
  }

  // Every decided finding is in an accepted text, in the writer's pool, in the
  // pool of those no group was made of, or killed, and in one of them only.
  ghost predicate Conserved(decided: seq<Qualify.Qualified>, end: TailEnd) {
    end.pool.Some? ==>
      multiset(decided) ==
        multiset(FollowUp.PooledFindings(end.pooled)) + multiset(FollowUp.AcceptedFindings(end.texts))
        + multiset(end.pool.value) + multiset(Qualify.WithOutcome(decided, {Qualify.KILLED}))
  }

  function DecidedOver(tail: Tail): seq<Qualify.Qualified> {
    Qualify.AllDecided(Qualify.Walked(tail.join, tail.findings))
  }

  // Nothing is qualified of a stack with no layer, on a base that cannot be read,
  // or over a range that raises.
  ghost predicate Unqualified(tail: Tail, reviewed: seq<LayerRow>) {
    reviewed == [] || tail.unread || exists range :: range in Qualify.Walked(tail.join, tail.findings) && range.raises
  }

  // What the tail of a night is for.
  ghost predicate WellEnded(tail: Tail, end: TailEnd, before: seq<EndReviewRow>, after: seq<EndReviewRow>) {
    && ReviewedOnce(end.reviewed, end.failed, before, after)
    && Conserved(DecidedOver(tail), end)
    && (end.pool.None? <==> Unqualified(tail, end.reviewed))
  }

  // How far the tail's calls came: where the end review stopped, and how many times
  // the writer and the mint were asked.
  datatype TailStop = TailStop(review: EndReview.EndStop, writes: nat, mints: nat)

  // The end review stopped where the ledger's answers make it stop.
  ghost predicate StoppedWhere(tail: Tail, reviewed: seq<LayerRow>, reserve: real, before: seq<EndReviewRow>,
                               stop: EndReview.EndStop)
  {
    EndReview.Unreviewed(before, reviewed) ==>
      EndReview.StopsAt(tail.critics, reviewed, reserve, tail.lensBudget, stop)
  }

  // What the tail's sessions cost, and what of it no row records.
  function TailPaid(tail: Tail, reviewed: seq<LayerRow>, reserve: real, at: TailStop): real {
    EndReview.PaidCost(tail.critics, reviewed, reserve, tail.lensBudget, at.review)
      + FollowUp.PaidTo(tail.room, at.writes)
  }

  function TailUnfiled(tail: Tail, reviewed: seq<LayerRow>, reserve: real, at: TailStop): real {
    ReviewUnfiled(tail, reviewed, reserve, at.review) + WriterUnfiled(tail.room, at.writes, at.mints)
  }

  function ReviewUnfiled(tail: Tail, reviewed: seq<LayerRow>, reserve: real, stop: EndReview.EndStop): real {
    EndReview.LostCost(tail.critics, reviewed, reserve, tail.lensBudget, stop)
      + EndReview.SlippedCost(tail.critics, reviewed, reserve, tail.lensBudget, stop)
  }

  function WriterUnfiled(room: FollowUp.Room, writes: nat, mints: nat): real {
    FollowUp.LostTo(room, 0, mints, writes) + FollowUp.SlipTo(room, writes)
  }

  // No review that raised had paid anything, no write raised under a session that
  // cost something, and neither did the writer or the mint.
  ghost predicate TailFree(tail: Tail, reviewed: seq<LayerRow>, reserve: real, at: TailStop) {
    && EndReview.NothingUnder(tail.critics, reviewed, reserve, tail.lensBudget, at.review)
    && EndReview.NothingSlips(tail.critics, reviewed, reserve, tail.lensBudget, at.review)
    && FollowUp.LostTo(tail.room, 0, at.mints, at.writes) == 0.0
    && forall n: nat :: FollowUp.FreeAt(tail.room, 0, at.writes, n)
  }

  lemma TailFilesAll(tail: Tail, reviewed: seq<LayerRow>, reserve: real, at: TailStop)
    requires TailWithin(tail)
    ensures 0.0 <= TailUnfiled(tail, reviewed, reserve, at)
    ensures TailUnfiled(tail, reviewed, reserve, at) == 0.0 <==> TailFree(tail, reviewed, reserve, at)
  {
    EndReview.AllRecordedIff(tail.critics, reviewed, reserve, tail.lensBudget, at.review);
    EndReview.LostWithin(tail.critics, reviewed, reserve, tail.lensBudget, at.review);
    EndReview.PaidSplits(tail.critics, reviewed, reserve, tail.lensBudget, at.review);
    FollowUp.SlipIsNone(tail.room, 0, at.writes);
    FollowUp.LostIsNone(tail.room, 0, at.mints, at.writes);
  }

  // What a whole night's calls cost, and what of it no row records: those of its
  // passes, and of its tail when it had one.
  function NightPaid(plan: Plan, bills: seq<Bill>, tail: Tail, end: Option<TailEnd>, at: TailStop): real {
    Parts(plan.world, bills, Paid) + (if end.Some? then TailPaid(tail, end.value.reviewed, plan.reserve, at) else 0.0)
  }

  function NightUnfiled(plan: Plan, bills: seq<Bill>, tail: Tail, end: Option<TailEnd>, at: TailStop): real {
    Parts(plan.world, bills, Slipped)
      + (if end.Some? then TailUnfiled(tail, end.value.reviewed, plan.reserve, at) else 0.0)
  }

  ghost predicate NightFree(plan: Plan, bills: seq<Bill>, tail: Tail, end: Option<TailEnd>, at: TailStop) {
    && (forall i :: 0 <= i < |bills| ==> FreeOfSlips(plan.world, bills[i]))
    && (end.Some? ==> TailFree(tail, end.value.reviewed, plan.reserve, at))
  }

  /** A night records all its calls cost exactly when no call that raised had paid
      anything, and no write raised under a session that cost something. */
  lemma NightFilesAll(plan: Plan, bills: seq<Bill>, tail: Tail, end: Option<TailEnd>, at: TailStop)
    requires plan.Ok() && TailWithin(tail)
    ensures 0.0 <= NightUnfiled(plan, bills, tail, end, at)
    ensures NightUnfiled(plan, bills, tail, end, at) == 0.0 <==> NightFree(plan, bills, tail, end, at)
  {
    assert plan.Keeps(Answering);
    SlippedIsNone(plan.world, bills, |bills|);
    if end.Some? {
      TailFilesAll(tail, end.value.reviewed, plan.reserve, at);
    }
  }

  // A book with end reviews added that cost no less than nothing.
  lemma ReviewsFiled(before: Book, rows: seq<EndReviewRow>)
    requires before.Valid() && before.Complete() && ReviewCost(before.endReviews) <= ReviewCost(rows)
    ensures Filed(before, before.(endReviews := rows))
  {
    KeepsLaws(before, before.(endReviews := rows));
  }

  // The end review, at the top of the chain first, out of its reserve.
  method ReviewEnd(batch: StackBatch, tail: Tail, ghost most: real)
    returns (reviewed: seq<LayerRow>, failed: bool, ghost stop: EndReview.EndStop)
    requires batch.AtRest() && TailWithin(tail) && 0.0 <= batch.plan.reserve
    requires Held(batch.book, batch.plan.writer, most - batch.plan.reserve)
    modifies batch`book, batch`peak
    ensures batch.AtRest() && batch.book == old(batch.book).(endReviews := batch.book.endReviews)
    ensures Held(batch.book, batch.plan.writer, most)
    ensures batch.peak == Max(old(batch.peak), batch.book.Total())
    ensures reviewed == Reversed(batch.book.layers)
    ensures ReviewedOnce(reviewed, failed, old(batch.book).endReviews, batch.book.endReviews)
    ensures batch.book.Total() == old(batch.book).Total()
      + EndReview.PaidCost(tail.critics, reviewed, batch.plan.reserve, tail.lensBudget, stop)
      - ReviewUnfiled(tail, reviewed, batch.plan.reserve, stop)
    ensures StoppedWhere(tail, reviewed, batch.plan.reserve, old(batch.book).endReviews, stop)
  {
    var rows, raised;
    batch.Rested();
    reviewed := Reversed(batch.book.layers);
    rows, raised, failed, stop := EndReview.RunEndReview(
      tail.critics, batch.book.endReviews, reviewed, batch.plan.reserve, tail.lensBudget);
    ReviewsFiled(batch.book, rows);
    batch.TakeBook(batch.book.(endReviews := rows));
  }

  // The writer's walk over the qualified groups, on what is left of its share.
  // Every grouped finding ends in an accepted text or in `pooled`.
  method WriteGroups(book: Book, share: real, room: FollowUp.Room, groups: seq<Qualify.Group>)
    returns (book': Book, accepted: seq<FollowUp.Accepted>, pooled: seq<FollowUp.Pooled>,
             texts: seq<FollowUp.Accepted>, raised: bool, ghost writes: nat, ghost mints: nat)
    requires book.Valid() && book.Complete() && FollowUp.Within(room) && Parses(room)
    requires Qualify.DistinctKeys(groups) && Qualify.WellGrouped(groups)
    ensures Filed(book, book') && book'.Total() <= book.Total() + Max(0.0, share - book.Written())
    ensures book'.endReviews == book.endReviews
    ensures forall a :: a in accepted ==> a.spec.budget > 0.0 && a.task in book'.attached
    ensures multiset(FollowUp.PooledFindings(pooled)) + multiset(FollowUp.AcceptedFindings(texts))
      == Qualify.All(groups)
    ensures accepted == if raised then [] else texts
    ensures book'.Total() == book.Total() + FollowUp.PaidTo(room, writes) - WriterUnfiled(room, writes, mints)
  {
    GroundedWithin(room, book.attached);
    var writer := new FollowUp.FollowUpWriter(Grounded(room, book.attached), book.WriterLeft(share), book);
    accepted, raised := writer.StackFollowUps(groups);
    book', pooled, texts := writer.book, writer.shelf.pooled, writer.shelf.accepted;
    writes, mints := writer.tally.writes, writer.tally.mints;
    FollowUp.SameSessions(writer.w, room, writes);
    forall i | 0 <= i < |texts| ensures texts[i].spec.budget > 0.0 { KeptSpecs(writer.w, texts, i); }
  }

  // Each follow-up was given a budget, and the task its text was minted under.
  ghost predicate Grown(cs: seq<Candidate>, attached: set<nat>) {
    forall c :: c in cs ==> c.budget > 0.0 && c.task.Some? && c.task.value in attached
  }

  // The follow-ups, inside what is left of the writer's share.
  method WriteEnd(batch: StackBatch, tail: Tail, reviewed: seq<LayerRow>, failed: bool, ghost most: real)
    returns (cs: seq<Candidate>, end: TailEnd, ghost writes: nat, ghost mints: nat)
    requires batch.AtRest() && TailWithin(tail) && Held(batch.book, batch.plan.writer, most)
    modifies batch`book, batch`peak
    ensures batch.AtRest()
    ensures batch.book.layers == old(batch.book).layers && batch.book.endReviews == old(batch.book).endReviews
    ensures batch.book.Total() <= most
    ensures batch.peak == Max(old(batch.peak), batch.book.Total())
    ensures Grown(cs, batch.book.attached)
    ensures cs == if end.raised then [] else AsCandidates(end.texts)
    ensures end == end.(reviewed := reviewed, failed := failed) && Conserved(DecidedOver(tail), end)
    ensures end.pool.None? <==> Unqualified(tail, reviewed)
    ensures end.pool.None? ==> cs == [] && batch.book == old(batch.book) && writes == 0
    ensures batch.book.Total()
      == old(batch.book).Total() + FollowUp.PaidTo(tail.room, writes) - WriterUnfiled(tail.room, writes, mints)
  {
    batch.Rested();
    cs, end, writes, mints := [], TailEnd(reviewed, failed, false, [], [], None), 0, 0;
    var qualified := None;
    if reviewed != [] && !tail.unread {
      qualified := Qualify.QualifyStack(tail.join, tail.findings);
    }
    if qualified.Some? {
      var book, accepted, pooled, texts, raised;
      book, accepted, pooled, texts, raised, writes, mints := WriteGroups(batch.book, batch.plan.writer, tail.room,
          qualified.value.groups);
      batch.TakeBook(book);
      cs, end := AsCandidates(accepted), TailEnd(reviewed, failed, raised, texts, pooled, Some(qualified.value.pool));
    }
  }

  // What a night may have spent when its tail is reached.
  ghost predicate OrderHeld(batch: StackBatch)
    reads batch`book, batch`peak
  {
    && Held(batch.book, batch.plan.writer, batch.plan.budget - batch.plan.reserve + REVIEWS_PER_CALL_USD)
    && batch.peak <= batch.plan.budget + REVIEWS_PER_CALL_USD
  }

  // The end review and the writer, one after the other.
  method CloseOrder(batch: StackBatch, tail: Tail) returns (cs: seq<Candidate>, end: TailEnd, ghost at: TailStop)
    requires batch.AtRest() && TailWithin(tail) && Shared(batch.plan) && OrderHeld(batch)
    modifies batch`book, batch`peak
    ensures batch.AtRest() && batch.book.layers == old(batch.book).layers
    ensures batch.book.Total() <= batch.peak <= batch.plan.budget + REVIEWS_PER_CALL_USD
    ensures Grown(cs, batch.book.attached)
    ensures cs == if end.raised then [] else AsCandidates(end.texts)
    ensures cs == [] <==> end.raised || end.texts == []
    ensures end.reviewed == Reversed(batch.book.layers)
    ensures WellEnded(tail, end, old(batch.book).endReviews, batch.book.endReviews)
    ensures batch.book.Total() == old(batch.book).Total() + TailPaid(tail, end.reviewed, batch.plan.reserve, at)
      - TailUnfiled(tail, end.reviewed, batch.plan.reserve, at)
    ensures StoppedWhere(tail, end.reviewed, batch.plan.reserve, old(batch.book).endReviews, at.review)
  {
    var reviewed, failed;
    ghost var stop, writes, mints;
    reviewed, failed, stop := ReviewEnd(batch, tail, batch.plan.budget + REVIEWS_PER_CALL_USD);
    cs, end, writes, mints := WriteEnd(batch, tail, reviewed, failed, batch.plan.budget + REVIEWS_PER_CALL_USD);
    at := TailStop(stop, writes, mints);
  }

  // The follow-ups run one generation up, with nothing held back from them.
  method RunFollowUps(batch: StackBatch, cs: seq<Candidate>, aborts: nat) returns (stop: DriveStop)
    requires batch.AtRest() && batch.book.Total() <= batch.peak <= batch.plan.budget + REVIEWS_PER_CALL_USD
    requires Grown(cs, batch.book.attached)
    modifies batch
    ensures batch.AtRest() && old(batch.cells) <= batch.cells && Extends(old(batch.book), batch.book)
    ensures batch.book.Total() <= batch.peak <= batch.plan.budget + REVIEWS_PER_CALL_USD
    ensures batch.generation == 1 && batch.progress == old(batch.progress) && batch.followUps == cs
    ensures batch.Accounted()
  {
    forall c ensures FundedAt(cs, c) { assert c in cs ==> c.budget > 0.0; }
    batch.BeginFollowUps(cs);
    var carried;
    ghost var pass;
    stop, carried, pass := batch.Drive(true, batch.plan.budget, 0.0, aborts);
  }

  /** The tail of a night: the end review, the follow-ups written, and on a
      drained order the follow-ups run. The batch never spends more than its
      budget and the reviews of one call, every layer is reviewed once, and no
      finding is lost. */
  method RunTail(batch: StackBatch, tail: Tail, reason: StopReason, aborts: nat)
    returns (stop: DriveStop, end: TailEnd, ghost at: TailStop)
    requires batch.AtRest() && TailWithin(tail) && Shared(batch.plan) && OrderHeld(batch)
    modifies batch
    ensures batch.AtRest() && old(batch.cells) <= batch.cells && old(batch.book).layers <= batch.book.layers
    ensures batch.book.Total() <= batch.peak <= batch.plan.budget + REVIEWS_PER_CALL_USD
    ensures reason != DRAINED ==>
      stop == Stopped(reason) && batch.cells == old(batch.cells) && batch.leftovers == old(batch.leftovers)
    ensures batch.progress == old(batch.progress)
    ensures end.reviewed == Reversed(old(batch.book).layers)
    ensures WellEnded(tail, end, old(batch.book).endReviews, batch.book.endReviews)
    ensures if reason == DRAINED && !end.raised && end.texts != [] then
        batch.followUps == AsCandidates(end.texts) && batch.generation == 1
      else batch.followUps == old(batch.followUps) && batch.generation == old(batch.generation)
    ensures old(batch.bills) <= batch.bills
    ensures batch.Uncounted() == old(batch.Uncounted()) + TailPaid(tail, end.reviewed, batch.plan.reserve, at)
      - TailUnfiled(tail, end.reviewed, batch.plan.reserve, at)
    ensures StoppedWhere(tail, end.reviewed, batch.plan.reserve, old(batch.book).endReviews, at.review)
  {
    stop := Stopped(reason);
    var cs;
    cs, end, at := CloseOrder(batch, tail);
    if cs != [] && reason == DRAINED {
      stop := RunFollowUps(batch, cs, aborts);
    }
  }

  // Every spec of the order that ran stood on what it depends on.
  ghost predicate AllSound(batch: StackBatch)
    reads batch`cells
  {
    forall call :: call in batch.cells && call.generation == 0 ==>
      Sound(call.candidate, batch.plan.Satisfied(), SpecIds(call.layers))
  }

  lemma SoundUnlessStrandable(batch: StackBatch)
    requires batch.AtRest() && (!batch.plan.BaseRaises() || !batch.plan.Strandable(batch.begun))
    ensures AllSound(batch)
  {
    batch.Rested();
    forall call | call in batch.cells && call.generation == 0
      ensures Sound(call.candidate, batch.plan.Satisfied(), SpecIds(call.layers))
    {
      EveryCallIsSound(batch.plan, batch.begun, batch.cells, call);
    }
  }

  // The ledger holds what the night's calls cost, less what slipped past it, and all
  // of it exactly when nothing did.
  ghost predicate Billed(plan: Plan, batch: StackBatch, tail: Tail, end: Option<TailEnd>, at: TailStop)
    reads batch`book, batch`bills
  {
    var paid, unfiled := NightPaid(plan, batch.bills, tail, end, at), NightUnfiled(plan, batch.bills, tail, end, at);
    && batch.book.Total() == paid - unfiled && 0.0 <= unfiled
    && (batch.book.Total() == paid <==> NightFree(plan, batch.bills, tail, end, at))
  }

  lemma IsBilled(plan: Plan, batch: StackBatch, tail: Tail, end: Option<TailEnd>, at: TailStop)
    requires plan.Ok() && batch.plan == plan && TailWithin(tail)
    requires batch.Uncounted()
      == if end.Some?
         then TailPaid(tail, end.value.reviewed, plan.reserve, at)
           - TailUnfiled(tail, end.value.reviewed, plan.reserve, at)
         else 0.0
    ensures Billed(plan, batch, tail, end, at)
  {
    PaidSplits(plan.world, batch.bills, |batch.bills|);
    NightFilesAll(plan, batch.bills, tail, end, at);
  }

  // The order's own pass, on a fresh ledger.
  method RunOrder(plan: Plan, start: real, ready: bool) returns (batch: StackBatch, stop: DriveStop, aborts: nat)
    requires plan.Ok() && Shared(plan)
    ensures fresh(batch) && batch.plan == plan && batch.begun == start && batch.AtRest() && OrderHeld(batch)
    ensures batch.book.Total() <= plan.budget - plan.reserve + SPEC_REVIEW_SESSION_USD
    ensures batch.book.Total() <= batch.peak
    ensures batch.book.endReviews == [] && batch.Uncounted() == 0.0
    ensures stop == Stopped(DRAINED) ==> batch.progress.done == |plan.order|
    ensures !ready ==> stop == Stopped(INFRASTRUCTURE) && batch.cells == []
  {
    batch := new StackBatch(plan, EMPTY_BOOK, start);
    ghost var pass;
    stop, aborts, pass := batch.Drive(ready, plan.budget - plan.reserve, plan.writer, 0);
    HeldInPurse(plan, batch.book, batch.peak);
  }

  // What a pass begun on a fresh ledger may have spent.
  lemma HeldInPurse(plan: Plan, book: Book, peak: real)
    requires Shared(plan) && InPurse(book, peak, EMPTY_BOOK, 0.0, plan.budget - plan.reserve, plan.writer)
    ensures Held(book, plan.writer, plan.budget - plan.reserve + REVIEWS_PER_CALL_USD)
    ensures book.Total() <= plan.budget - plan.reserve + SPEC_REVIEW_SESSION_USD
    ensures book.Total() <= peak <= plan.budget + REVIEWS_PER_CALL_USD
  {
  }

  /** A stack batch from its planned order to the reason its row is closed with.
      An interrupted night is closed as INFRASTRUCTURE. `passed` is the ledger as
      the order's pass left it: at most the budget less the end review's reserve, and one review,
      is charged by then. Every spec of the order stood on what it depends
      on, unless a question after the stack base raised on a night that could be
      told for strandable before it began. */
  method RunStackBatch(plan: Plan, start: real, ready: bool, tail: Tail)
    returns (reason: StopReason, batch: StackBatch, end: Option<TailEnd>, ghost passed: Book, ghost at: TailStop)
    requires plan.Ok() && Shared(plan) && TailWithin(tail)
    ensures fresh(batch) && batch.plan == plan && batch.AtRest()
    ensures passed.Total() <= plan.budget - plan.reserve + SPEC_REVIEW_SESSION_USD
    ensures passed.endReviews == [] && passed.layers <= batch.book.layers
    ensures if end.Some? then end.value.reviewed == Reversed(passed.layers) else batch.book == passed
    ensures batch.book.Total() <= batch.peak <= plan.budget + REVIEWS_PER_CALL_USD
    ensures reason == DRAINED ==> batch.progress.done == |plan.order| && batch.leftovers == Leftovers([], [])
    ensures !ready ==> reason == INFRASTRUCTURE && batch.cells == []
    ensures !plan.BaseRaises() || !plan.Strandable(start) ==> AllSound(batch)
    ensures end.Some? ==> WellEnded(tail, end.value, [], batch.book.endReviews)
    ensures end.None? ==> reason == INFRASTRUCTURE && batch.book.endReviews == []
    ensures Billed(plan, batch, tail, end, at)
    ensures end.Some? ==> StoppedWhere(tail, end.value.reviewed, plan.reserve, [], at.review)
  {
    at := TailStop(EndReview.Finished, 0, 0);
    var stop, aborts;
    batch, stop, aborts := RunOrder(plan, start, ready);
    passed, end, reason := batch.book, None, INFRASTRUCTURE;
    if stop.Stopped? {
      var closing;
      stop, closing, at := RunTail(batch, tail, stop.reason, aborts);
      end := Some(closing);
      reason := if stop.Stopped? then stop.reason else INFRASTRUCTURE;
    }
    reason := Promote(reason, batch.leftovers);
    IsBilled(plan, batch, tail, end, at);
    if !plan.BaseRaises() || !plan.Strandable(start) {
      SoundUnlessStrandable(batch);
    }
  }

  /** A closed batch's tail taken up again, on the chain and the ledger its night
      left: the reason is promoted, and no row is closed. */
  method ResumeStackBatch(plan: Plan, book: Book, start: real, below: Option<nat>, predecessor: Candidate, topTask: nat,
                          closed: StopReason, tail: Tail)
    returns (reason: StopReason, batch: StackBatch, end: TailEnd, ghost at: TailStop)
    requires plan.Ok() && plan.order == [] && Shared(plan) && TailWithin(tail)
    requires book.Valid() && book.Complete()
    requires Held(book, plan.writer, plan.budget - plan.reserve + REVIEWS_PER_CALL_USD)
    requires Chained(book.layers, below) && book.layers != []
    requires book.layers[|book.layers| - 1].task == topTask && book.layers[|book.layers| - 1].specId == predecessor.id
    ensures fresh(batch) && batch.plan == plan && batch.AtRest()
    ensures batch.book.Total() <= batch.peak <= plan.budget + REVIEWS_PER_CALL_USD
    ensures closed != DRAINED ==> reason == closed
    ensures book.layers <= batch.book.layers && Chained(batch.book.layers, below)
    ensures end.reviewed == Reversed(book.layers) && WellEnded(tail, end, book.endReviews, batch.book.endReviews)
    ensures batch.book.Total() == book.Total() + Parts(plan.world, batch.bills, Counted)
      + TailPaid(tail, end.reviewed, plan.reserve, at) - TailUnfiled(tail, end.reviewed, plan.reserve, at)
  {
    batch := new StackBatch.Resume(plan, book, start, below, predecessor, topTask, |book.layers|);
    var stop;
    stop, end, at := RunTail(batch, tail, closed, 0);
    reason := Promote(if stop.Stopped? then stop.reason else INFRASTRUCTURE, batch.leftovers);
    batch.Rested();
  }

  /** The planner's output is what the driver relies on: whatever candidates the
      queue kept, the night run over their order keeps its chain, its partition
      and its money, and starts no spec before what it depends on unless a caller
      could tell the night for strandable. */
  method PlanAndRun(
    kept: seq<Candidate>, edges: Graph.Edges, qualify: Graph.SpecId -> Option<StackBase>,
    night: Plan, start: real, ready: bool, tail: Tail)
    returns (ordered: seq<Candidate>, reason: StopReason, batch: StackBatch, end: Option<TailEnd>, ghost passed: Book,
             ghost at: TailStop)
    requires DistinctIds(kept) && forall c :: c in kept ==> c.stackBase.None? && c.budget > 0.0
    requires night.Keeps(Answering) && night.Keeps(Patience) && Shared(night) && TailWithin(tail)
    ensures batch.plan == night.(order := ordered) && batch.AtRest()
    ensures passed.Total() <= night.budget - night.reserve + SPEC_REVIEW_SESSION_USD
    ensures if end.Some? then end.value.reviewed == Reversed(passed.layers) else batch.book == passed
    ensures batch.book.Total() <= batch.peak <= night.budget + REVIEWS_PER_CALL_USD
    ensures end.Some? ==> WellEnded(tail, end.value, [], batch.book.endReviews)
    ensures Billed(batch.plan, batch, tail, end, at)
    ensures !batch.plan.BaseRaises() || !batch.plan.Strandable(start) ==> AllSound(batch)
  {
    var refusals, base;
    ordered, refusals, base := BuildStackQueue(kept, night.onDefault, edges, qualify);
    forall i | 0 <= i < |ordered| ensures ordered[i].budget > 0.0 {
      assert Unstamped(ordered)[i] in multiset(kept);
    }
    ghost var plan := night.(order := ordered);
    forall law ensures plan.Keeps(law) {
      assert law.Answering? ==> night.Keeps(Answering);
      assert law.Patience? ==> night.Keeps(Patience);
    }
    reason, batch, end, passed, at := RunStackBatch(night.(order := ordered), start, ready, tail);
  }
}
