/** The night driver of saffron/batch.py: `_drive` over one stack's order or its
    follow-ups, and the closures of `run_stack_batch` it calls. Everything the
    driver cannot see answers through a `World`, one answer per call. */
module Batch {
  import opened Wrappers
  import opened Graph
  import opened Scheduler
  import opened StackProgress
  import opened SpendBook
  import opened Plans

  // What the driver keeps between two specs.
  datatype RestLaw = Ledgers | Orders

  class StackBatch {
    const plan: Plan
    // The task the lowest layer was cut from, or none.
    const baseTask: Option<nat>
    // When the night began.
    ghost const begun: real
    var tape: Tape
    var queue: Queue
    var top: Top
    var desk: Desk
    var book: Book
    var stackBaseGone: bool
    var generation: nat
    var followUps: seq<Candidate>
    var leftovers: Leftovers

    ghost var progress: Progress
    ghost var cells: seq<CellCall>
    // The most that was ever charged at once.
    ghost var peak: real
    // Every call made that may have cost something.
    ghost var bills: seq<Bill>

    /** A fresh night over a planned order. */
    constructor (plan: Plan, book: Book, start: real)
      requires plan.Ok() && book.Valid() && book.Complete() && book.layers == [] && Solvent(book)
      ensures this.plan == plan && this.book == book && begun == start && tape.sleeps == 0
      ensures AtRest() && generation == 0 && progress == FRESH && cells == [] && peak == book.Total() && bills == []
      ensures Now() == Moment(start, 0, book.Total(), book.Written(), map[], false, [], FRESH)
    {
      FreshIsShaped(plan);
      this.plan, this.book, baseTask, begun := plan, book, plan.BaseTask(), start;
      tape, queue := Tape(0, 0, start), Queue(plan.order, map[]);
      top := Top(None, plan.BaseTask(), 0);
      desk := Desk({}, {}, map[], map[], map[]);
      stackBaseGone, generation, followUps, leftovers := false, 0, [], Leftovers([], []);
      progress, cells, peak, bills := FRESH, [], book.Total(), [];
    }

    /** A closed batch's own tail, taken up again: no order, and the chain goes
        on from its top layer one generation up. */
    constructor Resume(plan: Plan, book: Book, start: real, below: Option<nat>, predecessor: Candidate, topTask: nat,
                       position: nat)
      requires plan.Ok() && plan.order == [] && book.Valid() && book.Complete()
      requires Chained(book.layers, below) && position == |book.layers| > 0
      requires book.layers[position - 1].task == topTask && book.layers[position - 1].specId == predecessor.id
      ensures this.plan == plan && this.book == book && baseTask == below
      ensures AtRest() && generation == 1 && progress == FRESH && cells == [] && peak == book.Total() && bills == []
      ensures top == Top(Some(predecessor), Some(topTask), position)
      ensures leftovers == Leftovers([], []) && followUps == []
    {
      FreshIsShaped(plan);
      this.plan, this.book, baseTask, begun := plan, book, below, start;
      tape, queue := Tape(0, 0, start), Queue([], map[]);
      top := Top(Some(predecessor), Some(topTask), position);
      desk := Desk({}, {}, map[], map[], map[]);
      stackBaseGone, generation, followUps, leftovers := false, 1, [], Leftovers([], []);
      progress, cells, peak, bills := FRESH, [], book.Total(), [];
    }

    // What the ledger holds beyond what its calls were charged with.
    ghost function Uncounted(): real
      reads this`book, this`bills
    {
      book.Total() - Parts(plan.world, bills, Counted)
    }

    // Every call since then is among the bills, and was charged as its bill says.
    twostate predicate Accounted()
      reads this`book, this`bills
    {
      Uncounted() == old(Uncounted()) && old(bills) <= bills
    }

    ghost method Note(bill: Bill)
      modifies this`bills
      ensures bills == old(bills) + [bill]
      ensures Parts(plan.world, bills, Counted)
        == Parts(plan.world, old(bills), Counted) + PartOf(plan.world, bill, Counted)
    {
      PartsNext(plan.world, bills, bill, Counted);
      bills := bills + [bill];
    }

    // The ledger and the desk between two calls.
    ghost predicate Booked()
      reads this`book, this`peak, this`desk
    {
      plan.Ok() && book.Valid() && book.Complete() && peak >= book.Total() && desk.Ok(book.attached)
    }

    // What the driver knows between two specs, the order's progress aside.
    ghost predicate Quiet()
      reads this`book, this`peak, this`top, this`desk, this`cells, this`followUps, this`generation
    {
      && Booked() && (generation == 0 ==> Solvent(book))
      && ChainOk(baseTask, top, book.layers) && IsTop(top.predecessor, book.layers)
      && CallsOk(plan, begun, cells) && Funded(followUps)
    }

    ghost predicate Placed()
      reads this`queue, this`progress, this`generation, this`book
    {
      && Shape(plan, queue, progress)
      && (generation == 0 ==> progress.layered == SpecIds(book.layers))
      && (progress.everSkipped ==> plan.BaseRaises())
    }

    ghost predicate Holds(law: RestLaw)
      reads this`book, this`peak, this`top, this`desk, this`cells, this`followUps
      reads this`queue, this`progress, this`generation
    {
      match law
      case Ledgers => Quiet()
      case Orders => Placed()
    }

    ghost predicate Resting()
      reads this`book, this`peak, this`top, this`desk, this`cells, this`followUps
      reads this`queue, this`progress, this`generation
    {
      forall law :: Holds(law)
    }

    ghost predicate AtRest()
      reads this`book, this`peak, this`top, this`desk, this`cells, this`followUps, this`tape
      reads this`queue, this`progress, this`generation
    {
      begun <= tape.now && Resting()
    }

    lemma Rested()
      requires Resting()
      ensures Quiet() && Placed()
    {
      assert Holds(Ledgers) && Holds(Orders);
    }

    lemma WellPlanned()
      requires Resting()
      ensures plan.Ok()
    {
      assert Holds(Ledgers);
    }

    lemma ComesToRest()
      requires Quiet() && Placed()
      ensures Resting()
    {
    }

    // The moment a started spec finds or leaves.
    ghost function Now(): Moment
      reads this`tape, this`book, this`desk, this`stackBaseGone, this`progress
    {
      Moment(tape.now, tape.sleeps, book.Total(), book.Written(), desk.pendingRevision, stackBaseGone, book.layers,
             progress)
    }

    // What the end review and the spec writer filed between two passes.
    method TakeBook(book': Book)
      requires AtRest() && Filed(book, book')
      modifies this`book, this`peak
      ensures AtRest() && book == book' && peak == Max(old(peak), book.Total())
    {
      Rested();
      StaysOk(desk, desk, "", book.attached, book'.attached);
      book := book';
      peak := Max(peak, book.Total());
      ComesToRest();
    }

    // A drained order's follow-ups, each with the task its text was minted under,
    // run one generation up.
    method BeginFollowUps(cs: seq<Candidate>)
      requires AtRest() && Funded(cs) && forall c :: c in cs ==> c.task.Some? && c.task.value in book.attached
      modifies this`followUps, this`generation, this`desk
      ensures AtRest() && generation == 1 && followUps == cs
      ensures desk == old(desk).(taskIds := desk.taskIds)
    {
      Rested();
      var seeded: map<SpecId, nat> := desk.taskIds;
      for i := 0 to |cs|
        invariant desk.(taskIds := seeded).Ok(book.attached)
      {
        ghost var before := desk.(taskIds := seeded);
        seeded := seeded[cs[i].id := cs[i].task.value];
        forall id ensures desk.(taskIds := seeded).OkAt(book.attached, id) { assert before.OkAt(book.attached, id); }
      }
      followUps, generation := cs, 1;
      desk := desk.(taskIds := seeded);
      ComesToRest();
    }

    // -------------------------------------------------------------------------
    // Time

    twostate predicate Unslept()
      reads this`tape
    {
      tape.now == old(tape.now) && tape.sleeps == old(tape.sleeps)
    }

    method Clock() returns (t: real)
      requires plan.Ok()
      modifies this`tape
      ensures t == tape.now >= old(tape.now) && tape.sleeps == old(tape.sleeps)
      ensures t == old(tape.now) + plan.world.elapse(old(tape.calls))
    {
      assert plan.Keeps(Answering) && TicksAt(plan.world, tape.calls);
      t := tape.now + plan.world.elapse(tape.calls);
      tape := tape.Called().(now := t);
    }

    /** Waits for the account's window: 0 < wait <= six hours, ending strictly
        before the deadline, and on a later whole second than it began. */
    method WaitOut(resetsAt: Option<int>) returns (end: WaitEnd, ghost wait: real)
      requires plan.Ok()
      modifies this`tape
      ensures tape.now >= old(tape.now) && tape.sleeps >= old(tape.sleeps)
      ensures 0.0 < wait <= 21600.0
      ensures var at := old(tape.now) + plan.world.elapse(old(tape.calls));
        && wait == Pause(resetsAt, at)
        && (end.PastDeadline? <==> plan.until.Some? && at + wait >= plan.until.value)
        && tape.now == (if end.Reopened? then at + wait else at)
      ensures end.Reopened? ==> tape.now.Floor > old(tape.now).Floor && tape.sleeps == old(tape.sleeps) + 1
      ensures end.Reopened? && plan.until.Some? ==> tape.now < plan.until.value && tape.now - wait >= old(tape.now)
      ensures end.Reopened? && plan.until.None? ==> old(tape.sleeps) < plan.patience
      ensures end.PastDeadline? ==> plan.until.Some? && tape.now + wait >= plan.until.value
      ensures end.WaitInterrupted? ==> tape.sleeps > 0 && plan.world.interrupt(tape.sleeps - 1)
    {
      assert plan.Keeps(Patience);
      var at := Clock();
      var pause := Pause(resetsAt, at);
      wait := pause;
      if plan.until.Some? && pause >= plan.until.value - at {
        return PastDeadline, wait;
      }
      tape := tape.(sleeps := tape.sleeps + 1);
      if plan.world.interrupt(tape.sleeps - 1) {
        return WaitInterrupted, wait;
      }
      tape := tape.(now := at + pause);
      end := Reopened;
    }

    // -------------------------------------------------------------------------
    // The order's prefix

    method BlockingOf(c: Candidate) returns (found: set<SpecId>)
      ensures found == Blocking(c.dependsOn, queue.missed)
    {
      found := {};
      for i := 0 to |c.dependsOn|
        invariant found + Blocking(c.dependsOn[i..], queue.missed) == Blocking(c.dependsOn, queue.missed)
      {
        assert c.dependsOn[i..][1..] == c.dependsOn[i + 1..];
        if c.dependsOn[i] in queue.missed {
          found := found + queue.missed[c.dependsOn[i]];
        }
      }
    }

    /** Refuses every blocked spec at the head of `remaining`. */
    method ResolvePrefix() returns (pending: seq<Candidate>)
      requires plan.Ok() && Shape(plan, queue, progress)
      modifies this`queue, this`progress
      ensures Shape(plan, queue, progress) && pending == queue.remaining
      ensures Rescanned(plan.order, old(progress), progress) && Unblocked(queue)
    {
      assert plan.Keeps(Ordering);
      while queue.remaining != []
        invariant Shape(plan, queue, progress) && OnlyRefused(plan.order, old(progress), progress)
        invariant Unblocked(old(queue)) ==> progress == old(progress)
        decreases |queue.remaining|
      {
        var head := queue.remaining[0];
        var found := BlockingOf(head);
        if found == {} {
          break;
        }
        HeadOf(plan.order, progress);
        ghost var before := progress;
        progress := BlockHead(plan.order, plan.Funds(), progress);
        RefusedMore(plan.order, old(progress), before, progress);
        queue := Queue(queue.remaining[1..], queue.missed[head.id := found]);
      }
      pending := queue.remaining;
    }

    // A miss is recorded only in the order's own pass.
    method Miss(c: Candidate)
      modifies this`queue
      ensures queue == After(generation, old(queue), c, Missed)
    {
      if generation == 0 {
        queue := Queue(Without(queue.remaining, c), queue.missed[c.id := {c.id}]);
      }
    }

    // -------------------------------------------------------------------------
    // Review and revision

    method Pay(task: nat, phase: Phase, cost: real)
      requires book.Valid() && task <= book.tasks
      modifies this`book, this`peak
      ensures book == old(book).AddCharge(task, phase, cost)
      ensures peak == Max(old(peak), book.Total())
    {
      book := book.AddCharge(task, phase, cost);
      peak := Max(peak, book.Total());
    }

    method RecordText(task: nat, text: SpecText)
      requires book.Valid()
      modifies this`book
      ensures book == old(book).(texts := old(book).texts[task := text]) && book.Valid()
      ensures old(book).Complete() ==> book.Complete()
      ensures book.Total() == old(book).Total() && book.Written() == old(book).Written()
    {
      KeepsLaws(book, book.(texts := book.texts[task := text]));
      book := book.(texts := book.texts[task := text]);
    }

    // The citation check before a review: a defect that cannot be moved onto its
    // construct refuses the spec, and one that can is recorded as a revision.
    method CiteOnce(task: nat) returns (specText: Option<string>, refused: Option<RoundEnd>)
      requires plan.reviewing.Review? && Booked()
      modifies this`tape, this`book
      ensures Unslept() && Booked() && book == old(book).(texts := book.texts) && SameMoney(old(book), book)
      ensures refused.None? ==> specText == if task in book.texts then Some(book.texts[task].text) else None
      ensures var cited := plan.world.cite(old(tape.calls));
        if !plan.reviewing.cites then refused.None? && book == old(book) && tape == old(tape)
        else
          && tape == old(tape).Called()
          && refused == CiteStops(cited)
          && book.texts == if refused.None? && cited.moved.Some?
               then old(book).texts[task := SpecText(Revision, cited.moved.value)]
                           else old(book).texts
    {
      specText := if task in book.texts then Some(book.texts[task].text) else None;
      refused := None;
      if plan.reviewing.cites {
        var cited := plan.world.cite(tape.calls);
        tape := tape.Called();
        if cited.CiteRaised? {
          refused := Some(Ended(Threw(cited.runtimeError, false), true));
        } else if cited.left > 0 {
          refused := Some(Ended(Refused, true));
        } else if cited.moved.Some? {
          RecordText(task, SpecText(Revision, cited.moved.value));
          specText := cited.moved;
        }
      }
    }

    // What the session's own route is taken as.
    function RouteTaken(session: Review, rounds: nat): Route
      requires session.Reviewed?
    {
      if session.route != RouteRevise then session.route
      else if plan.reviewing.NoReview? || !plan.reviewing.revises then
        if session.blocker then RouteEscalate else RouteRun
      else if rounds >= MAX_REVISE_ROUNDS then RouteEscalate
      else RouteRevise
    }

    // A cleared spec of the order whose text was revised has its open pull
    // requests asked after once more.
    ghost predicate FoundOpen(task: nat, before: Book, calls: nat)
      reads this`generation
    {
      && generation == 0 && plan.refusesOpenPrs && task in before.texts && before.texts[task].origin == Revision
      && plan.world.openPr(calls)
    }

    // What a review session that returned comes to: it is paid for whatever it
    // says, and only its route clears a spec or asks for a revision.
    method TakeReview(c: Candidate, task: nat, session: Review, specText: Option<string>) returns (end: RoundEnd)
      requires session.Reviewed? && plan.reviewing.Review? && book.Valid() && task <= book.tasks
      modifies this`tape, this`desk, this`book, this`peak
      ensures Unslept()
      ensures book == old(book).AddCharge(task, SPEC_REVIEW, session.cost) && peak == Max(old(peak), book.Total())
      ensures var route := RouteTaken(session, old(desk).Rounds(c.id));
        && desk == old(desk).(
          reviewed := old(desk).reviewed + (if route == RouteRun then {c.id} else {}),
          followUpReviewed := old(desk).followUpReviewed
            + (if route != RouteWait && route != RouteError then {c.id} else {}))
        && end == match route
            case RouteRun => if FoundOpen(task, old(book), old(tape.calls)) then Ended(Refused, true) else Cleared
            case RouteWait => Ended(MustWait(session.resetsAt), false)
            case RouteError => Ended(Threw(false, false), true)
            case RouteRevise => Revising(specText, session.text)
            case RouteEscalate => Ended(Refused, true)
    {
      var route := RouteTaken(session, desk.Rounds(c.id));
      Pay(task, SPEC_REVIEW, session.cost);
      desk := desk.(
        followUpReviewed := desk.followUpReviewed + (if route != RouteWait && route != RouteError then {c.id} else {}));
      match route {
        case RouteWait => end := Ended(MustWait(session.resetsAt), false);
        case RouteEscalate => end := Ended(Refused, true);
        case RouteError => end := Ended(Threw(false, false), true);
        case RouteRevise => end := Revising(specText, session.text);
        case RouteRun =>
          desk := desk.(reviewed := desk.reviewed + {c.id});
          end := Cleared;
          if generation == 0 && plan.refusesOpenPrs && task in book.texts && book.texts[task].origin == Revision {
            tape := tape.Called();
            if plan.world.openPr(tape.calls - 1) {
              end := Ended(Refused, true);
            }
          }
      }
    }

    // What the review asked for comes to: a raise charges nothing, and any other
    // answer is charged, and clears the spec or sends it back by its route alone.
    ghost predicate ReviewTaken(before: Book, rounds: nat, task: nat, session: Review, end: RoundEnd)
      reads this`book
    {
      if session.ReviewRaised? then
        && book.charges == before.charges && book.Total() == before.Total()
        && end == Ended(Threw(session.runtimeError, false), !session.runtimeError)
      else
        && book.charges == before.charges + [Charge(task, SPEC_REVIEW, session.cost)]
        && book.Total() == before.Total() + session.cost
        && (end.Cleared? ==> RouteTaken(session, rounds) == RouteRun)
        && (RouteTaken(session, rounds) == RouteRun ==> end.Cleared? || exists n :: plan.world.openPr(n))
        && (end.Revising? <==> RouteTaken(session, rounds) == RouteRevise)
    }

    // What a review, or what kept it from being asked for, leaves of the money.
    twostate predicate ReviewPaid()
      reads this`book, this`peak
    {
      && Grew(old(book), book) && book.Valid() && book.Complete()
      && old(book).Total() <= book.Total() <= old(book).Total() + SPEC_REVIEW_SESSION_USD
      && book.Written() == old(book).Written() && peak == Max(old(peak), book.Total())
    }

    // Reviewing touches nothing on the desk but the two reviewed sets.
    twostate predicate OnlyReviewed(c: Candidate, end: RoundEnd)
      reads this`desk
    {
      && desk == old(desk).(reviewed := desk.reviewed, followUpReviewed := desk.followUpReviewed)
      && (end.Cleared? ==> c.id in desk.reviewed)
    }

    // The review itself.
    method AskReview(c: Candidate, task: nat, specText: Option<string>) returns (end: RoundEnd)
      requires plan.reviewing.Review? && Booked() && task in book.attached
      modifies this`tape, this`desk, this`book, this`peak, this`bills
      ensures Unslept() && ReviewPaid() && EndsWell(end) && OnlyReviewed(c, end)
      ensures ReviewTaken(old(book), old(desk).Rounds(c.id), task, plan.world.review(old(tape.calls)), end)
      ensures Accounted() && bills == old(bills) + [ReviewBill(old(tape.calls))]
    {
      assert plan.Keeps(Answering) && PricedAt(plan.world, tape.calls) && book.MintedAt(task);
      var session := plan.world.review(tape.calls);
      Note(ReviewBill(tape.calls));
      tape := tape.Called();
      if session.ReviewRaised? {
        return Ended(Threw(session.runtimeError, false), !session.runtimeError);
      }
      end := TakeReview(c, task, session, specText);
    }

    // One round of citations and review, up to the route it takes. Records no
    // miss. A spec is cleared only by the review asked for here.
    method ReviewOnce(c: Candidate, task: nat) returns (end: RoundEnd, ghost asked: Option<nat>)
      requires plan.reviewing.Review? && Booked() && task in book.attached
      modifies this`tape, this`desk, this`book, this`peak, this`bills
      ensures Unslept() && ReviewPaid() && EndsWell(end) && OnlyReviewed(c, end)
      ensures Accounted() && bills == old(bills) + (if asked.Some? then [ReviewBill(asked.value)] else [])
      ensures asked.None? <==> plan.reviewing.cites && CiteStops(plan.world.cite(old(tape.calls))).Some?
      ensures asked.None? ==> SameMoney(old(book), book) && desk == old(desk) && end.Ended? && end.miss
      ensures asked.Some? ==> ReviewTaken(old(book), old(desk).Rounds(c.id), task, plan.world.review(asked.value), end)
    {
      asked := None;
      var specText, refused := CiteOnce(task);
      if refused.Some? {
        end := refused.value;
      } else {
        asked := Some(tape.calls);
        end := AskReview(c, task, specText);
      }
    }

    // A revision the budget does not cover is refused unasked, and one that is
    // asked for is charged unless it raised.
    ghost predicate RevisionTaken(before: Book, c: Candidate, task: nat, purse: real, turn: Revise, end: RoundEnd)
      reads this`book
    {
      if purse - before.Total() < SPEC_WRITER_SESSION_USD + SPEC_REVIEW_SESSION_USD + c.budget then
        end == Ended(Refused, true) && book == before
      else if turn.ReviseRaised? then
        end == Ended(Threw(turn.runtimeError, false), true) && book == before
      else
        && book.charges == before.charges + [Charge(task, SPEC_WRITING, turn.cost)]
        && (end.Revising? <==> turn.resetsAt.None? && !turn.failed)
        && (end.Revising? ==> task in book.texts && book.texts[task] == SpecText(Revision, turn.text))
    }

    // What a revision leaves of the money: all it cost was spent on writing.
    twostate predicate RevisionPaid()
      reads this`book, this`peak
    {
      && Grew(old(book), book) && book.Valid() && book.Complete()
      && book.Total() - old(book).Total() == book.Written() - old(book).Written() >= 0.0
      && peak == Max(old(peak), book.Total())
    }

    // What it leaves on the desk: a session that met the account's limit keeps its
    // pair, and only one that wrote counts.
    twostate predicate RevisionNoted(c: Candidate, pair: (Option<string>, string), end: RoundEnd)
      reads this`desk
    {
      && desk == old(desk).(rounds := desk.rounds, pendingRevision := desk.pendingRevision)
      && desk.Rounds(c.id) == old(desk).Rounds(c.id) + (if end.Revising? then 1 else 0)
      && desk.pendingRevision ==
          if end.Ended? && end.result.MustWait? then old(desk).pendingRevision[c.id := pair]
          else old(desk).pendingRevision
    }

    // One revision, when the budget still covers it, the review that must follow
    // it and the cell. Records no miss.
    method ReviseOnce(c: Candidate, task: nat, purse: real, specText: Option<string>, reviewText: string)
      returns (end: RoundEnd)
      requires Booked() && task in book.attached
      requires desk.Rounds(c.id) < MAX_REVISE_ROUNDS && c.id !in desk.pendingRevision
      modifies this`tape, this`desk, this`book, this`peak, this`bills
      ensures Accounted() && bills == old(bills)
        + (if purse - old(book).Total() < SPEC_WRITER_SESSION_USD + SPEC_REVIEW_SESSION_USD + c.budget then []
           else [ReviseBill(old(tape.calls))])
      ensures Unslept() && RevisionPaid() && RevisionNoted(c, (specText, reviewText), end) && desk.Ok(book.attached)
      ensures !end.Cleared? && EndsWell(end)
      ensures end.Revising? || book.Total() != old(book).Total() ==>
        Affordable(book, c, purse - SPEC_REVIEW_SESSION_USD)
      ensures RevisionTaken(old(book), c, task, purse, plan.world.revise(old(tape.calls)), end)
    {
      assert plan.Keeps(Answering) && PricedAt(plan.world, tape.calls);
      var needed := SPEC_WRITER_SESSION_USD + SPEC_REVIEW_SESSION_USD + c.budget;
      if purse - book.BatchSpend() < needed {
        return Ended(Refused, true);
      }
      var turn := plan.world.revise(tape.calls);
      Note(ReviseBill(tape.calls));
      tape := tape.Called();
      if turn.ReviseRaised? {
        return Ended(Threw(turn.runtimeError, false), true);
      }
      end := TakeTurn(c, task, turn, specText, reviewText);
    }

    // What a writer session that returned comes to, once it is paid for.
    method TakeTurn(c: Candidate, task: nat, turn: Revise, specText: Option<string>, reviewText: string)
      returns (end: RoundEnd)
      requires turn.Wrote? && turn.cost >= 0.0 && Booked() && task in book.attached
      requires desk.Rounds(c.id) < MAX_REVISE_ROUNDS && c.id !in desk.pendingRevision
      modifies this`desk, this`book, this`peak
      ensures RevisionPaid() && RevisionNoted(c, (specText, reviewText), end) && desk.Ok(book.attached)
      ensures book.Total() == old(book).Total() + turn.cost
      ensures book.charges == old(book).charges + [Charge(task, SPEC_WRITING, turn.cost)]
      ensures end ==
        if turn.resetsAt.Some? then Ended(MustWait(turn.resetsAt), false)
        else if turn.failed then Ended(Threw(false, false), true)
        else Revising(specText, reviewText)
      ensures book.texts ==
        if end.Revising? then old(book).texts[task := SpecText(Revision, turn.text)] else old(book).texts
    {
      assert book.MintedAt(task);
      Pay(task, SPEC_WRITING, turn.cost);
      if turn.resetsAt.Some? {
        desk := desk.Waiting(c.id, (specText, reviewText), book.attached);
        end := Ended(MustWait(turn.resetsAt), false);
      } else if turn.failed {
        end := Ended(Threw(false, false), true);
      } else {
        desk := desk.Revised(c.id, book.attached);
        RecordText(task, SpecText(Revision, turn.text));
        end := Revising(specText, reviewText);
      }
    }

    // What review has come to between two rounds, with `spare` the writer's bound.
    ghost predicate MidReview(c: Candidate, task: nat, purse: real, share: real, spare: real)
      reads this`desk, this`book, this`peak
    {
      && Booked() && task in book.attached && c.budget >= 0.0 && spare >= 0.0
      && Affordable(book, c, purse) && WithinShare(book, c, share, purse + spare)
    }

    // On a calm night a review costs nothing and leaves nothing waiting.
    twostate predicate Unspent()
      reads this`book, this`desk
    {
      SameMoney(old(book), book) && desk.pendingRevision == old(desk).pendingRevision
    }

    // The pair a waiting revision was given, or what a new review asks for.
    method TakeUp(c: Candidate, task: nat) returns (end: RoundEnd)
      requires plan.reviewing.Review? && Booked() && task in book.attached
      modifies this`tape, this`desk, this`book, this`peak, this`bills
      ensures Unslept() && ReviewPaid() && EndsWell(end) && Accounted()
      ensures desk.Ok(book.attached) && desk.taskIds == old(desk).taskIds && desk.rounds == old(desk).rounds
      ensures end.Cleared? ==> c.id in desk.reviewed
      ensures c.id in old(desk).pendingRevision ==>
        book == old(book) && end == Revising(old(desk).pendingRevision[c.id].0, old(desk).pendingRevision[c.id].1)
      ensures end.Revising? ==> desk.Rounds(c.id) < MAX_REVISE_ROUNDS && c.id !in desk.pendingRevision
      ensures Calm(plan.world) && c.id !in old(desk).pendingRevision ==> end.Cleared? && Unspent()
    {
      if c.id in desk.pendingRevision {
        end := Revising(desk.pendingRevision[c.id].0, desk.pendingRevision[c.id].1);
        desk := desk.(pendingRevision := desk.pendingRevision - {c.id});
        StaysOk(old(desk), desk, c.id, book.attached, book.attached);
      } else {
        ghost var asked;
        end, asked := ReviewOnce(c, task);
        StaysOk(old(desk), desk, c.id, old(book).attached, book.attached);
        if Calm(plan.world) {
          CalmReview(plan.world, c, old(tape.calls), asked);
        }
      }
    }

    // A review, unless a revision is waiting to be taken up, and the revision it
    // asks for.
    method ReviewRound(c: Candidate, task: nat, purse: real, ghost share: real, ghost spare: real)
      returns (end: RoundEnd)
      requires plan.reviewing.Review? && MidReview(c, task, purse, share, spare)
      modifies this`tape, this`desk, this`book, this`peak, this`bills
      ensures Unslept() && book.Valid() && book.Complete() && Grew(old(book), book) && EndsWell(end) && Accounted()
      ensures desk.Ok(book.attached) && desk.taskIds == old(desk).taskIds && (end.Cleared? ==> c.id in desk.reviewed)
      ensures end.Revising? ==>
        && desk.Rounds(c.id) == old(desk).Rounds(c.id) + 1
        && MidReview(c, task, purse, share, spare + SPEC_REVIEW_SESSION_USD)
      ensures Affordable(book, c, purse + SPEC_REVIEW_SESSION_USD)
      ensures WithinShare(book, c, share, purse + spare + SPEC_REVIEW_SESSION_USD)
      ensures old(peak) <= peak <= Max(old(peak), purse + SPEC_REVIEW_SESSION_USD) && peak >= book.Total()
      ensures MoneyGrew(old(book), book)
      ensures Calm(plan.world) && c.id !in old(desk).pendingRevision ==> end.Cleared? && Unspent()
    {
      end := TakeUp(c, task);
      AfterReview(old(book), book, c, purse, share, spare);
      if end.Revising? {
        ghost var read := book;
        end := ReviseOnce(c, task, purse, end.specText, end.reviewText);
        AfterRevision(read, book, c, purse, share, purse + spare + SPEC_REVIEW_SESSION_USD);
      }
    }

    /** Review, and revise while the review asks for it, until the spec is cleared
        to run or the call ends without a cell. A revision interrupted by the
        account's limit is taken up again with the pair it was given. */
    method ReviewAndRevise(c: Candidate, task: nat, purse: real, ghost share: real) returns (end: RoundEnd)
      requires plan.reviewing.Review? && Booked() && task in book.attached && Priceable(book, c, purse, share)
      modifies this`tape, this`desk, this`book, this`peak, this`bills
      ensures Unslept() && Booked() && Grew(old(book), book) && MoneyGrew(old(book), book) && Accounted()
      ensures desk.taskIds == old(desk).taskIds && (end.Cleared? ==> c.id in desk.reviewed)
      ensures EndsWell(end) && !end.Revising?
      ensures Reviewable(book, c, purse, share) && old(peak) <= peak <= Max(old(peak), purse + SPEC_REVIEW_SESSION_USD)
      ensures Calm(plan.world) && c.id !in old(desk).pendingRevision ==> end.Cleared? && Unspent()
    {
      ghost var before := desk.Rounds(c.id);
      end := Revising(None, "");
      assert desk.OkAt(book.attached, c.id);
      while end.Revising?
        invariant Unslept() && Booked() && Grew(old(book), book) && MoneyGrew(old(book), book) && Accounted()
        invariant desk.taskIds == old(desk).taskIds && EndsWell(end) && (end.Cleared? ==> c.id in desk.reviewed)
        invariant desk.Rounds(c.id) <= MAX_REVISE_ROUNDS
        invariant end.Revising? ==>
          before <= desk.Rounds(c.id) && MidReview(c, task, purse, share, ReviewsUsd(desk.Rounds(c.id) - before))
        invariant !end.Revising? ==> Reviewable(book, c, purse, share)
        invariant old(peak) <= peak <= Max(old(peak), purse + SPEC_REVIEW_SESSION_USD)
        invariant Calm(plan.world) && c.id !in old(desk).pendingRevision ==> !end.Ended? && Unspent()
        decreases if end.Revising? then MAX_REVISE_ROUNDS - desk.Rounds(c.id) + 1 else 0
      {
        ghost var spare := ReviewsUsd(desk.Rounds(c.id) - before);
        end := ReviewRound(c, task, purse, share, spare);
        assert desk.OkAt(book.attached, c.id);
      }
    }

    // -------------------------------------------------------------------------
    // The wrapped runner

    // Whether the next call is cut from no layer of this batch.
    predicate StandsOnBase()
      reads this`generation, this`top
    {
      generation == 0 && top.predecessor.None? && plan.StackBaseOf().Some?
    }

    // Whether the runner's candidate may be cut straight from the stack base.
    // Once its branch is known gone, nothing more is asked.
    method AskStackBase(c: Candidate) returns (end: RoundEnd, ghost asked: nat)
      requires StandsOnBase()
      modifies this`tape, this`stackBaseGone
      ensures Unslept() && asked == old(tape.calls)
      ensures end.Ended? && !end.miss ==> end.result.Threw? && (Requeues(end.result) || plan.BaseRaises())
      ensures end.Cleared? && plan.asksAlive ==> plan.world.alive(asked, c).StillThere?
      ensures var asks := !old(stackBaseGone) && plan.asksAlive; var answer := plan.world.alive(asked, c);
        && stackBaseGone == (old(stackBaseGone) || (asks && answer.Gone?))
        && tape == (if asks then old(tape).Called() else old(tape))
        && end == (if asks && answer.AliveRaised? then Ended(Threw(answer.runtimeError, false), false)
                   else if stackBaseGone then Ended(Refused, true) else Cleared)
    {
      end, asked := Cleared, tape.calls;
      if !stackBaseGone && plan.asksAlive {
        var answer := plan.world.alive(tape.calls, c);
        tape := tape.Called();
        match answer {
          case StillThere =>
          case Gone => stackBaseGone := true;
          case AliveRaised(runtimeError) => return Ended(Threw(runtimeError, false), false), asked;
        }
      }
      if stackBaseGone {
        end := Ended(Refused, true);
      }
    }

    // The task a spec's review is recorded against. A raise is always a miss.
    method MintTask(c: Candidate) returns (end: RoundEnd)
      requires Booked()
      modifies this`tape, this`desk, this`book
      ensures Unslept() && Booked() && Grew(old(book), book) && SameMoney(old(book), book)
      ensures book == old(book).(tasks := book.tasks, attached := book.attached)
      ensures end.Cleared? ==> c.id in desk.taskIds
      ensures EndsWell(end)
      ensures var answer := plan.world.mint(old(tape.calls));
        && end == (if answer.Minted? then Cleared else Ended(Threw(answer.runtimeError, false), true))
        && book.tasks == old(book).tasks + (if answer.Minted? || answer.minted then 1 else 0)
        && desk == (if answer.Minted? then old(desk).(taskIds := old(desk).taskIds[c.id := book.tasks]) else old(desk))
    {
      var minted := plan.world.mint(tape.calls);
      tape := tape.Called();
      if minted.MintRaised? {
        if minted.minted {
          book := book.Mint();
        }
        return Ended(Threw(minted.runtimeError, false), true);
      }
      book := book.Mint();
      book := book.Attach(book.tasks);
      ghost var before := desk;
      desk := desk.(taskIds := desk.taskIds[c.id := book.tasks]);
      forall id ensures desk.OkAt(book.attached, id) { assert before.OkAt(old(book).attached, id); }
      end := Cleared;
    }

    // What everything before the runner leaves of the money.
    twostate predicate Prepared(c: Candidate, purse: real, share: real)
      reads this`book, this`peak
    {
      && Grew(old(book), book) && MoneyGrew(old(book), book) && Reviewable(book, c, purse, share)
      && old(peak) <= peak <= Max(old(peak), purse + SPEC_REVIEW_SESSION_USD)
    }

    // The task a review is recorded against, and the review itself, once.
    method PrepareReviewed(c: Candidate, purse: real, ghost share: real) returns (end: RoundEnd)
      requires plan.reviewing.Review? && Booked() && Priceable(book, c, purse, share)
      modifies this`tape, this`desk, this`book, this`peak, this`bills
      ensures Unslept() && Booked() && Prepared(c, purse, share) && !end.Revising? && EndsWell(end) && Accounted()
      ensures end.Cleared? ==> c.id in desk.reviewed && c.id in desk.taskIds
      ensures Calm(plan.world) && old(desk).pendingRevision == map[] ==> end.Cleared? && Unspent()
    {
      assert Calm(plan.world) ==> CalmAt(plan.world, tape.calls, c);
      if c.id !in desk.taskIds {
        end := MintTask(c);
        if end.Ended? {
          return;
        }
      }
      if c.id in desk.reviewed {
        return Cleared;
      }
      end := ReviewMinted(c, purse, share);
    }

    // The review of a spec with a task, unless it is a follow-up whose pull
    // request is open already.
    method ReviewMinted(c: Candidate, purse: real, ghost share: real) returns (end: RoundEnd)
      requires plan.reviewing.Review? && Booked() && Priceable(book, c, purse, share) && c.id in desk.taskIds
      modifies this`tape, this`desk, this`book, this`peak, this`bills
      ensures Unslept() && Booked() && Prepared(c, purse, share) && !end.Revising? && EndsWell(end) && Accounted()
      ensures desk.taskIds == old(desk).taskIds && (end.Cleared? ==> c.id in desk.reviewed)
      ensures Calm(plan.world) && c.id !in old(desk).pendingRevision ==> end.Cleared? && Unspent()
    {
      assert Calm(plan.world) ==> CalmAt(plan.world, tape.calls, c);
      if generation == 1 && plan.refusesOpenPrs {
        tape := tape.Called();
        if plan.world.openPr(tape.calls - 1) {
          return Ended(Refused, true);
        }
      }
      assert desk.OkAt(book.attached, c.id);
      end := ReviewAndRevise(c, desk.taskIds[c.id], purse, share);
    }

    // Everything a call does before the runner.
    method Prepare(c: Candidate, purse: real, ghost share: real) returns (end: RoundEnd, ghost asked: nat)
      requires Booked() && Priceable(book, c, purse, share)
      modifies this`tape, this`desk, this`book, this`peak, this`bills, this`stackBaseGone
      ensures Unslept() && Booked() && Prepared(c, purse, share) && !end.Revising? && Accounted()
      ensures end.Cleared? ==> plan.reviewing.NoReview? || (c.id in desk.reviewed && c.id in desk.taskIds)
      ensures end.Cleared? && StandsOnBase() && plan.asksAlive ==> plan.world.alive(asked, c).StillThere?
      ensures MayEnd(end)
      ensures Calm(plan.world) && old(desk).pendingRevision == map[] && !old(stackBaseGone) ==>
        && Unspent() && !stackBaseGone
        && end == if StandsOnBase() && plan.asksAlive && plan.world.alive(0, c).AliveRaised?
                  then Ended(Threw(false, false), false) else Cleared
    {
      assert Calm(plan.world) ==> CalmAt(plan.world, tape.calls, c);
      asked := 0;
      if StandsOnBase() {
        end, asked := AskStackBase(c);
        if end.Ended? {
          return;
        }
      }
      if plan.reviewing.NoReview? {
        end := Cleared;
      } else {
        end := PrepareReviewed(c, purse, share);
      }
    }

    // A call of the runner, with everything recorded when it is made.
    ghost function CallOf(c: Candidate, asked: nat): CellCall
      reads this`top, this`generation, this`desk, this`book
    {
      CellCall(c, top.predecessor, book.layers, generation,
        plan.reviewing.Review? ==> c.id in desk.reviewed,
        StandsOnBase() && plan.asksAlive ==> plan.world.alive(asked, c).StillThere?)
    }

    // Where a spec of the order stands when its turn comes.
    ghost predicate OnTurn(c: Candidate)
      reads this`queue, this`progress, this`generation, this`book
    {
      && (progress.everSkipped ==> plan.BaseRaises())
      && (generation == 0 ==> Offered(plan, begun, queue, progress, c) && progress.layered == SpecIds(book.layers))
    }

    // What is recorded when the runner is called on a spec.
    ghost method NoteCall(c: Candidate, asked: nat)
      requires plan.Ok() && CallsOk(plan, begun, cells) && IsTop(top.predecessor, book.layers) && OnTurn(c)
      requires plan.reviewing.Review? ==> c.id in desk.reviewed
      requires StandsOnBase() && plan.asksAlive ==> plan.world.alive(asked, c).StillThere?
      modifies this`cells
      ensures CallsOk(plan, begun, cells) && cells == old(cells) + [CallOf(c, asked)]
    {
      if generation == 0 {
        OfferedIsSound(plan, begun, queue, progress, c);
      }
      CallsAppend(plan, begun, cells, CallOf(c, asked));
      cells := cells + [CallOf(c, asked)];
    }

    // What the runner's answer comes to, and what it charges to which task: the
    // one the review was recorded against, or one minted by the call.
    ghost predicate CellTaken(before: Book, c: Candidate, answer: Cell, r: RunResult)
      reads this`desk, this`book
    {
      if answer.CellRefused? then r == Refused && book == before
      else
        var own := plan.reviewing.Review? && c.id in desk.taskIds;
        var minted := !own && (answer.CellOutcome? || answer.minted);
        var task := if own then desk.taskIds[c.id] else book.tasks;
        && r == ResultOf(answer, task) && book.tasks == before.tasks + (if minted then 1 else 0)
        && book.charges == before.charges + (if own || minted then [Charge(task, CELL, answer.cost)] else [])
        && book.Total() == before.Total() + (if own || minted then answer.cost else 0.0)
    }

    // Whether a cell's attempts have a task: the one its review was recorded against,
    // or one minted by the call.
    ghost predicate CellFiled(c: Candidate, n: nat)
    {
      plan.reviewing.Review? || plan.world.cell(n, c).CellOutcome?
        || (plan.world.cell(n, c).CellRaised? && plan.world.cell(n, c).minted)
    }

    // What the runner's call leaves of the money: what the cell cost, on no text.
    twostate predicate CellPaid(c: Candidate)
      reads this`book, this`peak
    {
      && Grew(old(book), book) && book.Valid() && peak == Max(old(peak), book.Total())
      && old(book).Total() <= book.Total() <= old(book).Total() + c.budget && book.Written() == old(book).Written()
    }

    // The one call of the runner.
    method RunCell(c: Candidate) returns (r: RunResult)
      requires Booked() && c.budget >= 0.0
      requires plan.reviewing.Review? ==> c.id in desk.taskIds
      modifies this`tape, this`book, this`peak, this`bills
      ensures Accounted() && bills == old(bills) + [CellBill(old(tape.calls), c, CellFiled(c, old(tape.calls)))]
      ensures Unslept() && CellPaid(c) && CompleteBut(book, r, old(book).tasks)
      ensures !r.MustWait? && (r.Came? ==> r.task <= book.tasks)
      ensures CellTaken(old(book), c, plan.world.cell(old(tape.calls), c), r)
    {
      assert plan.Keeps(Answering) && CellPricedAt(plan.world, tape.calls, c);
      assert desk.OkAt(book.attached, c.id);
      var answer := plan.world.cell(tape.calls, c);
      Note(CellBill(tape.calls, c, CellFiled(c, tape.calls)));
      tape := tape.Called();
      if answer.CellRefused? {
        AllButNone(book, Refused, book.tasks);
        r := Refused;
      } else if plan.reviewing.Review? {
        assert book.MintedAt(desk.taskIds[c.id]);
        r := ChargeCell(desk.taskIds[c.id], answer, book.tasks);
      } else if answer.CellOutcome? || answer.minted {
        book := book.Mint();
        r := ChargeCell(book.tasks, answer, book.tasks - 1);
      } else {
        r := ResultOf(answer, book.tasks);
        AllButNone(book, r, book.tasks);
      }
    }

    // The attempt a cell was run for, charged.
    method ChargeCell(task: nat, answer: Cell, ghost highWater: nat) returns (r: RunResult)
      requires !answer.CellRefused? && book.Valid() && book.Complete() && task <= book.tasks
      requires task in book.attached || task > highWater
      modifies this`book, this`peak
      ensures book == old(book).AddCharge(task, CELL, answer.cost) && peak == Max(old(peak), book.Total())
      ensures r == ResultOf(answer, task) && CompleteBut(book, r, highWater)
    {
      r := ResultOf(answer, task);
      AllButNone(book, r, highWater);
      AllButOne(book, r, highWater, Charge(task, CELL, answer.cost));
      Pay(task, CELL, answer.cost);
    }

    // What a result of the runner does to the spec's place in `remaining`.
    method Settle(c: Candidate, r: RunResult) returns (ghost fate: Fate)
      modifies this`top, this`queue
      ensures fate == FateOf(generation, r)
      ensures top == if IsLayer(r) then old(top).(predecessor := Some(c)) else old(top)
      ensures queue == After(generation, old(queue), c, fate)
    {
      fate := FateOf(generation, r);
      if Requeues(r) {
        return;
      }
      if IsLayer(r) {
        if generation == 0 {
          queue := queue.(remaining := Without(queue.remaining, c));
        }
        top := top.(predecessor := Some(c));
      } else {
        Miss(c);
      }
    }

    // What one call leaves: its fate, and a ledger in which only what its result
    // is about to attach is not attached yet.
    twostate predicate Called(c: Candidate, r: RunResult, fate: Fate)
      reads this`top, this`queue, this`book, this`generation
    {
      && generation == old(generation) && Grew(old(book), book) && MoneyGrew(old(book), book)
      && book.Valid() && CompleteBut(book, r, old(book).tasks) && (r.Came? ==> r.task <= book.tasks)
      && Fated(c, r, fate)
    }

    // What it did to the spec's place, and to the newest layer the runner is told
    // of. A spec stays queued to be offered again, or on a raise from the question
    // after the stack base.
    twostate predicate Fated(c: Candidate, r: RunResult, fate: Fate)
      reads this`top, this`queue, this`book, this`generation
    {
      && (fate == Layered <==> IsLayer(r)) && (fate == Missed ==> generation == 0)
      && (generation == 0 && fate == Stays ==> Requeues(r) || (r.Threw? && plan.BaseRaises() && old(book).layers == []))
      && top == (if IsLayer(r) then old(top).(predecessor := Some(c)) else old(top))
      && queue == After(generation, old(queue), c, fate)
    }

    // What a call on a calm night comes to, while nothing was spent.
    twostate predicate CalmCalled(c: Candidate, r: RunResult, fate: Fate, call: Option<CellCall>)
      reads this`tape, this`book, this`desk, this`stackBaseGone, this`progress, this`generation
    {
      Calm(plan.world) && generation == 0 && Idle(old(Now())) ==> CalmOutcome(plan, old(Now()), Now(), c, r, fate, call)
    }

    /** One call on an offered spec, and what it did to the spec's place. */
    method Wrapped(c: Candidate, purse: real, ghost share: real)
      returns (r: RunResult, ghost fate: Fate, ghost call: Option<CellCall>)
      requires Booked() && CallsOk(plan, begun, cells) && IsTop(top.predecessor, book.layers) && OnTurn(c)
      requires Priceable(book, c, purse, share)
      modifies this`tape, this`desk, this`book, this`peak, this`bills, this`stackBaseGone, this`cells
      modifies this`top, this`queue
      ensures Unslept() && desk.Ok(book.attached) && Called(c, r, fate) && Accounted()
      ensures CallsOk(plan, begun, cells) && cells == old(cells) + (if call.Some? then [call.value] else [])
      ensures Spent(book, peak, old(peak), purse, share)
      ensures CalmCalled(c, r, fate, call)
    {
      var end;
      ghost var asked;
      end, asked := Prepare(c, purse, share);
      ghost var prepared, peakBefore, moment := book, peak, Now();
      r, fate, call := Finish(c, end, asked);
      ButFrom(book, r, prepared.tasks, old(book).tasks);
      SpendsWithin(prepared, peakBefore, book, peak, old(peak), c, purse, share);
      if Calm(plan.world) && generation == 0 && Idle(old(Now())) {
        CalmCame(plan, old(Now()), moment, Now(), c, end, r, fate, call);
      }
    }

    // The rest of a call that was prepared: nothing more if that ended it, or the
    // runner's own call.
    method Finish(c: Candidate, end: RoundEnd, ghost asked: nat)
      returns (r: RunResult, ghost fate: Fate, ghost call: Option<CellCall>)
      requires Booked() && CallsOk(plan, begun, cells) && IsTop(top.predecessor, book.layers) && OnTurn(c)
      requires c.budget >= 0.0
      requires !end.Revising? && MayEnd(end)
      requires end.Cleared? ==> plan.reviewing.NoReview? || (c.id in desk.reviewed && c.id in desk.taskIds)
      requires end.Cleared? && StandsOnBase() && plan.asksAlive ==> plan.world.alive(asked, c).StillThere?
      modifies this`tape, this`book, this`peak, this`bills, this`cells, this`top, this`queue
      ensures Unslept() && desk.Ok(book.attached) && CellPaid(c) && Fated(c, r, fate) && Accounted()
      ensures CompleteBut(book, r, old(book).tasks) && (r.Came? ==> r.task <= book.tasks)
      ensures CallsOk(plan, begun, cells) && cells == old(cells) + (if call.Some? then [call.value] else [])
      ensures end.Ended? ==>
        r == end.result && call.None? && fate == (if end.miss && generation == 0 then Missed else Stays)
      ensures Calm(plan.world) && generation == 0 ==> SameMoney(old(book), book)
      ensures Calm(plan.world) && generation == 0 && end.Cleared? ==>
        && call == Some(old(CallOf(c, asked)))
        && if plan.world.cell(0, c).CellRefused? then r == Refused && fate == Missed else IsLayer(r) && fate == Layered
      ensures end.Ended? ==> book == old(book)
    {
      if end.Ended? {
        r, call := end.result, None;
        fate := EndEarly(c, end);
        AllButNone(book, r, book.tasks);
      } else {
        call := Some(CallOf(c, asked));
        NoteCall(c, asked);
        r, fate := RunAndSettle(c);
      }
    }

    // A call ends early as a miss or to be offered again, or on a raise from the
    // question after the stack base.
    ghost predicate MayEnd(end: RoundEnd)
      reads this`generation, this`top
    {
      EndsWell(end) || (end.Ended? && !end.miss && end.result.Threw? && plan.BaseRaises() && StandsOnBase())
    }

    // A call that ended before the runner, and what that does to the spec's place.
    method EndEarly(c: Candidate, end: RoundEnd) returns (ghost fate: Fate)
      requires end.Ended?
      modifies this`queue
      ensures fate == (if end.miss && generation == 0 then Missed else Stays)
      ensures queue == After(generation, old(queue), c, fate)
    {
      fate := Stays;
      if end.miss {
        Miss(c);
        if generation == 0 { fate := Missed; }
      }
    }

    // The runner's call and what it does to the spec's place.
    method RunAndSettle(c: Candidate) returns (r: RunResult, ghost fate: Fate)
      requires Booked() && c.budget >= 0.0 && (plan.reviewing.Review? ==> c.id in desk.taskIds)
      modifies this`tape, this`book, this`peak, this`bills, this`top, this`queue
      ensures Unslept() && desk.Ok(book.attached) && CellPaid(c) && Accounted()
      ensures CompleteBut(book, r, old(book).tasks) && (r.Came? ==> r.task <= book.tasks)
      ensures Fated(c, r, fate) && fate == FateOf(generation, r)
      ensures CellTaken(old(book), c, plan.world.cell(old(tape.calls), c), r)
      ensures Calm(plan.world) && generation == 0 ==>
        && SameMoney(old(book), book)
        && if plan.world.cell(0, c).CellRefused? then r == Refused && fate == Missed else IsLayer(r) && fate == Layered
    {
      r := RunCell(c);
      assert desk.Ok(book.attached) by {
        StaysOk(desk, desk, "", old(book).attached, book.attached);
      }
      if Calm(plan.world) { CalmSettles(old(book), c, old(tape.calls), r); }
      fate := Settle(c, r);
    }

    // On a calm night a cell costs nothing and refuses or packages.
    lemma CalmSettles(before: Book, c: Candidate, n: nat, r: RunResult)
      requires Calm(plan.world) && CellTaken(before, c, plan.world.cell(n, c), r) && book.Written() == before.Written()
      ensures SameMoney(before, book)
      ensures if plan.world.cell(0, c).CellRefused? then r == Refused else IsLayer(r)
    {
      assert CalmAt(plan.world, n, c);
    }

    // -------------------------------------------------------------------------
    // The driver

    // Why a pass may stop with each reason.
    ghost predicate Justified(stop: DriveStop, aborts: nat, purse: real, share: real)
      reads this`progress, this`generation, this`book, this`followUps, this`tape, this`queue
    {
      match stop
      case Interrupted => tape.sleeps > 0 && plan.world.interrupt(tape.sleeps - 1)
      case Stopped(DRAINED) => aborts < BREAKER_THRESHOLD && (generation == 0 ==> progress.done == |plan.order|)
      case Stopped(BUDGET) =>
        if generation == 0 then
          progress.done < |plan.order| && !Priceable(book, plan.order[progress.done], purse, share) && Unblocked(queue)
        else exists i :: 0 <= i < |followUps| && !Priceable(book, followUps[i], purse, share)
      case Stopped(UNTIL) => plan.until.Some? && tape.now + LONGEST_WAIT as real >= plan.until.value
      case Stopped(INFRASTRUCTURE) => aborts >= BREAKER_THRESHOLD
      case Stopped(INCOMPLETE) => false
    }

    // One stack_layers row for a spec that reached READY_FOR_REVIEW, above the
    // last that did.
    method RecordLayer(c: Candidate, task: nat)
      requires ChainOk(baseTask, top, book.layers)
      modifies this`top, this`book
      ensures ChainOk(baseTask, top, book.layers) && top.predecessor == old(top).predecessor
      ensures SpecIds(book.layers) == SpecIds(old(book).layers) + {c.id} && IsTop(Some(c), book.layers)
      ensures book == old(book).(layers := book.layers)
      ensures book.layers ==
        old(book).layers + [LayerRow(task, c.id, old(top).position + 1, old(top).predecessorTask, generation)]
    {
      var row := LayerRow(task, c.id, top.position + 1, top.predecessorTask, generation);
      ChainedAppend(book.layers, baseTask, row);
      book := book.(layers := book.layers + [row]);
      top := top.(position := top.position + 1, predecessorTask := Some(task));
    }

    // A result's run is attached: its own, or on a raise every one minted since.
    method AttachRun(r: RunResult, highWater: nat)
      requires book.Valid() && CompleteBut(book, r, highWater) && highWater <= book.tasks
      requires (r.Came? ==> r.task <= book.tasks) && desk.Ok(book.attached)
      modifies this`book
      ensures book.Valid() && book.Complete() && desk.Ok(book.attached)
      ensures book == old(book).(attached := book.attached) && SameMoney(old(book), book)
      ensures forall t :: t in book.attached <==>
        t in old(book).attached || (r.Came? && t == r.task) || (r.Threw? && highWater < t <= book.tasks)
    {
      if r.Came? {
        book := book.Attach(r.task);
      } else if r.Threw? {
        book := book.AttachOrphans(highWater);
      }
      forall c ensures book.AttachedAt(c) { assert AttachedButAt(old(book), r, highWater, c) && old(book).FiledAt(c); }
      StaysOk(desk, desk, "", old(book).attached, book.attached);
    }

    // Books a result: its run is attached, its layer recorded, its abort counted.
    // A wait is left to the caller.
    method Record(c: Candidate, r: RunResult, highWater: nat, aborts: nat) returns (aborts': nat)
      requires book.Valid() && CompleteBut(book, r, highWater) && highWater <= book.tasks
      requires (r.Came? ==> r.task <= book.tasks) && desk.Ok(book.attached) && ChainOk(baseTask, top, book.layers)
      requires if IsLayer(r) then top.predecessor == Some(c) else IsTop(top.predecessor, book.layers)
      modifies this`top, this`book, this`leftovers
      ensures book.Valid() && book.Complete() && desk.Ok(book.attached) && SameMoney(old(book), book)
      ensures book == old(book).(attached := book.attached, layers := book.layers) && Extends(old(book), book)
      ensures ChainOk(baseTask, top, book.layers) && IsTop(top.predecessor, book.layers)
      ensures SpecIds(book.layers) == SpecIds(old(book).layers) + (if IsLayer(r) then {c.id} else {})
      ensures !IsLayer(r) ==> book.layers == old(book).layers
      ensures aborts' == AbortsAfter(r, aborts)
      ensures leftovers == Leftovers(
        old(leftovers).inFlight + (if r.Came? && InFlight(r.state) then [(c.id, r.state)] else []),
        old(leftovers).packageRaised + (if r.Threw? && r.packaged then [c.id] else []))
    {
      AttachRun(r, highWater);
      ghost var attached := book;
      aborts' := AbortsAfter(r, aborts);
      match r {
        case MustWait(_) =>
        case Refused =>
        case Threw(_, packaged) =>
          if packaged {
            leftovers := leftovers.(packageRaised := leftovers.packageRaised + [c.id]);
          }
        case Came(state, task, _) =>
          if IsLayer(r) {
            RecordLayer(c, task);
            KeepsLaws(attached, book);
          } else if InFlight(state) {
            leftovers := leftovers.(inFlight := leftovers.inFlight + [(c.id, state)]);
          }
      }
    }

    // One started spec's call, and what is booked for it.
    method CallAndRecord(c: Candidate, purse: real, ghost share: real, aborts: nat)
      returns (r: RunResult, aborts': nat, ghost fate: Fate, ghost call: Option<CellCall>)
      requires Quiet() && OnTurn(c) && Priceable(book, c, purse, share)
      modifies this`tape, this`desk, this`book, this`peak, this`bills, this`stackBaseGone, this`cells
      modifies this`top, this`queue
      modifies this`leftovers
      ensures Quiet() && Unslept() && Extends(old(book), book) && aborts' == AbortsAfter(r, aborts) && Accounted()
      ensures cells == old(cells) + (if call.Some? then [call.value] else [])
      ensures Spent(book, peak, old(peak), purse, share)
      ensures queue == After(generation, old(queue), c, fate)
      ensures generation == 0 && fate == Stays && !Requeues(r) ==> plan.BaseRaises() && book.layers == []
      ensures SpecIds(book.layers) == SpecIds(old(book).layers) + (if fate == Layered then {c.id} else {})
      ensures CalmCalled(c, r, fate, call)
    {
      var highWater := book.tasks;
      r, fate, call := Wrapped(c, purse, share);
      ghost var spent, called := book, Now();
      aborts' := Record(c, r, highWater, aborts);
      StillSpent(spent, book, peak, old(peak), purse, share);
      CalmKept(plan, old(Now()), called, Now(), c, r, fate, call);
    }

    // What happened to a started spec of the order.
    twostate predicate Happened(c: Candidate, aborts: nat, new step: Step)
      reads this`tape, this`book, this`desk, this`stackBaseGone, this`progress, this`generation, this`cells
    {
      && step.c == c && step.aborts == aborts && step.before == old(Now()) && step.after == Now()
      && (if generation == 0 then Told(plan, step) else progress == old(progress))
      && cells == old(cells) + (if step.call.Some? then [step.call.value] else [])
    }

    method TakeCall(c: Candidate, purse: real, ghost share: real, aborts: nat)
      returns (r: RunResult, aborts': nat, ghost step: Step)
      requires AtRest() && OnTurn(c) && Priceable(book, c, purse, share)
      modifies this`tape, this`desk, this`book, this`peak, this`bills, this`stackBaseGone, this`cells
      modifies this`top, this`queue
      modifies this`leftovers, this`progress
      ensures AtRest() && Unslept() && Extends(old(book), book) && aborts' == AbortsAfter(r, aborts) && Accounted()
      ensures Spent(book, peak, old(peak), purse, share)
      ensures step.r == r && Happened(c, aborts, step)
    {
      ghost var fate, call;
      r, aborts', fate, call := CallAndMove(c, purse, share, aborts);
      step := Step(c, r, fate, aborts, old(Now()), Now(), call);
      assert generation == 0 ==> ToldAs(plan, step, InTurn);
    }

    // One started spec's call, and how far it leaves the order.
    method CallAndMove(c: Candidate, purse: real, ghost share: real, aborts: nat)
      returns (r: RunResult, aborts': nat, ghost fate: Fate, ghost call: Option<CellCall>)
      requires AtRest() && OnTurn(c) && Priceable(book, c, purse, share)
      modifies this`tape, this`desk, this`book, this`peak, this`bills, this`stackBaseGone, this`cells
      modifies this`top, this`queue
      modifies this`leftovers, this`progress
      ensures AtRest() && Unslept() && Extends(old(book), book) && aborts' == AbortsAfter(r, aborts) && Accounted()
      ensures Spent(book, peak, old(peak), purse, share)
      ensures cells == old(cells) + (if call.Some? then [call.value] else [])
      ensures SpecIds(book.layers) == SpecIds(old(book).layers) + (if fate == Layered then {c.id} else {})
      ensures progress == if generation == 0 then Advanced(old(progress), c, fate, Requeues(r)) else old(progress)
      ensures CalmCalled(c, r, fate, call)
    {
      Rested();
      ghost var before := queue;
      r, aborts', fate, call := CallAndRecord(c, purse, share, aborts);
      ghost var recorded := Now();
      MoveOn(c, before, fate, Requeues(r));
      ComesToRest();
      CalmKept(plan, old(Now()), recorded, Now(), c, r, fate, call);
    }

    // How far the order is once a call was settled.
    ghost method MoveOn(c: Candidate, before: Queue, fate: Fate, again: bool)
      requires plan.Ok() && queue == After(generation, before, c, fate)
      requires if generation == 0 then Offered(plan, begun, before, progress, c) else Shape(plan, before, progress)
      requires generation == 0 && fate == Stays && !again ==> progress.layered == {}
      modifies this`progress
      ensures Shape(plan, queue, progress)
      ensures progress == if generation == 0 then Advanced(old(progress), c, fate, again) else old(progress)
    {
      if generation == 0 {
        progress := Advance(plan, begun, before, progress, c, fate, again);
      }
    }

    /** One started spec: its call, and the wait it may ask for. `again` says it
        is taken back out of the started set. */
    method TakeOne(c: Candidate, purse: real, ghost share: real, aborts: nat)
      returns (stop: Option<DriveStop>, aborts': nat, again: bool, ghost step: Step)
      requires AtRest() && OnTurn(c) && Priceable(book, c, purse, share)
      modifies this`tape, this`desk, this`book, this`peak, this`bills, this`stackBaseGone, this`cells
      modifies this`top, this`queue
      modifies this`leftovers, this`progress
      ensures AtRest() && Extends(old(book), book) && tape.now >= old(tape.now) && tape.sleeps >= old(tape.sleeps)
      ensures Spent(book, peak, old(peak), purse, share) && Accounted()
      ensures again == Requeues(step.r) && aborts' == AbortsAfter(step.r, aborts)
      ensures WaitedAfter(plan, old(tape), tape, step.r, stop)
      ensures stop.Some? ==> Justified(stop.value, aborts', purse, share)
      ensures Happened'(c, aborts, step)
    {
      var r;
      r, aborts', step := TakeCall(c, purse, share, aborts);
      WellPlanned();
      again := Requeues(r);
      stop := WaitAfter(r, aborts', purse, share);
    }

    // The same, once the wait its result may ask for is over.
    twostate predicate Happened'(c: Candidate, aborts: nat, new step: Step)
      reads this`tape, this`book, this`desk, this`stackBaseGone, this`progress, this`generation, this`cells
    {
      && step.c == c && step.aborts == aborts && step.before == old(Now())
      && step.after == Now().(now := old(tape.now), sleeps := old(tape.sleeps))
      && (if generation == 0 then Told(plan, step) else progress == old(progress))
      && cells == old(cells) + (if step.call.Some? then [step.call.value] else [])
    }

    // The wait a result asks for, if it asks for one.
    method WaitAfter(r: RunResult, ghost aborts: nat, ghost purse: real, ghost share: real)
      returns (stop: Option<DriveStop>)
      requires plan.Ok()
      modifies this`tape
      ensures tape.now >= old(tape.now) && tape.sleeps >= old(tape.sleeps)
      ensures WaitedAfter(plan, old(tape), tape, r, stop)
      ensures stop.Some? ==> Justified(stop.value, aborts, purse, share)
    {
      stop := None;
      if MayWait(r) {
        var end;
        ghost var wait;
        end, wait := WaitOut(r.resetsAt);
        match end {
          case Reopened =>
          case PastDeadline => stop := Some(Stopped(UNTIL));
          case WaitInterrupted => stop := Some(Interrupted);
        }
      }
    }

    /** The checks before each spec: the deadline before the budget, and the
        budget before the breaker's standing count. */
    method Admit(c: Candidate, purse: real, share: real, aborts: nat) returns (stop: Option<DriveStop>)
      requires plan.Ok() && book.Valid() && book.Complete() && c.budget > 0.0
      modifies this`tape
      ensures tape.now >= old(tape.now) && tape.sleeps == old(tape.sleeps)
      ensures tape.now == old(tape.now) + if plan.until.Some? then plan.world.elapse(old(tape.calls)) else 0.0
      ensures stop ==
        if plan.until.Some? && tape.now >= plan.until.value then Some(Stopped(UNTIL))
        else if !Priceable(book, c, purse, share) then Some(Stopped(BUDGET))
        else if aborts >= BREAKER_THRESHOLD then Some(Stopped(INFRASTRUCTURE))
        else None
    {
      if plan.until.Some? {
        var t := Clock();
        if t >= plan.until.value {
          return Some(Stopped(UNTIL));
        }
      }
      if c.budget > purse - book.WriterLeft(share) - book.BatchSpend() {
        return Some(Stopped(BUDGET));
      }
      if aborts >= BREAKER_THRESHOLD {
        return Some(Stopped(INFRASTRUCTURE));
      }
      stop := None;
    }

    // The order's own pass spends its own purse, and holds the writer's share.
    ghost predicate Terms(purse: real, share: real)
      reads this`generation
    {
      generation == 0 ==> purse == plan.Purse() && share == plan.writer
    }

    // Why nothing was started.
    ghost predicate Declined(stop: DriveStop, aborts: nat, purse: real, share: real)
      reads this`progress, this`generation, this`book, this`followUps, this`tape, this`queue
    {
      && Justified(stop, aborts, purse, share) && stop.Stopped?
      && (stop.reason == UNTIL ==> plan.until.Some? && tape.now >= plan.until.value)
    }

    // The first candidate not started yet: the order's next spec, in its own pass.
    method Offer(pending: seq<Candidate>, started: set<SpecId>) returns (c: Option<Candidate>)
      requires AtRest() && PendingOk(pending, started)
      ensures c.None? && generation == 0 ==> progress.done == |plan.order|
      ensures c.Some? ==> c.value.id !in started && c.value.budget > 0.0 && OnTurnBut(c.value)
      ensures c.Some? && generation != 0 ==> c.value in followUps
    {
      Rested();
      var at := FirstUnstarted(pending, started);
      if generation == 0 {
        FirstIsNext(plan, queue, progress, started, at);
      }
      if at.None? {
        return None;
      }
      c := Some(pending[at.value]);
      assert plan.Keeps(Funding) && FundedAt(followUps, c.value);
    }

    // Where a spec of the order stands before anything was asked about its budget.
    ghost predicate OnTurnBut(c: Candidate)
      reads this`queue, this`progress, this`generation
    {
      generation == 0 ==> IsNext(plan, progress, c) && Unblocked(queue)
    }

    // The first candidate not started yet, and whether it may start.
    method Choose(pending: seq<Candidate>, started: set<SpecId>, purse: real, share: real, aborts: nat)
      returns (stop: Option<DriveStop>, c: Option<Candidate>)
      requires AtRest() && PendingOk(pending, started) && Terms(purse, share)
      modifies this`tape
      ensures AtRest() && tape.now >= old(tape.now) && tape.sleeps == old(tape.sleeps)
      ensures Calm(plan.world) ==> tape.now == old(tape.now)
      ensures stop.None? ==>
        c.Some? && c.value.id !in started && aborts < BREAKER_THRESHOLD && Priceable(book, c.value, purse, share)
      ensures stop.None? ==> OnTurn(c.value) && (generation != 0 ==> c.value in followUps)
      ensures stop.None? && plan.until.Some? ==> tape.now < plan.until.value
      ensures stop.Some? ==> Declined(stop.value, aborts, purse, share)
    {
      c := Offer(pending, started);
      if c.None? {
        return Some(Stopped(if aborts >= BREAKER_THRESHOLD then INFRASTRUCTURE else DRAINED)), None;
      }
      Rested();
      assert Calm(plan.world) ==> CalmAt(plan.world, tape.calls, c.value);
      stop := Admit(c.value, purse, share, aborts);
      if stop.None? && generation == 0 {
        PriceableIsFunded(plan, book, c.value);
      }
    }

    // One turn of the driver's loop.
    method Turn(pending: seq<Candidate>, started: set<SpecId>, purse: real, share: real, aborts: nat)
      returns (stop: Option<DriveStop>, pending': seq<Candidate>, started': set<SpecId>, aborts': nat,
               ghost step: Option<Step>)
      requires AtRest() && PendingOk(pending, started) && Terms(purse, share)
      modifies this`tape, this`desk, this`book, this`peak, this`bills, this`stackBaseGone, this`cells
      modifies this`top, this`queue
      modifies this`leftovers, this`progress
      ensures AtRest() && Extends(old(book), book) && (generation != 0 ==> progress == old(progress)) && Accounted()
      ensures TurnPaid(purse, share) && Turned(aborts, aborts', stop, step)
      ensures stop.Some? ==> if step.Some? then MayWait(step.value.r) && Justified(stop.value, aborts', purse, share)
                             else Declined(stop.value, aborts', purse, share)
      ensures stop.None? ==> step.Some? && PendingOk(pending', started')
      ensures stop.None? ==> Lower(Left(started'), aborts', SecondsLeft(plan, tape), old(Left(started)), aborts,
                                   old(SecondsLeft(plan, tape)))
    {
      pending', started', aborts', step := pending, started, aborts, None;
      var chosen;
      stop, chosen := Choose(pending, started, purse, share, aborts);
      if stop.None? {
        ghost var one;
        stop, pending', started', aborts', one := Start(chosen.value, started, purse, share, aborts);
        step := Some(one);
      }
    }

    // A turn spent nothing, or stayed within the purse.
    twostate predicate TurnPaid(purse: real, share: real)
      reads this`book, this`peak
    {
      (book == old(book) && peak == old(peak)) || Spent(book, peak, old(peak), purse, share)
    }

    // What a turn did: nothing but read the clock, or one started spec and the
    // scan after it.
    twostate predicate Turned(aborts: nat, aborts': nat, new stop: Option<DriveStop>, new step: Option<Step>)
      reads this`tape, this`book, this`desk, this`stackBaseGone, this`progress, this`generation, this`cells
    {
      if step.None? then
        aborts' == aborts && cells == old(cells) && Later(plan, old(Now()), Now())
      else
        && step.value.aborts == aborts && aborts' == AbortsAfter(step.value.r, aborts)
        && Later(plan, old(Now()), step.value.before)
        && cells == old(cells) + (if step.value.call.Some? then [step.value.call.value] else [])
        && (stop.None? ==> Scanned(step.value)) && (generation == 0 ==> Told(plan, step.value))
    }

    // Where the scan after a started spec left the order.
    ghost predicate Scanned(step: Step)
      reads this`tape, this`book, this`desk, this`stackBaseGone, this`progress, this`generation
    {
      && Now() == step.after.(progress := progress, now := tape.now, sleeps := tape.sleeps)
      && (!MayWait(step.r) ==> tape.now == step.after.now && tape.sleeps == step.after.sleeps)
      && (if generation == 0 then
            && Told(plan, step) && Rescanned(plan.order, step.after.progress, progress)
          else progress == step.before.progress)
    }

    // Starts a chosen spec and scans again.
    method Start(c: Candidate, started: set<SpecId>, purse: real, share: real, aborts: nat)
      returns (stop: Option<DriveStop>, pending': seq<Candidate>, started': set<SpecId>, aborts': nat, ghost step: Step)
      requires AtRest() && OnTurn(c) && Priceable(book, c, purse, share) && aborts < BREAKER_THRESHOLD
      requires c.id !in started
      requires if generation == 0 then Apart(progress, started) else c in followUps
      requires plan.until.Some? ==> tape.now < plan.until.value
      modifies this`tape, this`desk, this`book, this`peak, this`bills, this`stackBaseGone, this`cells
      modifies this`top, this`queue
      modifies this`leftovers, this`progress
      ensures AtRest() && Extends(old(book), book) && Spent(book, peak, old(peak), purse, share) && Accounted()
      ensures generation != 0 ==> progress == old(progress)
      ensures stop.Some? ==> MayWait(step.r) && Justified(stop.value, aborts', purse, share)
      ensures stop.None? ==> PendingOk(pending', started')
      ensures stop.None? ==> Lower(Left(started'), aborts', SecondsLeft(plan, tape), old(Left(started)), aborts,
                                   old(SecondsLeft(plan, tape)))
      ensures step.aborts == aborts && aborts' == AbortsAfter(step.r, aborts) && step.before == old(Now())
      ensures cells == old(cells) + (if step.call.Some? then [step.call.value] else [])
      ensures (generation == 0 ==> Told(plan, step)) && (stop.None? ==> Scanned(step))
    {
      var again;
      stop, aborts', again, step := TakeOne(c, purse, share, aborts);
      pending', started' := RescanUnless(stop, c, step, started, again);
      TurnIsLower(plan, old(tape), tape, aborts, aborts', step.r, stop, old(Left(started)), Left(started'));
    }

    // The scan after a started spec, unless the pass ends in its wait.
    method RescanUnless(stop: Option<DriveStop>, c: Candidate, ghost step: Step, started: set<SpecId>, again: bool)
      returns (pending: seq<Candidate>, started': set<SpecId>)
      requires AtRest() && c.id !in started && step.c == c && again == Requeues(step.r)
      requires if generation == 0 then
          Told(plan, step) && step.after.progress == progress && Apart(step.before.progress, started)
               else c in followUps
      modifies this`queue, this`progress
      ensures AtRest() && (generation != 0 || stop.Some? ==> progress == old(progress) && queue == old(queue))
      ensures stop.None? && generation == 0 ==> Rescanned(plan.order, old(progress), progress)
      ensures stop.None? ==> PendingOk(pending, started')
      ensures var left := if generation
        == 0 then |plan.order| - step.before.progress.done else CountUnstarted(followUps, started);
        stop.None? ==> if again then Left(started') <= left else Left(started') < left
    {
      pending, started' := [], started;
      if stop.None? {
        if generation == 0 {
          ToldMoves(plan, step);
        }
        pending, started' := Rescan(c, step.before.progress, started, again);
      }
    }

    // The scan after a started spec, which leaves the started set when it is to
    // be offered again.
    method Rescan(c: Candidate, ghost before: Progress, started: set<SpecId>, again: bool)
      returns (pending: seq<Candidate>, started': set<SpecId>)
      requires AtRest() && c.id !in started
      requires if generation == 0 then
          Apart(before, started) && c == plan.order[before.done] && Moved(before, progress, c, again)
               else c in followUps
      modifies this`queue, this`progress
      ensures AtRest() && (generation != 0 ==> progress == old(progress) && queue == old(queue))
      ensures generation == 0 ==> Rescanned(plan.order, old(progress), progress)
      ensures PendingOk(pending, started')
      ensures var left := if generation == 0 then |plan.order| - before.done else CountUnstarted(followUps, started);
        if again then Left(started') <= left else Left(started') < left
    {
      started' := if again then started else started + {c.id};
      Rested();
      if generation == 0 {
        pending := ResolvePrefix();
        ComesToRest();
        assert plan.Keeps(Ordering);
        StartedStaysApart(plan.order, before, old(progress), progress, started, again);
      } else {
        pending := followUps;
        StartingCounts(followUps, started, c.id);
      }
    }

    ghost predicate Apart(p: Progress, started: set<SpecId>) {
      p.done < |plan.order| && Ids(p.skipped) <= started && Ids(plan.order[p.done..]) !! started
    }

    /** One night's pass: over the order, or over its follow-ups, with
        `purse` the budget less what is held back. */
    method Drive(ready: bool, purse: real, share: real, abortsBefore: nat)
      returns (stop: DriveStop, aborts: nat, ghost pass: Pass)
      requires AtRest() && Terms(purse, share) && (generation == 0 ==> progress.skipped == [])
      modifies this`tape, this`desk, this`book, this`peak, this`bills, this`stackBaseGone, this`cells
      modifies this`top, this`queue
      modifies this`leftovers, this`progress
      ensures AtRest() && old(cells) <= cells && Extends(old(book), book) && Accounted()
      ensures (generation != 0 ==> progress == old(progress))
      ensures InPurse(book, peak, old(book), old(peak), purse, share)
      ensures if ready then Justified(stop, aborts, purse, share)
              else stop == Stopped(INFRASTRUCTURE) && aborts == abortsBefore && cells == old(cells)
      ensures ready && generation == 0 ==>
        && pass.first == old(Now()).(progress := pass.first.progress)
        && Rescanned(plan.order, old(progress), pass.first.progress)
        && Passed(pass, abortsBefore, stop, aborts, purse, share)
    {
      Rested();
      var pending := Pending();
      StartsInPurse(book, peak, purse, share);
      if ready {
        stop, aborts, pass := Loop(pending, purse, share, abortsBefore);
      } else {
        stop, aborts, pass := Stopped(INFRASTRUCTURE), abortsBefore, Pass(Now(), [], Now(), abortsBefore, None);
      }
    }

    // A pass over the order, told from its first moment to its last: every call it
    // made is among `cells`, and it ended on a spec not started, or in a wait.
    ghost predicate Passed(pass: Pass, abortsBefore: nat, stop: DriveStop, aborts: nat, purse: real, share: real)
      reads this`tape, this`book, this`desk, this`stackBaseGone, this`progress, this`generation, this`cells
      reads this`followUps, this`queue
    {
      && Traced(plan, pass.first, abortsBefore, pass.trace, pass.last, pass.aborts)
      && (forall step :: NotedAt(pass.trace, cells, step))
      && if pass.cut.None? then pass.last == Now() && aborts == pass.aborts && Declined(stop, aborts, purse, share)
         else Told(plan, pass.cut.value) && MayWait(pass.cut.value.r)
              && pass.cut.value.before == pass.last.(now := pass.cut.value.before.now)
              && (Calm(plan.world) ==> pass.cut.value.before == pass.last)
    }

    // The pass so far.
    ghost predicate Passing(pass: Pass, abortsBefore: nat, aborts: nat)
      reads this`tape, this`book, this`desk, this`stackBaseGone, this`progress, this`cells
    {
      && Traced(plan, pass.first, abortsBefore, pass.trace, Now(), aborts)
      && (forall step :: NotedAt(pass.trace, cells, step)) && pass.cut.None?
    }

    // The driver's loop, once the host is ready.
    method Loop(first: seq<Candidate>, purse: real, share: real, abortsBefore: nat)
      returns (stop: DriveStop, aborts: nat, ghost pass: Pass)
      requires AtRest() && PendingOk(first, {}) && Terms(purse, share) && InPurse(book, peak, book, peak, purse, share)
      modifies this`tape, this`desk, this`book, this`peak, this`bills, this`stackBaseGone, this`cells
      modifies this`top, this`queue
      modifies this`leftovers, this`progress
      ensures AtRest() && old(cells) <= cells && Extends(old(book), book) && Accounted()
      ensures (generation != 0 ==> progress == old(progress))
      ensures InPurse(book, peak, old(book), old(peak), purse, share)
      ensures Justified(stop, aborts, purse, share)
      ensures generation == 0 ==> pass.first == old(Now()) && Passed(pass, abortsBefore, stop, aborts, purse, share)
    {
      var pending, started, ended := first, {}, None;
      aborts, pass := abortsBefore, Pass(Now(), [], Now(), abortsBefore, None);
      while ended.None?
        invariant AtRest() && old(cells) <= cells && Extends(old(book), book) && Accounted()
        invariant (generation != 0 ==> progress == old(progress))
        invariant ended.None? ==> PendingOk(pending, started)
        invariant InPurse(book, peak, old(book), old(peak), purse, share)
        invariant pass.first == old(Now())
        invariant generation == 0 && ended.None? ==> Passing(pass, abortsBefore, aborts)
        invariant ended.Some? ==> Justified(ended.value, aborts, purse, share)
        invariant generation == 0 && ended.Some? ==> Passed(pass, abortsBefore, ended.value, aborts, purse, share)
        decreases ended.None?, Left(started), Headroom(aborts), SecondsLeft(plan, tape)
      {
        ended, pending, started, aborts, pass := PaidTurn(pending, started, purse, share, aborts, old(book), old(peak),
            pass, abortsBefore);
      }
      stop := ended.value;
    }

    // A turn of the loop, and the pass's own money and history.
    method PaidTurn(pending: seq<Candidate>, started: set<SpecId>, purse: real, share: real, aborts: nat,
                    ghost first: Book, ghost firstPeak: real, ghost pass: Pass, ghost abortsBefore: nat)
      returns (stop: Option<DriveStop>, pending': seq<Candidate>, started': set<SpecId>, aborts': nat,
               ghost pass': Pass)
      requires AtRest() && PendingOk(pending, started) && Terms(purse, share)
      requires InPurse(book, peak, first, firstPeak, purse, share) && Extends(first, book)
      requires generation == 0 ==> Passing(pass, abortsBefore, aborts)
      modifies this`tape, this`desk, this`book, this`peak, this`bills, this`stackBaseGone, this`cells
      modifies this`top, this`queue
      modifies this`leftovers, this`progress
      ensures AtRest() && old(cells) <= cells && Extends(first, book) && (generation != 0 ==> progress == old(progress))
      ensures Accounted()
      ensures InPurse(book, peak, first, firstPeak, purse, share)
      ensures stop.Some? ==> Justified(stop.value, aborts', purse, share)
      ensures stop.None? ==> PendingOk(pending', started')
      ensures stop.None? ==> Lower(Left(started'), aborts', SecondsLeft(plan, tape), old(Left(started)), aborts,
                                   old(SecondsLeft(plan, tape)))
      ensures pass'.first == pass.first
      ensures generation == 0 ==>
        if stop.None? then Passing(pass', abortsBefore, aborts')
        else Passed(pass', abortsBefore, stop.value, aborts', purse, share)
    {
      ghost var step;
      stop, pending', started', aborts', step := Turn(pending, started, purse, share, aborts);
      StaysInPurse(first, firstPeak, old(book), old(peak), book, peak, purse, share);
      pass' := Onward(pass, old(Now()), Now(), aborts, aborts', stop, step);
      if generation == 0 {
        NotedOnward(pass, pass', old(cells), cells, step);
        TracedOnward(plan, pass, abortsBefore, old(Now()), Now(), aborts, aborts', stop, step);
      }
    }

    // What the latest scan offers: the order's own prefix resolved, or the
    // follow-ups.
    method Pending() returns (pending: seq<Candidate>)
      requires AtRest()
      modifies this`queue, this`progress
      ensures AtRest()
      ensures if generation == 0 then Rescanned(plan.order, old(progress), progress) else progress == old(progress)
      ensures pending == if generation == 0 then queue.remaining else followUps
      ensures old(progress.skipped) == [] ==> PendingOk(pending, {})
    {
      Rested();
      if generation == 0 {
        pending := ResolvePrefix();
        ComesToRest();
      } else {
        pending := followUps;
      }
    }

    // Nothing left in `remaining` has started but what was skipped, so the first
    // candidate not started is the order's next spec.
    ghost predicate PendingOk(pending: seq<Candidate>, started: set<SpecId>)
      reads this`queue, this`progress, this`generation, this`followUps
    {
      if generation == 0 then
        && pending == queue.remaining && Unblocked(queue)
        && Ids(progress.skipped) <= started
        && (progress.done <= |plan.order| ==> Ids(plan.order[progress.done..]) !! started)
      else pending == followUps
    }

    ghost function Left(started: set<SpecId>): nat
      reads this`progress, this`generation, this`followUps
    {
      if generation != 0 then CountUnstarted(followUps, started)
      else if progress.done <= |plan.order| then |plan.order| - progress.done else 0
    }
  }

  /** A review that raises once it has cost five dollars is asked for, and nothing is
      charged for it. */
  method LosesFiveDollars() returns (batch: StackBatch, ghost paid: real)
    ensures batch.book.Total() == 0.0 && paid == Parts(batch.plan.world, batch.bills, Paid) == 5.0
  {
    var c := Candidate("SA-0001", 0, [], 10.0, None, None);
    var w := World(_ => 0.0, _ => true, (_, _) => StillThere, _ => Minted, _ => Cited(0, None),
                   _ => ReviewRaised(true, 5.0), _ => ReviseRaised(true, 0.0), _ => false, (_, _) => CellRefused);
    var plan := Plan(w, Review(false, false), false, false, [], 100.0, 25.0, 10.0, None, {}, 0);
    assert plan.Ok() by { RaisingIsLawful(plan); }
    batch := new StackBatch(plan, EMPTY_BOOK, 0.0);
    batch.Rested();
    var minted := batch.MintTask(c);
    assert batch.desk.OkAt(batch.book.attached, c.id);
    var end;
    ghost var asked;
    end, asked := batch.ReviewOnce(c, batch.desk.taskIds[c.id]);
    paid := Parts(w, batch.bills, Paid);
    PartsNext(w, [], ReviewBill(asked.value), Paid);
    assert batch.bills == [] + [ReviewBill(asked.value)];
  }

  lemma RaisingIsLawful(plan: Plan)
    requires plan.order == [] && plan.until.None? && (forall n :: plan.world.interrupt(n))
    requires forall n :: plan.world.elapse(n) == 0.0 && plan.world.review(n) == ReviewRaised(true, 5.0)
    requires forall n :: plan.world.revise(n) == ReviseRaised(true, 0.0)
    requires forall n, c :: plan.world.cell(n, c).CellRefused?
    ensures plan.Ok()
  {
    forall law ensures plan.Keeps(law) {
      forall n ensures TicksAt(plan.world, n) && PricedAt(plan.world, n) {
      }
      forall n, c ensures CellPricedAt(plan.world, n, c) {
      }
    }
  }
}
