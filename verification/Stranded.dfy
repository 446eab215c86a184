/** What a raise from the question after the stack base's branch does to an order:
    the exact plans on which it leaves some spec to run without its parent. */
module Stranded {
  import opened Wrappers
  import opened Graph
  import opened Scheduler
  import opened StackProgress
  import opened SpendBook
  import opened Plans
  import opened Batch

  // The `p`-th spec's question raises. What that spec depends on becomes a layer,
  // and every other spec is refused.
  function Answers(order: seq<Candidate>, p: nat): World
    requires p < |order|
  {
    var root := order[p];
    World(
      _ => 0.0,
      _ => true,
      (_, c: Candidate) => if c.id == root.id then AliveRaised(false) else StillThere,
      _ => Minted,
      _ => Cited(0, None),
      _ => Reviewed(RouteRun, false, None, "", 0.0),
      _ => ReviseRaised(false, 0.0),
      _ => false,
      (_, c: Candidate) =>
        if c.id in root.dependsOn && c.budget >= 0.0 then CellOutcome(READY_FOR_REVIEW, None, 0.0, 0.0)
        else CellRefused)
  }

  lemma AnswersAreCalm(order: seq<Candidate>, p: nat)
    requires p < |order|
    ensures Calm(Answers(order, p))
  {
    forall n, c ensures CalmAt(Answers(order, p), n, c) {
    }
  }

  // Everything else asked of the plan stands.
  lemma AnswersAreLawful(plan: Plan, p: nat)
    requires plan.Keeps(Ordering) && plan.Keeps(Funding) && p < |plan.order|
    ensures plan.(world := Answers(plan.order, p)).Ok()
  {
    var stranded := plan.(world := Answers(plan.order, p));
    var w := stranded.world;
    forall law ensures stranded.Keeps(law) {
      forall n ensures TicksAt(w, n) && PricedAt(w, n) {
      }
      forall n, c ensures CellPricedAt(w, n, c) {
      }
    }
  }

  // The specs the root depends on.
  function Needs(order: seq<Candidate>, p: nat): set<SpecId>
    requires p < |order|
  {
    set d | d in order[p].dependsOn
  }

  // Where such a night stands: nothing layered before the root's turn, and from
  // then on the root skipped at the head of what is unresolved, with nothing
  // layered but what it depends on.
  ghost predicate OnTrack(plan: Plan, p: nat, start: real, m: Moment, aborts: nat)
    requires p < |plan.order|
  {
    && Idle(m) && m.now == start && SpecIds(m.layers) == m.progress.layered
    && if m.progress.done <= p then m.progress.skipped == [] && m.progress.layered == {} && aborts == 0
       else
         && m.progress.skipped == [plan.order[p]] && aborts <= 1
         && m.progress.layered <= Needs(plan.order, p) && m.progress.missed.Keys !! Needs(plan.order, p)
  }

  // A night the root strands: the plan, and its answers.
  ghost predicate Strands(plan: Plan, p: nat, j: nat) {
    && plan.Ok() && plan.Asks() && Stranding(plan.order, plan.Satisfied(), plan.Funds(), p, j)
    && plan.world == Answers(plan.order, p)
  }

  lemma NotARoot(order: seq<Candidate>, p: nat, i: nat)
    requires DistinctIds(order) && Root(order, p) && i < p
    ensures order[i].id !in Needs(order, p) && order[i].id != order[p].id && order[i].id in Ids(order[..p])
  {
    assert order[..p][i] == order[i];
    IdsHolds(order[..p], i);
    OrderAt(order, {}, p);
  }

  lemma PastTheRoot(order: seq<Candidate>, p: nat, i: nat)
    requires DistinctIds(order) && p < i < |order|
    ensures order[i].id != order[p].id
  {
    assert order[..i][p] == order[p];
    IdsHolds(order[..i], p);
    OrderAt(order, {}, i);
  }

  lemma NoneBlocks(deps: seq<SpecId>, missed: map<SpecId, set<SpecId>>)
    requires forall d :: d in deps ==> d !in missed
    ensures Blocking(deps, missed) == {}
  {
    forall m ensures m !in Blocking(deps, missed) {
    }
  }

  lemma LayersAreNamed(rows: seq<LayerRow>)
    ensures rows != [] ==> SpecIds(rows) != {}
  {
    if rows != [] {
      assert rows[0].specId in SpecIds(rows);
    }
  }

  // No miss before the root's turn is one it depends on.
  lemma RootMissesNone(order: seq<Candidate>, p: Progress)
    requires Consistent(order, p) && Root(order, p.done)
    ensures p.missed.Keys !! Needs(order, p.done)
  {
    forall d | d in p.missed ensures d !in Needs(order, p.done) {
      assert PlacedAt(order, p, d);
    }
  }

  // A started spec on such a night, and the scan after it.
  ghost predicate StepsOn(plan: Plan, p: nat, j: nat, start: real, step: Step, next: Moment, aborts: nat) {
    && Strands(plan, p, j) && OnTrack(plan, p, start, step.before, step.aborts)
    && Linked(plan, step, next) && aborts == AbortsAfter(step.r, step.aborts)
  }

  // What each spec comes to: refused before the root, the root's own question
  // raising, and past it a layer the root depends on, or refused.
  ghost predicate CameTo(plan: Plan, p: nat, step: Step)
    requires p < |plan.order|
  {
    var at := step.before.progress.done;
    && IsNext(plan, step.before.progress, step.c) && Consistent(plan.order, step.before.progress)
    && step.after.progress == Advanced(step.before.progress, step.c, step.fate, false)
    && Idle(step.after) && step.after.now == step.before.now
    && SpecIds(step.after.layers) == step.after.progress.layered
    && if at == p then step.r == Threw(false, false) && step.fate == Stays
       else
         && (if p < at && step.c.id in Needs(plan.order, p) then IsLayer(step.r) && step.fate == Layered
             else step.r == Refused && step.fate == Missed && step.c.id !in Needs(plan.order, p))
         && step.call.Some? && step.call.value.candidate == step.c && step.call.value.generation == 0
         && SpecIds(step.call.value.layers) == step.before.progress.layered
  }

  lemma Comes(plan: Plan, p: nat, j: nat, start: real, step: Step)
    requires Strands(plan, p, j) && OnTrack(plan, p, start, step.before, step.aborts) && Told(plan, step)
    ensures CameTo(plan, p, step)
  {
    assert plan.Keeps(Ordering) && plan.Keeps(Funding);
    AnswersAreCalm(plan.order, p);
    assert ToldAs(plan, step, InTurn) && ToldAs(plan, step, ByItsFate) && ToldAs(plan, step, OnACalmNight);
    var at := step.before.progress.done;
    if at < p {
      NotARoot(plan.order, p, at);
    } else if at == p {
      LayersAreNamed(step.before.layers);
    } else {
      PastTheRoot(plan.order, p, at);
    }
  }

  // Before the root every spec started is refused.
  lemma StepBefore(plan: Plan, p: nat, j: nat, start: real, step: Step, next: Moment, aborts: nat)
    requires StepsOn(plan, p, j, start, step, next, aborts) && step.before.progress.done < p
    ensures OnTrack(plan, p, start, next, aborts) && next.progress.done <= p
  {
    AnswersAreCalm(plan.order, p);
    Comes(plan, p, j, start, step);
    assert RefusedAt(plan.order, step.after.progress, next.progress, p);
  }

  // The root's own question raises, and it stays where it is.
  lemma StepAtRoot(plan: Plan, p: nat, j: nat, start: real, step: Step, next: Moment, aborts: nat)
    requires StepsOn(plan, p, j, start, step, next, aborts) && step.before.progress.done == p
    ensures OnTrack(plan, p, start, next, aborts) && next.progress.done == p + 1
  {
    AnswersAreCalm(plan.order, p);
    Comes(plan, p, j, start, step);
    RootMissesNone(plan.order, step.before.progress);
    assert step.before.progress.skipped + [step.c] == [plan.order[p]];
    StaysAtRoot(plan, p, step, next);
  }

  // Past it a spec becomes a layer the root depends on, or a miss it does not.
  lemma StepPast(plan: Plan, p: nat, j: nat, start: real, step: Step, next: Moment, aborts: nat)
    requires StepsOn(plan, p, j, start, step, next, aborts) && p < step.before.progress.done
    ensures OnTrack(plan, p, start, next, aborts) && next.progress.done == step.before.progress.done + 1
  {
    AnswersAreCalm(plan.order, p);
    Comes(plan, p, j, start, step);
    StaysAtRoot(plan, p, step, next);
  }

  // With the skipped root at its head, unblocked, the scan refuses nothing.
  lemma StaysAtRoot(plan: Plan, p: nat, step: Step, next: Moment)
    requires p < |plan.order| && Linked(plan, step, next)
    requires step.after.progress.skipped == [plan.order[p]] && step.after.progress.missed.Keys !! Needs(plan.order, p)
    ensures next.progress == step.after.progress
  {
    HeadOf(plan.order, step.after.progress);
    NoneBlocks(plan.order[p].dependsOn, step.after.progress.missed);
  }

  lemma NextOnTrack(plan: Plan, p: nat, j: nat, start: real, step: Step, next: Moment, aborts: nat)
    requires StepsOn(plan, p, j, start, step, next, aborts)
    ensures OnTrack(plan, p, start, next, aborts)
    ensures next.progress.done <= if step.before.progress.done < p then p else step.before.progress.done + 1
  {
    var done := step.before.progress.done;
    if done < p {
      StepBefore(plan, p, j, start, step, next, aborts);
    } else if done == p {
      StepAtRoot(plan, p, j, start, step, next, aborts);
    } else {
      StepPast(plan, p, j, start, step, next, aborts);
    }
  }

  // A whole pass of such a night, from an order nothing has happened to.
  ghost predicate PassesOn(plan: Plan, p: nat, j: nat, start: real, pass: Pass) {
    && Strands(plan, p, j) && OnTrack(plan, p, start, pass.first, 0) && pass.first.progress.done <= p
    && Traced(plan, pass.first, 0, pass.trace, pass.last, pass.aborts)
  }

  lemma {:induction false} TrackAt(plan: Plan, p: nat, j: nat, start: real, pass: Pass, k: nat)
    requires PassesOn(plan, p, j, start, pass) && k <= |pass.trace|
    ensures OnTrack(plan, p, start, MomentAt(pass.trace, pass.last, k), AbortsAt(pass.trace, pass.aborts, k))
  {
    if k == 0 {
      AnswersAreCalm(plan.order, p);
    } else {
      TrackAt(plan, p, j, start, pass, k - 1);
      StepTrack(plan, p, j, start, pass, k - 1);
    }
  }

  lemma StepTrack(plan: Plan, p: nat, j: nat, start: real, pass: Pass, k: nat)
    requires PassesOn(plan, p, j, start, pass) && k < |pass.trace|
    requires OnTrack(plan, p, start, pass.trace[k].before, pass.trace[k].aborts)
    ensures StepsOn(plan, p, j, start, pass.trace[k], MomentAt(pass.trace, pass.last, k + 1),
                    AbortsAt(pass.trace, pass.aborts, k + 1))
    ensures OnTrack(plan, p, start, MomentAt(pass.trace, pass.last, k + 1), AbortsAt(pass.trace, pass.aborts, k + 1))
    ensures MomentAt(pass.trace, pass.last, k + 1).progress.done
      <= if pass.trace[k].before.progress.done < p then p else pass.trace[k].before.progress.done + 1
  {
    assert StepAt(plan, pass.trace, pass.last, pass.aborts, k);
    NextOnTrack(plan, p, j, start, pass.trace[k], MomentAt(pass.trace, pass.last, k + 1),
                AbortsAt(pass.trace, pass.aborts, k + 1));
  }

  // A pass that got past a spec behind the root started that spec.
  lemma {:induction false} StartedOn(plan: Plan, p: nat, j: nat, start: real, pass: Pass, k: nat) returns (i: nat)
    requires PassesOn(plan, p, j, start, pass) && k <= |pass.trace|
    requires j < MomentAt(pass.trace, pass.last, k).progress.done
    ensures i < k && pass.trace[i].before.progress.done == j
  {
    AnswersAreCalm(plan.order, p);
    TrackAt(plan, p, j, start, pass, k - 1);
    StepTrack(plan, p, j, start, pass, k - 1);
    if pass.trace[k - 1].before.progress.done == j {
      i := k - 1;
    } else {
      i := StartedOn(plan, p, j, start, pass, k - 1);
    }
  }

  // The child of the root was called, on layers that do not hold its parent.
  lemma CalledUnsound(plan: Plan, p: nat, j: nat, start: real, pass: Pass, cells: seq<CellCall>)
    returns (call: CellCall)
    requires PassesOn(plan, p, j, start, pass) && j < pass.last.progress.done
    requires forall step :: NotedAt(pass.trace, cells, step)
    ensures call in cells && call.generation == 0 && call.candidate == plan.order[j]
    ensures !Sound(call.candidate, plan.Satisfied(), SpecIds(call.layers))
  {
    var i := StartedOn(plan, p, j, start, pass, |pass.trace|);
    var step := pass.trace[i];
    TrackAt(plan, p, j, start, pass, i);
    StepTrack(plan, p, j, start, pass, i);
    Comes(plan, p, j, start, step);
    assert NotedAt(pass.trace, cells, step);
    call := step.call.value;
    NeedsAreSatisfied(plan, p);
  }

  // What a root depends on is on the default branch, on the stack base or its
  // chain.
  lemma NeedsAreSatisfied(plan: Plan, p: nat)
    requires plan.Keeps(Ordering) && Root(plan.order, p)
    ensures Needs(plan.order, p) <= plan.Satisfied()
  {
    OrderAt(plan.order, plan.Satisfied(), p);
  }

  // ---------------------------------------------------------------------------
  // The night itself

  // Nothing was spent, so whatever fits in what the order may spend is paid for.
  lemma StillPayable(plan: Plan, book: Book, c: Candidate)
    requires book.Total() == 0.0 && book.Written() == 0.0 && 0.0 < c.budget <= plan.Funds()
    ensures Priceable(book, c, plan.Purse(), plan.writer)
  {
  }

  // Up to the child, a spec whose turn comes can be paid for: a root, or a spec
  // from the root on.
  lemma PaidOn(order: seq<Candidate>, satisfied: set<SpecId>, funds: real, p: nat, j: nat, m: Progress)
    requires Stranding(order, satisfied, funds, p, j) && Consistent(order, m) && m.done <= j
    requires m.done <= p ==> m.layered == {} && m.skipped == [] && Blocking(order[m.done].dependsOn, m.missed) == {}
    ensures order[m.done].budget <= funds
  {
    if m.done < p {
      UnblockedIsRoot(order, m);
      assert RootPaidAt(order, funds, p, m.done);
    } else if m.done < j {
      assert PaidBetween(order, funds, p, j, m.done);
    }
  }

  // The first scan refuses nothing up to the root, and no spec depends on a
  // miss yet.
  lemma FirstScan(plan: Plan, p: nat, j: nat, start: real, m: Moment)
    requires Strands(plan, p, j) && Rescanned(plan.order, FRESH, m.progress)
    requires m == Moment(start, 0, 0.0, 0.0, map[], false, [], m.progress)
    ensures OnTrack(plan, p, start, m, 0) && m.progress.done <= p
  {
    assert RefusedAt(plan.order, FRESH, m.progress, p);
    IdsOfNone(m.progress.skipped);
  }

  lemma IdsOfNone(cs: seq<Candidate>)
    ensures Ids(cs) <= Ids([]) ==> cs == []
  {
    if cs != [] {
      IdsHolds(cs, 0);
    }
  }

  // Why such a pass may have ended.
  ghost predicate EndsBecause(plan: Plan, batch: StackBatch, stop: DriveStop, aborts: nat)
    reads batch`progress, batch`generation, batch`book, batch`followUps, batch`tape, batch`queue
  {
    batch.plan == plan && batch.generation == 0 && batch.Declined(stop, aborts, plan.Purse(), plan.writer)
  }

  // It ends past the child: the order is drained, or a later spec cannot be paid
  // for.
  lemma EndsPast(plan: Plan, p: nat, j: nat, start: real, batch: StackBatch, stop: DriveStop, aborts: nat)
    requires Strands(plan, p, j) && batch.AtRest() && EndsBecause(plan, batch, stop, aborts)
    requires OnTrack(plan, p, start, batch.Now(), aborts) && (plan.until.Some? ==> start < plan.until.value)
    ensures j < batch.progress.done
  {
    batch.Rested();
    var m := batch.progress;
    if m.done <= j {
      assert m.done <= p ==> Unresolved(plan.order, m)[0] == plan.order[m.done];
      PaidOn(plan.order, plan.Satisfied(), plan.Funds(), p, j, m);
      assert plan.Keeps(Funding);
      StillPayable(plan, batch.book, plan.order[m.done]);
    }
  }

  // Nothing on such a night is a wait.
  lemma UncutPass(plan: Plan, p: nat, j: nat, start: real, pass: Pass)
    requires PassesOn(plan, p, j, start, pass)
    requires pass.cut.Some? ==>
      Told(plan, pass.cut.value) && MayWait(pass.cut.value.r) && Later(plan, pass.last, pass.cut.value.before)
    ensures pass.cut.None?
  {
    AnswersAreCalm(plan.order, p);
    TrackAt(plan, p, j, start, pass, |pass.trace|);
    if pass.cut.Some? {
      var step := pass.cut.value.(aborts := pass.aborts);
      forall law ensures ToldAs(plan, step, law) { assert ToldAs(plan, pass.cut.value, law); }
      Comes(plan, p, j, start, step);
    }
  }

  // The pass of such a night.
  method StrandedPass(plan: Plan, start: real, p: nat, j: nat)
    returns (batch: StackBatch, stop: DriveStop, aborts: nat, ghost pass: Pass)
    requires Strands(plan, p, j)
    ensures batch.plan == plan && batch.generation == 0 && batch.begun == start && batch.AtRest()
    ensures PassesOn(plan, p, j, start, pass) && pass.last == batch.Now() && aborts == pass.aborts
    ensures EndsBecause(plan, batch, stop, aborts)
    ensures forall step :: NotedAt(pass.trace, batch.cells, step)
  {
    batch := new StackBatch(plan, EMPTY_BOOK, start);
    stop, aborts, pass := batch.Drive(true, plan.Purse(), plan.writer, 0);
    FirstScan(plan, p, j, start, pass.first);
    UncutPass(plan, p, j, start, pass);
  }

  /** On every plan a caller could tell for strandable there are answers under
      which the driver starts a spec of the order whose parent is no layer, nor on
      the default branch, nor on the stack base. */
  method StrandedNight(plan: Plan, start: real, p: nat, j: nat) returns (batch: StackBatch, ghost call: CellCall)
    requires plan.Keeps(Ordering) && plan.Keeps(Funding) && plan.Asks()
    requires plan.until.Some? ==> start < plan.until.value
    requires Stranding(plan.order, plan.Satisfied(), plan.Funds(), p, j)
    ensures batch.plan == plan.(world := Answers(plan.order, p)) && batch.plan.Ok() && batch.plan.BaseRaises()
    ensures batch.AtRest() && batch.begun == start
    ensures call in batch.cells && call.generation == 0 && call.candidate == plan.order[j]
    ensures !Sound(call.candidate, plan.Satisfied(), SpecIds(call.layers))
  {
    var stranded := plan.(world := Answers(plan.order, p));
    AnswersAreLawful(plan, p);
    assert stranded.world.alive(0, plan.order[p]) == AliveRaised(false);
    var stop, aborts;
    ghost var pass;
    batch, stop, aborts, pass := StrandedPass(stranded, start, p, j);
    TrackAt(stranded, p, j, start, pass, |pass.trace|);
    EndsPast(stranded, p, j, start, batch, stop, aborts);
    call := CalledUnsound(stranded, p, j, start, pass, batch.cells);
  }

  // A parent and its child, on a stack base whose branch is asked after.
  function Pair(budget: real): seq<Candidate> {
    var base := StackBase("SA-0001", 1, "saffron/SA-0001", {"SA-0001"});
    [Candidate("SA-0002", 0, ["SA-0001"], budget, None, Some(base)),
     Candidate("SA-0003", 0, ["SA-0002"], budget, None, Some(base))]
  }

  lemma PairIsStrandable(plan: Plan, budget: real)
    requires plan.order == Pair(budget) && 0.0 < budget <= plan.Funds() && plan.onDefault == {} && plan.asksAlive
    ensures plan.Keeps(Ordering) && plan.Keeps(Funding) && plan.Asks()
    ensures Stranding(plan.order, plan.Satisfied(), plan.Funds(), 0, 1)
    ensures "SA-0002" !in plan.Satisfied()
  {
    var order := plan.order;
    assert order[..1] == [order[0]] && order[..1][..0] == [];
    assert Carried(order) == {"SA-0001"};
    assert Ids([order[0]]) == {"SA-0002"};
    assert StuckSince(order, plan.Funds(), 1, 0);
    assert "SA-0002" in order[1].dependsOn;
  }

  /** Two specs are enough: the question after the branch raises for the parent,
      and its child is run with no layer below it. */
  method StrandedChild() returns (batch: StackBatch, ghost call: CellCall)
    ensures call in batch.cells && call.candidate == Pair(10.0)[1]
    ensures "SA-0002" !in batch.plan.Satisfied() && "SA-0002" !in SpecIds(call.layers)
  {
    var plan := Plan(Answers(Pair(10.0), 0), NoReview, true, false, Pair(10.0), 100.0, 25.0, 10.0, None, {}, 0);
    PairIsStrandable(plan, 10.0);
    batch, call := StrandedNight(plan, 0.0, 0, 1);
  }
}
