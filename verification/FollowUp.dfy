/** Turning qualified groups into follow-up specs: `write_follow_ups` of
    saffron/follow_up.py, and the adapter of saffron/cli.py that keeps every
    finding when it raises. */
module FollowUp {
  import opened Wrappers
  import opened Lists
  import opened Qualify
  import opened SpendBook

  type Key = (string, string)

  // A spec as parsed. `edits` are the mutants its acceptance criteria declare.
  datatype Spec = Spec(
    id: string, kind: string, dependsOn: seq<string>, budget: real, touches: seq<string>, edits: seq<(string, string)>
  )

  // The layer a group grew out of: its task, its own spec, and the id a draft
  // must declare.
  datatype Origin = Origin(task: nat, spec: Spec, candidateId: string)

  datatype Reply = Reply(cost: real, limited: bool, failed: bool, text: string)
  // A call that raises, or whose cell does on its way down, has cost what it had by
  // then.
  datatype WriteAnswer = Wrote(reply: Reply) | WriteRaised(paid: real)
  datatype JudgeAnswer = Judged(red: bool) | JudgeRaised
  datatype MintAnswer = Minted | MintRaised
  datatype Survival = Survives | Gone | SurvivalRaised

  // What the walk's callables answer, the n-th call of each by its function at n.
  datatype Room = Room(
    write: nat -> WriteAnswer,
    judge: nat -> JudgeAnswer,
    mint: nat -> MintAnswer,
    survives: Qualified -> Survival,
    origin: (Group, nat) -> Option<Origin>,
    parse: string -> Option<Spec>,
    stackPaths: seq<string>
  )

  ghost predicate WithinAt(w: Room, n: nat) {
    0.0 <= PaidOf(w.write(n)) <= SPEC_WRITER_SESSION_USD
  }

  // Each session costs between nothing and its own ceiling, whether it came back or
  // raised.
  ghost predicate Within(w: Room) {
    forall n :: WithinAt(w, n)
  }

  datatype Reason =
    | HALTED | SUB_CAP | PROBE_GONE | NO_TEST_PATH | WRITE_RAISED | RATE_LIMITED | SESSION_ERROR
    | UNPARSED | INVALID | JUDGE_RAISED | JUDGED_RED | STOPPED

  datatype Pooled = Pooled(group: Group, reason: Reason)

  // A follow-up text minted for a group.
  datatype Accepted = Accepted(group: Group, origin: Origin, spec: Spec, task: nat, text: string)

  // `_validate`: whether a parsed draft can become a follow-up.
  predicate Acceptable(c: Spec, origin: Origin, group: Group, allowed: seq<string>) {
    && c.id == origin.candidateId
    && c.kind in ["bug", "feature"]
    && c.dependsOn == []
    && c.budget <= origin.spec.budget
    && c.touches != [] && (forall path :: path in c.touches ==> path in allowed)
    && (forall edit :: edit in c.edits ==> edit !in ProbesOf(group.findings))
  }

  // The edits a group's own findings wrote.
  function ProbesOf(findings: seq<Qualified>): seq<(string, string)> {
    if findings == [] then [] else
      var probe := findings[0].finding.probe;
      (if probe.Some? then [(probe.value.file, probe.value.find)] else [])
        + ProbesOf(findings[1..])
  }

  // Where findings have ended.
  datatype Shelf = Shelf(pooled: seq<Pooled>, accepted: seq<Accepted>, minted: map<Key, nat>)

  datatype Tally = Tally(spent: real, halted: bool, writes: nat, judges: nat, mints: nat)

  function PooledFindings(pooled: seq<Pooled>): seq<Qualified> {
    if pooled == [] then [] else PooledFindings(pooled[..|pooled| - 1]) + pooled[|pooled| - 1].group.findings
  }

  function AcceptedFindings(accepted: seq<Accepted>): seq<Qualified> {
    if accepted == [] then [] else
      AcceptedFindings(accepted[..|accepted| - 1]) + accepted[|accepted| - 1].group.findings
  }

  // Every finding the walk has settled, once each.
  ghost function Settled(shelf: Shelf): multiset<Qualified> {
    multiset(PooledFindings(shelf.pooled)) + multiset(AcceptedFindings(shelf.accepted))
  }

  // Each accepted text keeps to what its group allows.
  ghost predicate Kept(w: Room, accepted: seq<Accepted>) {
    accepted == [] ||
    (var last := accepted[|accepted| - 1];
     && Kept(w, accepted[..|accepted| - 1])
     && Acceptable(last.spec, last.origin, last.group, [last.group.file] + w.stackPaths)
     && w.parse(last.text) == Some(last.spec))
  }

  // The findings whose named probe still matches exactly once, or no longer does.
  function Standing(w: Room, findings: seq<Qualified>, stands: bool): seq<Qualified> {
    if findings == [] then [] else
      var last := findings[|findings| - 1];
      Standing(w, findings[..|findings| - 1], stands) + (if w.survives(last).Survives? == stands then [last] else [])
  }

  lemma {:induction false} StandingSplits(w: Room, findings: seq<Qualified>)
    ensures multiset(Standing(w, findings, true)) + multiset(Standing(w, findings, false)) == multiset(findings)
  {
    if findings != [] {
      var init, last := findings[..|findings| - 1], findings[|findings| - 1];
      StandingSplits(w, init);
      assert findings == init + [last];
      if w.survives(last).Survives? {
        assert multiset(Standing(w, init, true) + [last]) == multiset(Standing(w, init, true)) + multiset{last};
      } else {
        assert multiset(Standing(w, init, false) + [last]) == multiset(Standing(w, init, false)) + multiset{last};
      }
    }
  }

  lemma {:induction false} StandingHas(w: Room, findings: seq<Qualified>, stands: bool, f: Qualified)
    ensures f in Standing(w, findings, stands) <==> f in findings && w.survives(f).Survives? == stands
  {
    if findings != [] {
      StandingHas(w, findings[..|findings| - 1], stands, f);
      assert findings == findings[..|findings| - 1] + [findings[|findings| - 1]];
    }
  }

  ghost predicate AllStand(w: Room, findings: seq<Qualified>) {
    forall f :: f in findings ==> w.survives(f).Survives?
  }

  lemma {:induction false} StandingAll(w: Room, findings: seq<Qualified>)
    requires AllStand(w, findings)
    ensures Standing(w, findings, true) == findings && Standing(w, findings, false) == []
  {
    if findings != [] {
      var init, last := findings[..|findings| - 1], findings[|findings| - 1];
      assert findings == init + [last];
      StandingAll(w, init);
    }
  }

  ghost predicate Grew(before: Book, after: Book) {
    && before.tasks <= after.tasks && before.attached <= after.attached && before.texts.Keys <= after.texts.Keys
    && before.layers == after.layers && before.endReviews == after.endReviews
  }

  datatype Assessment = Useless(reason: Reason) | Refused(reason: Reason) | Passes(spec: Spec)

  // What a session's reply is good for, with `n` the judge's next answer.
  function VerdictOn(w: Room, group: Group, origin: Origin, reply: Reply, n: nat): Assessment {
    if reply.limited then Useless(RATE_LIMITED)
    else if reply.failed then Useless(SESSION_ERROR)
    else match w.parse(reply.text)
      case None => Refused(UNPARSED)
      case Some(spec) =>
        if !Acceptable(spec, origin, group, [group.file] + w.stackPaths) then Useless(INVALID)
        else match w.judge(n)
          case JudgeRaised => Useless(JUDGE_RAISED)
          case Judged(red) => if red then Refused(JUDGED_RED) else Passes(spec)
  }

  // The account's limit and a judge that raises halt every later group.
  predicate Halts(verdict: Assessment) {
    verdict in {Useless(RATE_LIMITED), Useless(JUDGE_RAISED)}
  }

  // What a session cost, and what it is counted as: nothing when it raised.
  function PaidOf(answer: WriteAnswer): real {
    if answer.Wrote? then answer.reply.cost else answer.paid
  }

  function CostOf(answer: WriteAnswer): real {
    if answer.Wrote? then answer.reply.cost else 0.0
  }

  // The same for all of the first `n` sessions.
  function PaidTo(w: Room, n: nat): real {
    if n == 0 then 0.0 else PaidTo(w, n - 1) + PaidOf(w.write(n - 1))
  }

  function SpentTo(w: Room, n: nat): real {
    if n == 0 then 0.0 else SpentTo(w, n - 1) + CostOf(w.write(n - 1))
  }

  // What of the first `n` sessions is counted as nothing.
  function SlipTo(w: Room, n: nat): real {
    if n == 0 then 0.0
    else SlipTo(w, n - 1) + (if w.write(n - 1).WriteRaised? then w.write(n - 1).paid else 0.0)
  }

  /** What sessions cost is what they are counted as and what slipped. */
  lemma {:induction false} PaidIsCounted(w: Room, n: nat)
    ensures PaidTo(w, n) == SpentTo(w, n) + SlipTo(w, n)
  {
    if n > 0 { PaidIsCounted(w, n - 1); }
  }

  // Two rooms with one writer and one mint.
  lemma {:induction false} SameSessions(a: Room, b: Room, n: nat)
    requires a.write == b.write && a.mint == b.mint
    ensures PaidTo(a, n) == PaidTo(b, n) && SlipTo(a, n) == SlipTo(b, n)
    ensures forall mints, asked, writes :: LostTo(a, mints, asked, writes) == LostTo(b, mints, asked, writes)
  {
    if n > 0 { SameSessions(a, b, n - 1); }
  }

  // That session did not raise with anything paid.
  ghost predicate FreeAt(w: Room, from: nat, to: nat, n: nat) {
    from <= n < to && w.write(n).WriteRaised? ==> w.write(n).paid == 0.0
  }

  /** Nothing slips of a stretch of sessions exactly when none of them raised with
      anything paid. */
  lemma {:induction false} SlipIsNone(w: Room, from: nat, to: nat)
    requires Within(w) && from <= to
    ensures SlipTo(w, from) <= SlipTo(w, to)
    ensures SlipTo(w, to) == SlipTo(w, from) <==> forall n: nat :: FreeAt(w, from, to, n)
  {
    if from < to {
      var last := to - 1;
      SlipIsNone(w, from, last);
      assert WithinAt(w, last);
      if SlipTo(w, to) == SlipTo(w, from) {
        forall n: nat ensures FreeAt(w, from, to, n) { assert FreeAt(w, from, last, n); }
      }
      if forall n: nat :: FreeAt(w, from, to, n) {
        assert FreeAt(w, from, to, last);
        forall n: nat ensures FreeAt(w, from, last, n) { assert FreeAt(w, from, to, n); }
      }
    }
  }

  // What a mint left uncharged, of those asked for from one up to another: the cost
  // of the last session written, when the last of them raised.
  function LostTo(w: Room, mints: nat, asked: nat, writes: nat): real {
    if mints < asked && w.mint(asked - 1).MintRaised? && 0 < writes then CostOf(w.write(writes - 1)) else 0.0
  }

  lemma LostIsNone(w: Room, mints: nat, asked: nat, writes: nat)
    requires Within(w)
    ensures 0.0 <= LostTo(w, mints, asked, writes)
  {
    if 0 < writes { assert WithinAt(w, writes - 1); }
  }

  // None of the mints from one up to another raised.
  ghost predicate MintedAt(w: Room, from: nat, to: nat, n: nat) {
    from <= n < to ==> w.mint(n).Minted?
  }

  ghost predicate AllMinted(w: Room, from: nat, to: nat) {
    forall n :: MintedAt(w, from, to, n)
  }

  lemma MintedOn(w: Room, from: nat, middle: nat, to: nat)
    requires from <= middle <= to && AllMinted(w, from, middle) && AllMinted(w, middle, to)
    ensures AllMinted(w, from, to)
  {
    forall n ensures MintedAt(w, from, to, n) { assert MintedAt(w, from, middle, n) && MintedAt(w, middle, to, n); }
  }

  // How a group's drafts end.
  datatype GroupEnd = PooledFor(reason: Reason) | AcceptedAs(text: Accepted) | MintFailed

  // The shelf once a group's drafts have ended.
  function Shelved(shelf: Shelf, group: Group, end: GroupEnd): Shelf {
    match end
    case PooledFor(reason) => shelf.(pooled := shelf.pooled + [Pooled(group, reason)])
    case AcceptedAs(text) =>
      shelf.(accepted := shelf.accepted + [text], minted := shelf.minted[group.Key() := text.task])
    case MintFailed => shelf
  }

  // The first draft of a group comes back and passes.
  ghost predicate PassesAtOnce(w: Room, group: Group, origin: Origin, tally: Tally) {
    w.write(tally.writes).Wrote? && VerdictOn(w, group, origin, w.write(tally.writes).reply, tally.judges).Passes?
  }

  // That was the group's one session.
  ghost predicate OneSession(w: Room, before: Tally, after: Tally) {
    after.writes == before.writes + 1 && after.spent == before.spent + CostOf(w.write(before.writes))
  }

  ghost predicate ReachesStanding(w: Room, g: Group, tasks: nat) {
    g.findings != [] && w.stackPaths != [] && w.origin(g, tasks).Some?
  }

  ghost predicate PassesStanding(w: Room, g: Group, tally: Tally, tasks: nat) {
    ReachesStanding(w, g, tasks) && PassesAtOnce(w, g, w.origin(g, tasks).value, tally)
  }

  // Nothing keeps the group from the writer, and none of it is gone.
  ghost predicate ReachesWhole(w: Room, g: Group, cap: real, tally: Tally, tasks: nat) {
    && !tally.halted && SPEC_WRITER_SESSION_USD <= cap - tally.spent
    && AllStand(w, g.findings) && ReachesStanding(w, g, tasks)
  }

  // Its first draft comes back and passes.
  ghost predicate PassesWhole(w: Room, g: Group, cap: real, tally: Tally, tasks: nat) {
    ReachesWhole(w, g, cap, tally, tasks) && PassesStanding(w, g, tally, tasks)
  }

  // Its first session raises.
  ghost predicate RaisesStanding(w: Room, g: Group, tally: Tally, tasks: nat) {
    ReachesStanding(w, g, tasks) && w.write(tally.writes).WriteRaised?
  }

  ghost predicate RaisesWhole(w: Room, g: Group, cap: real, tally: Tally, tasks: nat) {
    ReachesWhole(w, g, cap, tally, tasks) && RaisesStanding(w, g, tally, tasks)
  }

  // Every group reaches the writer while nothing is counted as spent, and every
  // session raises.
  ghost predicate RaiseAt(w: Room, groups: seq<Group>, cap: real, tally: Tally, tasks: nat, i: nat) {
    && (i < |groups| ==> ReachesWhole(w, groups[i], cap, tally, tasks))
    && w.write(tally.writes + i).WriteRaised?
  }

  ghost predicate AllRaise(w: Room, groups: seq<Group>, cap: real, tally: Tally, tasks: nat) {
    forall i: nat :: RaiseAt(w, groups, cap, tally, tasks, i)
  }

  lemma RaisesNext(w: Room, groups: seq<Group>, cap: real, first: Tally, tasks: nat, i: nat, tally: Tally)
    requires AllRaise(w, groups, cap, first, tasks) && i < |groups| && tally == first.(writes := first.writes + i)
    ensures RaisesWhole(w, groups[i], cap, tally, tasks)
  {
    assert RaiseAt(w, groups, cap, first, tasks, i);
  }

  ghost predicate Ends(before: Shelf, after: Shelf, group: Group, end: GroupEnd) {
    && after == Shelved(before, group, end)
    && (end.AcceptedAs? ==> end.text.group == group)
  }

  datatype WalkLaw = Ledger | Files

  class FollowUpWriter {
    const w: Room
    const cap: real
    var book: Book
    var shelf: Shelf
    var tally: Tally
    // What a raise left uncharged.
    ghost var lost: real

    constructor (w: Room, cap: real, book: Book)
      requires Within(w) && book.Valid() && book.Complete()
      ensures this.w == w && this.cap == cap && this.book == book && lost == 0.0
      ensures shelf == Shelf([], [], map[]) && tally == Tally(0.0, false, 0, 0, 0)
    {
      this.w, this.cap, this.book := w, cap, book;
      shelf, tally, lost := Shelf([], [], map[]), Tally(0.0, false, 0, 0, 0), 0.0;
    }

    method Pool(group: Group, reason: Reason)
      modifies this`shelf
      ensures shelf == Shelved(old(shelf), group, PooledFor(reason))
    {
      shelf := shelf.(pooled := shelf.pooled + [Pooled(group, reason)]);
    }

    // One attempt in the writing phase.
    method Charge(task: nat, cost: real)
      requires book.Valid() && task <= book.tasks
      modifies this`book
      ensures book == old(book).AddCharge(task, SPEC_WRITING, cost)
      ensures (old(book).Complete() && task in book.attached ==> book.Complete())
      ensures book.Total() == old(book).Total() + cost && book.Written() == old(book).Written() + cost
    {
      book := book.AddCharge(task, SPEC_WRITING, cost);
    }

    // The ledger between two moments of the walk: rows only added.
    ghost predicate Books(start: Book, uncharged: real)
      reads this`book, this`tally, this`lost
    {
      && book.Valid() && Grew(start, book)
      && book.Written() - start.Written() == book.Total() - start.Total() == tally.spent - lost - uncharged
      && 0.0 <= lost <= tally.spent && (tally.spent > 0.0 ==> tally.spent <= cap)
    }

    // The one way a session is left uncharged: the mint that was to file it raised.
    // It was the last mint asked for, and that session the last one written.
    ghost predicate LostBy(failed: bool, mints: nat)
      reads this`tally, this`lost
    {
      if failed then
        && mints < tally.mints && w.mint(tally.mints - 1).MintRaised? && AllMinted(w, mints, tally.mints - 1)
        && 0 < tally.writes && w.write(tally.writes - 1).Wrote? && lost == CostOf(w.write(tally.writes - 1))
      else mints <= tally.mints && AllMinted(w, mints, tally.mints) && lost == 0.0
    }

    // What sessions that came back cost beyond what is counted as spent: nothing
    // between two of them.
    ghost function Owing(): real
      reads this`tally
    {
      SpentTo(w, tally.writes) - tally.spent
    }

    // A raise of the writer leaves everything as it was but the count of its calls.
    twostate predicate OnlyAsked()
      reads this`book, this`tally, this`lost
    {
      book == old(book) && lost == old(lost) && tally == old(tally).(writes := old(tally).writes + 1)
    }

    // Every minted group's task has its text.
    ghost predicate Texts()
      reads this`shelf, this`book
    {
      && (forall key :: key in shelf.minted ==> shelf.minted[key] in book.texts)
      && (forall a :: a in shelf.accepted ==> a.task in book.attached)
      && Kept(w, shelf.accepted)
    }

    // What the walk keeps between two sessions: the ledger, and what was filed.
    ghost predicate Holds(law: WalkLaw, start: Book)
      reads this`book, this`tally, this`lost, this`shelf
    {
      match law
      case Ledger => Books(start, 0.0) && book.Complete()
      case Files => Texts()
    }

    ghost predicate Fit(start: Book)
      reads this`book, this`tally, this`lost, this`shelf
    {
      forall law :: Holds(law, start)
    }

    lemma Fits(start: Book)
      requires Fit(start)
      ensures Books(start, 0.0) && book.Complete() && Texts()
    {
      assert Holds(Ledger, start) && Holds(Files, start);
    }

    lemma IsFit(start: Book)
      requires Books(start, 0.0) && book.Complete() && Texts()
      ensures Fit(start)
    {
    }

    // A session that comes to nothing: charged, and its group pooled.
    method GiveUp(group: Group, task: nat, cost: real, reason: Reason, ghost start: Book) returns (ghost end: GroupEnd)
      requires Books(start, cost) && book.Complete() && task in book.attached && Texts()
      modifies this`book, this`shelf
      ensures Books(start, 0.0) && book.Complete() && book.attached == old(book).attached && Texts()
      ensures end == PooledFor(reason) && Ends(old(shelf), shelf, group, end)
    {
      assert book.MintedAt(task);
      Charge(task, cost);
      Pool(group, reason);
      end := PooledFor(reason);
    }

    // One call of the writer.
    method Write() returns (reply: Option<Reply>)
      requires Within(w)
      modifies this`tally
      ensures tally == old(tally).(writes := old(tally).writes + 1)
      ensures var answer := w.write(old(tally).writes);
        reply == if answer.Wrote? then Some(answer.reply) else None
      ensures reply.Some? ==> 0.0 <= reply.value.cost <= SPEC_WRITER_SESSION_USD
      ensures Owing() == old(Owing()) + (if reply.Some? then reply.value.cost else 0.0)
    {
      assert WithinAt(w, tally.writes);
      var answer := w.write(tally.writes);
      tally := tally.(writes := tally.writes + 1);
      reply := if answer.Wrote? then Some(answer.reply) else None;
    }

    /** A refused draft is charged, then either goes back to the writer once, or
        pools its group: when it has been sent back already, or the cap cannot
        cover one more session, or the writer raises. */
    method SendBack(group: Group, task: nat, reply: Reply, sentBack: bool, reason: Reason, ghost start: Book)
      returns (resent: Option<Reply>, ghost end: GroupEnd)
      requires Within(w) && Books(start, reply.cost) && book.Complete() && task in book.attached && Texts()
      modifies this`book, this`shelf, this`tally
      ensures Books(start, 0.0) && book.Complete() && book.texts == old(book).texts
      ensures book.attached == old(book).attached && Texts()
      ensures tally == old(tally).(writes := tally.writes)
      ensures tally.writes
        == old(tally).writes + (if sentBack || cap - old(tally).spent < SPEC_WRITER_SESSION_USD then 0 else 1)
      ensures if resent.Some? then shelf == old(shelf) else end.PooledFor? && Ends(old(shelf), shelf, group, end)
      ensures resent.Some? ==>
        tally.writes == old(tally).writes + 1 && w.write(old(tally).writes) == Wrote(resent.value)
      ensures resent.Some? ==>
        !sentBack && 0.0 <= resent.value.cost <= cap - tally.spent && resent.value.cost <= SPEC_WRITER_SESSION_USD
      ensures Owing() == old(Owing()) + (if resent.Some? then resent.value.cost else 0.0)
    {
      assert book.MintedAt(task);
      Charge(task, reply.cost);
      end := PooledFor(reason);
      if sentBack || cap - tally.spent < SPEC_WRITER_SESSION_USD {
        Pool(group, reason);
        return None, end;
      }
      resent := Write();
      if resent.None? {
        end := PooledFor(WRITE_RAISED);
        Pool(group, WRITE_RAISED);
      }
    }

    // A new task, charged with the session, attached, and given the text.
    method FileText(cost: real, text: string) returns (task: nat)
      requires book.Valid() && book.Complete()
      modifies this`book
      ensures book.Valid() && book.Complete() && Grew(old(book), book)
      ensures task in book.attached && task == book.tasks == old(book).tasks + 1
      ensures book.texts == old(book).texts[task := SpecText(FollowUpText, text)]
      ensures book.Total() == old(book).Total() + cost && book.Written() == old(book).Written() + cost
    {
      book := book.Mint();
      task := book.tasks;
      Charge(task, cost);
      book := book.Attach(task);
      BecomesComplete(old(book), book, SpendBook.Charge(task, SPEC_WRITING, cost));
      KeepsLaws(book, book.(texts := book.texts[task := SpecText(FollowUpText, text)]));
      book := book.(texts := book.texts[task := SpecText(FollowUpText, text)]);
    }

    // A validated draft the judge passed, minted and filed under its own task.
    method Accept(group: Group, origin: Origin, reply: Reply, spec: Spec, ghost start: Book)
      returns (raised: bool, ghost end: GroupEnd)
      requires Books(start, reply.cost) && book.Complete() && lost == 0.0 && 0.0 <= reply.cost <= tally.spent && Texts()
      requires Acceptable(spec, origin, group, [group.file] + w.stackPaths) && w.parse(reply.text) == Some(spec)
      modifies this`book, this`shelf, this`tally, this`lost
      ensures Books(start, 0.0) && book.Complete() && Texts() && old(book).attached <= book.attached
      ensures tally == old(tally).(mints := old(tally).mints + 1)
      ensures raised <==> w.mint(old(tally).mints).MintRaised?
      ensures lost == if raised then reply.cost else 0.0
      ensures raised == end.MintFailed? && !end.PooledFor? && Ends(old(shelf), shelf, group, end)
    {
      var answer := w.mint(tally.mints);
      tally := tally.(mints := tally.mints + 1);
      if answer.MintRaised? {
        lost := reply.cost;
        return true, MintFailed;
      }
      var task := FileText(reply.cost, reply.text);
      var a := Accepted(group, origin, spec, task, reply.text);
      InitLast(shelf.accepted, a);
      shelf := shelf.(minted := shelf.minted[group.Key() := task], accepted := shelf.accepted + [a]);
      raised, end := false, AcceptedAs(a);
    }

    /** What a reply is good for: nothing more, another try, or a follow-up. A judge
        that raises and the account's limit both halt every later group, and the
        judge is asked only about a draft that could become a follow-up. */
    method Assess(group: Group, origin: Origin, reply: Reply) returns (verdict: Assessment)
      modifies this`tally
      ensures verdict == VerdictOn(w, group, origin, reply, old(tally).judges)
      ensures tally == old(tally).(judges := tally.judges, halted := old(tally).halted || Halts(verdict))
      ensures tally.judges == old(tally).judges +
        (if verdict.Passes? || verdict in {Useless(JUDGE_RAISED), Refused(JUDGED_RED)} then 1 else 0)
      ensures verdict.Passes? ==>
        && Acceptable(verdict.spec, origin, group, [group.file] + w.stackPaths)
        && w.parse(reply.text) == Some(verdict.spec)
    {
      if reply.limited {
        tally := tally.(halted := true);
        return Useless(RATE_LIMITED);
      }
      if reply.failed {
        return Useless(SESSION_ERROR);
      }
      var parsed := w.parse(reply.text);
      if parsed.None? {
        return Refused(UNPARSED);
      }
      if !Acceptable(parsed.value, origin, group, [group.file] + w.stackPaths) {
        return Useless(INVALID);
      }
      var judged := w.judge(tally.judges);
      tally := tally.(judges := tally.judges + 1);
      if judged.JudgeRaised? {
        tally := tally.(halted := true);
        return Useless(JUDGE_RAISED);
      }
      verdict := if judged.red then Refused(JUDGED_RED) else Passes(parsed.value);
    }

    // What one session's reply comes to, once its cost is known: the group ends,
    // or the draft is refused and may go back.
    method TakeReply(group: Group, origin: Origin, reply: Reply, ghost start: Book)
      returns (refused: Option<Reason>, raised: bool, ghost end: GroupEnd)
      requires Books(start, reply.cost) && book.Complete() && lost == 0.0 && 0.0 <= reply.cost <= tally.spent
      requires origin.task in book.attached && Texts()
      modifies this`book, this`shelf, this`tally, this`lost
      ensures Books(start, if refused.Some? then reply.cost else 0.0) && book.Complete() && Texts()
      ensures old(book).attached <= book.attached
      ensures lost == if raised then reply.cost else 0.0
      ensures tally.spent == old(tally).spent && tally.writes == old(tally).writes
      ensures var verdict := VerdictOn(w, group, origin, reply, old(tally).judges);
        && refused == (if verdict.Refused? then Some(verdict.reason) else None)
        && (raised <==> verdict.Passes? && w.mint(old(tally).mints).MintRaised?)
        && tally.mints == old(tally).mints + (if verdict.Passes? then 1 else 0)
      ensures if refused.Some? then
          shelf == old(shelf) && !raised && book == old(book)
        else raised == end.MintFailed? && Ends(old(shelf), shelf, group, end)
    {
      refused, raised, end := None, false, MintFailed;
      var verdict := Assess(group, origin, reply);
      match verdict {
        case Refused(reason) => refused := Some(reason);
        case Useless(reason) =>
          end := GiveUp(group, origin.task, reply.cost, reason, start);
        case Passes(spec) => raised, end := Accept(group, origin, reply, spec, start);
      }
    }

    // What a draft may be started on.
    ghost predicate Ready(start: Book)
      reads this`book, this`tally, this`lost, this`shelf
    {
      && Within(w) && Fit(start) && lost == 0.0
      && forall h, n :: w.origin(h, n).Some? ==> w.origin(h, n).value.task in book.attached
    }

    // The session just written, not charged yet.
    ghost predicate Written(reply: Reply)
      reads this`tally
    {
      && 0 < tally.writes && w.write(tally.writes - 1) == Wrote(reply)
      && 0.0 <= reply.cost <= cap - tally.spent && reply.cost <= SPEC_WRITER_SESSION_USD
    }

    // One session of a group: what it comes to, and the next when it is sent back.
    method Session(group: Group, origin: Origin, reply: Reply, sentBack: bool, ghost start: Book)
      returns (next: Option<Reply>, raised: bool, ghost end: GroupEnd)
      requires Within(w) && Fit(start) && lost == 0.0 && origin.task in book.attached && Written(reply)
      modifies this`book, this`shelf, this`tally, this`lost
      ensures Fit(start) && old(book).attached <= book.attached
      ensures old(tally).writes <= tally.writes <= old(tally).writes + (if sentBack then 0 else 1)
      ensures next.Some? ==>
        !sentBack && shelf == old(shelf) && lost == 0.0 && tally.mints == old(tally).mints && Written(next.value)
      ensures next.None? ==> raised == end.MintFailed? && Ends(old(shelf), shelf, group, end)
      ensures next.None? ==> 0.0 <= lost <= SPEC_WRITER_SESSION_USD && LostBy(raised, old(tally).mints)
      ensures VerdictOn(w, group, origin, reply, old(tally).judges).Passes? ==>
        next.None? && tally.writes == old(tally).writes && (raised <==> w.mint(old(tally).mints).MintRaised?)
      ensures next.None? ==> tally.spent == old(tally).spent + reply.cost
      ensures Owing() == old(Owing()) - reply.cost + (if next.Some? then next.value.cost else 0.0)
    {
      Fits(start);
      ghost var n := tally.mints;
      tally := tally.(spent := tally.spent + reply.cost);
      var refused;
      refused, raised, end := TakeReply(group, origin, reply, start);
      next := None;
      if refused.Some? {
        next, end := SendBack(group, origin.task, reply, sentBack, refused.value, start);
      }
      assert MintedAt(w, n, n + 1, n) <==> w.mint(n).Minted?;
      IsFit(start);
    }

    /** One group's drafts, from the first session to the last it may have: at
        most two sessions, and the group is settled unless minting raises. */
    method Draft(group: Group, origin: Origin, ghost start: Book) returns (raised: bool, ghost end: GroupEnd)
      requires Within(w) && Fit(start) && lost == 0.0 && origin.task in book.attached
      requires cap - tally.spent >= SPEC_WRITER_SESSION_USD
      modifies this`book, this`shelf, this`tally, this`lost
      ensures Fit(start) && old(book).attached <= book.attached
      ensures 0.0 <= lost <= SPEC_WRITER_SESSION_USD && LostBy(raised, old(tally).mints)
      ensures old(tally).writes < tally.writes <= old(tally).writes + 2
      ensures raised == end.MintFailed? && Ends(old(shelf), shelf, group, end)
      ensures PassesAtOnce(w, group, origin, old(tally)) ==>
        OneSession(w, old(tally), tally) && (raised <==> w.mint(old(tally).mints).MintRaised?)
      ensures Owing() == old(Owing())
      ensures w.write(old(tally).writes).WriteRaised? ==> OnlyAsked() && end == PooledFor(WRITE_RAISED)
    {
      Fits(start);
      var next := Write();
      raised, end := false, PooledFor(WRITE_RAISED);
      if next.None? {
        Pool(group, WRITE_RAISED);
      }
      IsFit(start);
      var sentBack := false;
      while next.Some?
        invariant Fit(start) && old(book).attached <= book.attached
        invariant old(tally).writes < tally.writes <= old(tally).writes + (if sentBack then 2 else 1)
        invariant next.Some? ==>
          shelf == old(shelf) && lost == 0.0 && tally.mints == old(tally).mints && Written(next.value)
        invariant next.Some? ==>
          if sentBack then !PassesAtOnce(w, group, origin, old(tally))
          else
            && tally.judges == old(tally).judges && tally.writes == old(tally).writes + 1
            && tally.spent == old(tally).spent
        invariant next.None? ==> raised == end.MintFailed? && Ends(old(shelf), shelf, group, end)
        invariant next.None? ==> 0.0 <= lost <= SPEC_WRITER_SESSION_USD && LostBy(raised, old(tally).mints)
        invariant next.None? && PassesAtOnce(w, group, origin, old(tally)) ==>
          OneSession(w, old(tally), tally) && (raised <==> w.mint(old(tally).mints).MintRaised?)
        invariant Owing() == old(Owing()) + (if next.Some? then next.value.cost else 0.0)
        invariant w.write(old(tally).writes).WriteRaised? ==>
          next.None? && OnlyAsked() && end == PooledFor(WRITE_RAISED)
        decreases next.Some?, !sentBack
      {
        next, raised, end := Session(group, origin, next.value, sentBack, start);
        sentBack := true;
      }
    }

    // The findings of a group whose probes still match, or nothing when asking
    // raises.
    method Slice(g: Group) returns (kept: seq<Qualified>, gone: seq<Qualified>, raised: bool)
      ensures !raised ==> kept == Standing(w, g.findings, true) && gone == Standing(w, g.findings, false)
      ensures raised ==> !AllStand(w, g.findings)
    {
      kept, gone, raised := [], [], false;
      for i := 0 to |g.findings|
        invariant kept == Standing(w, g.findings[..i], true) && gone == Standing(w, g.findings[..i], false)
      {
        TakeNext(g.findings, i);
        InitLast(g.findings[..i], g.findings[i]);
        match w.survives(g.findings[i]) {
          case Survives => kept := kept + [g.findings[i]];
          case Gone => gone := gone + [g.findings[i]];
          case SurvivalRaised => return kept, gone, true;
        }
      }
      TakeAll(g.findings);
    }

    // What still stands of a group, drafted unless there is nothing of it, nowhere
    // to test it, or no layer it grew out of.
    method DraftSlice(slice: Group, ghost start: Book) returns (raised: bool, ghost end: Option<GroupEnd>)
      requires Ready(start) && cap - tally.spent >= SPEC_WRITER_SESSION_USD
      modifies this`book, this`shelf, this`tally, this`lost
      ensures Fit(start) && old(book).attached <= book.attached
      ensures 0.0 <= lost <= SPEC_WRITER_SESSION_USD && LostBy(end == Some(MintFailed), old(tally).mints)
      ensures old(tally).writes <= tally.writes <= old(tally).writes + 2
      ensures raised == (end == Some(MintFailed) || (end.None? && slice.findings != []))
      ensures if end.Some? then Ends(old(shelf), shelf, slice, end.value) else shelf == old(shelf)
      ensures PassesStanding(w, slice, old(tally), old(book).tasks) ==>
        OneSession(w, old(tally), tally) && (end == Some(MintFailed) <==> w.mint(old(tally).mints).MintRaised?)
      ensures Owing() == old(Owing())
      ensures RaisesStanding(w, slice, old(tally), old(book).tasks) ==> OnlyAsked() && !raised
    {
      raised, end := false, None;
      if slice.findings == [] {
        return;
      }
      if w.stackPaths == [] {
        end := PoolSlice(slice, start);
        return;
      }
      var origin := w.origin(slice, book.tasks);
      if origin.None? {
        return true, None;
      }
      ghost var ended;
      raised, ended := Draft(slice, origin.value, start);
      end := Some(ended);
    }

    method PoolSlice(slice: Group, ghost start: Book) returns (ghost end: Option<GroupEnd>)
      requires Fit(start)
      modifies this`shelf
      ensures Fit(start) && end == Some(PooledFor(NO_TEST_PATH)) && Ends(old(shelf), shelf, slice, end.value)
    {
      Fits(start);
      Pool(slice, NO_TEST_PATH);
      IsFit(start);
      end := Some(PooledFor(NO_TEST_PATH));
    }

    // A group the writer may work on: narrowed to what still stands, and drafted.
    method WriteSlice(g: Group, ghost start: Book) returns (raised: bool, ghost step: Step)
      requires Ready(start) && cap - tally.spent >= SPEC_WRITER_SESSION_USD
      modifies this`book, this`shelf, this`tally, this`lost
      ensures Fit(start) && old(book).attached <= book.attached
      ensures 0.0 <= lost <= SPEC_WRITER_SESSION_USD && LostBy(step == Sliced(Some(MintFailed)), old(tally).mints)
      ensures old(tally).writes <= tally.writes <= old(tally).writes + 2
      ensures raised == StepRaises(w, g, step)
      ensures shelf == Stepped(w, old(shelf), g, step) && StepOwn(w, g, step)
      ensures !old(tally).halted && PassesWhole(w, g, cap, old(tally), old(book).tasks) ==>
        OneSession(w, old(tally), tally) && (step == Sliced(Some(MintFailed)) <==> w.mint(old(tally).mints).MintRaised?)
      ensures Owing() == old(Owing())
      ensures RaisesWhole(w, g, cap, old(tally), old(book).tasks) ==> OnlyAsked() && !raised
    {
      var kept, failed := Narrow(g, start);
      if failed {
        return true, Unsliced;
      }
      ghost var end;
      raised, end := DraftSlice(g.(findings := kept), start);
      step := Sliced(end);
    }

    // The findings of a group that still stand, the others pooled.
    method Narrow(g: Group, ghost start: Book) returns (kept: seq<Qualified>, failed: bool)
      requires Fit(start)
      modifies this`shelf
      ensures Fit(start) && (failed ==> shelf == old(shelf) && !AllStand(w, g.findings))
      ensures !failed ==> kept == Standing(w, g.findings, true) && shelf == Narrowed(w, old(shelf), g)
      ensures !failed && AllStand(w, g.findings) ==> kept == g.findings
    {
      var gone;
      kept, gone, failed := Slice(g);
      if AllStand(w, g.findings) {
        StandingAll(w, g.findings);
      }
      if !failed && gone != [] {
        Fits(start);
        Pool(g.(findings := gone), PROBE_GONE);
        IsFit(start);
      }
    }

    /** One group of the walk: pooled whole, or narrowed to what still stands and
        drafted. At most two sessions are asked for. */
    method WriteGroup(g: Group, ghost start: Book) returns (raised: bool, ghost step: Step)
      requires Ready(start)
      modifies this`book, this`shelf, this`tally, this`lost
      ensures Fit(start) && old(book).attached <= book.attached
      ensures 0.0 <= lost <= SPEC_WRITER_SESSION_USD && LostBy(step == Sliced(Some(MintFailed)), old(tally).mints)
      ensures old(tally).writes <= tally.writes <= old(tally).writes + 2
      ensures old(tally).halted ==> step == PooledWhole(HALTED) && tally == old(tally)
      ensures !old(tally).halted && cap - old(tally).spent < SPEC_WRITER_SESSION_USD ==>
        step == PooledWhole(SUB_CAP) && tally == old(tally)
      ensures raised == StepRaises(w, g, step)
      ensures shelf == Stepped(w, old(shelf), g, step) && StepOwn(w, g, step)
      ensures PassesWhole(w, g, cap, old(tally), old(book).tasks) ==>
        OneSession(w, old(tally), tally) && (step == Sliced(Some(MintFailed)) <==> w.mint(old(tally).mints).MintRaised?)
      ensures Owing() == old(Owing())
      ensures RaisesWhole(w, g, cap, old(tally), old(book).tasks) ==> OnlyAsked() && !raised
    {
      if tally.halted || cap - tally.spent < SPEC_WRITER_SESSION_USD {
        var reason := if tally.halted then HALTED else SUB_CAP;
        Fits(start);
        Pool(g, reason);
        IsFit(start);
        return false, PooledWhole(reason);
      }
      raised, step := WriteSlice(g, start);
    }

    // Before anything has been written.
    ghost predicate Begun()
      reads this`book, this`shelf, this`tally, this`lost
    {
      && Within(w) && book.Valid() && book.Complete() && lost == 0.0
      && shelf == Shelf([], [], map[]) && tally.spent == 0.0
      && forall h, n :: w.origin(h, n).Some? ==> w.origin(h, n).value.task in book.attached
    }

    /** The walk over the groups. A raise leaves every group before it settled,
        and the sessions charged but for the one that minting lost. */
    method WriteFollowUps(groups: seq<Group>) returns (raised: bool, ghost stopped: Stop)
      requires Begun() && DistinctKeys(groups) && WellGrouped(groups)
      modifies this`book, this`shelf, this`tally, this`lost
      ensures Fit(old(book)) && 0.0 <= lost <= SPEC_WRITER_SESSION_USD
      ensures LostBy(raised && stopped.step == Sliced(Some(MintFailed)), old(tally).mints)
      ensures old(tally).writes <= tally.writes <= old(tally).writes + 2 * |groups|
      ensures if raised then StoppedAt(w, groups, shelf, stopped) else WalkedOver(shelf, groups)
      ensures Owing() == old(Owing())
      ensures AllRaise(w, groups, cap, old(tally), old(book).tasks) ==> tally.writes == old(tally).writes + |groups|
    {
      raised, stopped := false, Stop(0, shelf, Unsliced);
      NothingWalked();
      IsFit(old(book));
      var i := 0;
      while i < |groups| && !raised
        invariant i <= |groups| && Fit(old(book)) && 0.0 <= lost <= SPEC_WRITER_SESSION_USD
        invariant !raised ==> Ready(old(book)) && WalkedOver(shelf, groups[..i])
        invariant raised ==> StoppedAt(w, groups, shelf, stopped)
        invariant LostBy(raised && stopped.step == Sliced(Some(MintFailed)), old(tally).mints)
        invariant old(tally).writes <= tally.writes <= old(tally).writes + 2 * (if raised then i + 1 else i)
        invariant raised ==> i < |groups|
        invariant Owing() == old(Owing())
        invariant Along(groups, old(tally), old(book).tasks, i, raised)
        decreases !raised, |groups| - i
      {
        ghost var before := shelf;
        ghost var step;
        raised, step := WriteNext(groups, i, old(book), old(tally), old(book).tasks);
        if raised {
          stopped := Stop(i, before, step);
        } else {
          i := i + 1;
        }
      }
      TakeAll(groups);
    }

    // While every session raises, nothing but the count of them changes.
    ghost predicate Along(groups: seq<Group>, first: Tally, tasks: nat, i: nat, raised: bool)
      reads this`book, this`tally
    {
      AllRaise(w, groups, cap, first, tasks) ==>
        !raised && book.tasks == tasks && tally == first.(writes := first.writes + i)
    }

    // The next group of the walk.
    method WriteNext(groups: seq<Group>, i: nat, ghost start: Book, ghost first: Tally, ghost tasks: nat)
      returns (raised: bool, ghost step: Step)
      requires Ready(start) && WellGrouped(groups) && i < |groups| && WalkedOver(shelf, groups[..i])
      requires LostBy(false, first.mints) && Along(groups, first, tasks, i, false)
      modifies this`book, this`shelf, this`tally, this`lost
      ensures Fit(start) && 0.0 <= lost <= SPEC_WRITER_SESSION_USD && (!raised ==> Ready(start))
      ensures old(tally).writes <= tally.writes <= old(tally).writes + 2
      ensures raised == StepRaises(w, groups[i], step) && shelf == Stepped(w, old(shelf), groups[i], step)
      ensures LostBy(raised && step == Sliced(Some(MintFailed)), first.mints)
      ensures !raised ==> WalkedOver(shelf, groups[..i + 1])
      ensures Owing() == old(Owing()) && Along(groups, first, tasks, i + 1, raised)
    {
      ghost var asked, before := tally.mints, tally;
      raised, step := WriteGroup(groups[i], start);
      if AllRaise(w, groups, cap, first, tasks) {
        RaisesNext(w, groups, cap, first, tasks, i, before);
      }
      MintedOn(w, first.mints, asked, if step == Sliced(Some(MintFailed)) then tally.mints - 1 else tally.mints);
      OwnFindings(groups, i);
      if !raised {
        StepWalks(w, old(shelf), groups[..i], groups[i], step);
        TakeNext(groups, i);
      }
    }

    // One group's findings that are nowhere pooled, unless the group was accepted.
    method AddBackOne(g: Group, accepted: set<Key>, already: seq<Qualified>)
      modifies this`shelf
      ensures shelf == old(shelf).(pooled := shelf.pooled)
      ensures Settled(shelf) == Settled(old(shelf)) + LeftoverOf(g, accepted, already)
    {
      if g.Key() !in accepted {
        var remaining := NotIn(g.findings, already);
        if remaining != [] {
          ShelvedSettles(shelf, g.(findings := remaining), PooledFor(STOPPED));
          Pool(g.(findings := remaining), STOPPED);
        }
      }
    }

    method AddBackNext(groups: seq<Group>, i: nat, accepted: set<Key>, already: seq<Qualified>,
                       ghost was: multiset<Qualified>)
      requires i < |groups| && BackTo(was, groups, i, accepted, already)
      modifies this`shelf
      ensures shelf == old(shelf).(pooled := shelf.pooled)
      ensures BackTo(was, groups, i + 1, accepted, already)
    {
      SumNext(was, Leftovers(groups, accepted, already), i);
      AddBackOne(groups[i], accepted, already);
    }

    // The first n groups are added back to what `was` settled.
    ghost predicate BackTo(was: multiset<Qualified>, groups: seq<Group>, n: nat, accepted: set<Key>,
                           already: seq<Qualified>)
      requires n <= |groups|
      reads this
    {
      Settled(shelf) == was + SumTo(Leftovers(groups, accepted, already), n)
    }

    method AddBackEach(groups: seq<Group>, accepted: set<Key>, already: seq<Qualified>)
      modifies this`shelf
      ensures shelf == old(shelf).(pooled := shelf.pooled)
      ensures Settled(shelf) == Settled(old(shelf)) + Leftover(groups, accepted, already)
    {
      ghost var was := Settled(shelf);
      Sums(was, was, was);
      for i := 0 to |groups|
        invariant shelf == old(shelf).(pooled := shelf.pooled)
        invariant BackTo(was, groups, i, accepted, already)
      {
        AddBackNext(groups, i, accepted, already, was);
      }
    }

    /** What the adapter does with a raise: every finding of a group not accepted
        that is nowhere pooled is pooled with the raise as its reason. */
    method AddBack(groups: seq<Group>, ghost stopped: Stop)
      requires DistinctKeys(groups) && WellGrouped(groups) && StoppedAt(w, groups, shelf, stopped) && Texts()
      modifies this`shelf
      ensures Settled(shelf) == All(groups) && shelf == old(shelf).(pooled := shelf.pooled)
    {
      var accepted := set key | key in shelf.minted && shelf.minted[key] in book.texts;
      assert accepted == shelf.minted.Keys;
      AddBackEach(groups, accepted, PooledFindings(shelf.pooled));
      LeftoverIsRest(w, groups, shelf, old(shelf), stopped);
    }

    /** The follow-ups of a qualified stack: whatever raises, every grouped finding
        ends in exactly one of an accepted text or a pooled group, and no group asks
        for more than two sessions. The ledger gains what the sessions cost, less
        what the last mint lost and what slipped past the count because a session
        raised. What was counted stays inside the cap. */
    method StackFollowUps(groups: seq<Group>) returns (candidates: seq<Accepted>, raised: bool)
      requires Begun() && DistinctKeys(groups) && WellGrouped(groups)
      modifies this`book, this`shelf, this`tally, this`lost
      ensures Settled(shelf) == All(groups)
      ensures Books(old(book), 0.0) && book.Complete() && Texts()
      ensures 0.0 <= lost <= SPEC_WRITER_SESSION_USD && (lost > 0.0 ==> raised)
      ensures lost == LostTo(w, old(tally).mints, tally.mints, tally.writes)
      ensures Billed(old(book), old(tally).writes)
      ensures old(tally).writes <= tally.writes <= old(tally).writes + 2 * |groups|
      ensures AllRaise(w, groups, cap, old(tally), old(book).tasks) ==> tally.writes == old(tally).writes + |groups|
      ensures if raised then
          candidates == []
        else candidates == shelf.accepted && WalkedOver(shelf, groups) && lost == 0.0
    {
      ghost var stopped;
      raised, stopped := WriteBilled(groups);
      candidates := shelf.accepted;
      if raised {
        AddBack(groups, stopped);
        candidates := [];
      }
    }

    // The walk, and what it came to cost.
    method WriteBilled(groups: seq<Group>) returns (raised: bool, ghost stopped: Stop)
      requires Begun() && DistinctKeys(groups) && WellGrouped(groups)
      modifies this`book, this`shelf, this`tally, this`lost
      ensures Books(old(book), 0.0) && book.Complete() && Texts()
      ensures 0.0 <= lost <= SPEC_WRITER_SESSION_USD && (lost > 0.0 ==> raised)
      ensures lost == LostTo(w, old(tally).mints, tally.mints, tally.writes)
      ensures Billed(old(book), old(tally).writes)
      ensures old(tally).writes <= tally.writes <= old(tally).writes + 2 * |groups|
      ensures AllRaise(w, groups, cap, old(tally), old(book).tasks) ==> tally.writes == old(tally).writes + |groups|
      ensures if raised then StoppedAt(w, groups, shelf, stopped)
              else lost == 0.0 && WalkedOver(shelf, groups)
    {
      raised, stopped := WriteFollowUps(groups);
      Fits(old(book));
      LostIsKnown(old(tally).mints, raised && stopped.step == Sliced(Some(MintFailed)));
      IsBilled(old(book), old(tally).writes);
    }

    // What the ledger gained of what the sessions since one cost, and when that is
    // all of it.
    ghost predicate Billed(start: Book, from: nat)
      reads this`book, this`tally, this`lost
    {
      var paid, slipped := PaidTo(w, tally.writes) - PaidTo(w, from), SlipTo(w, tally.writes) - SlipTo(w, from);
      && book.Written() - start.Written() == book.Total() - start.Total() == paid - lost - slipped
      && 0.0 <= slipped && paid - slipped == tally.spent
      && (book.Written() - start.Written() == paid <==>
            lost == 0.0 && forall n: nat :: FreeAt(w, from, tally.writes, n))
    }

    lemma IsBilled(start: Book, from: nat)
      requires Within(w) && Books(start, 0.0) && Owing() == SpentTo(w, from) && from <= tally.writes
      ensures Billed(start, from)
    {
      PaidIsCounted(w, from);
      PaidIsCounted(w, tally.writes);
      SlipIsNone(w, from, tally.writes);
    }

    /** What a walk lost can be read off the answer to the last mint asked for. */
    lemma LostIsKnown(mints: nat, failed: bool)
      requires LostBy(failed, mints)
      ensures mints < tally.mints && w.mint(tally.mints - 1).MintRaised? <==> failed
      ensures lost == LostTo(w, mints, tally.mints, tally.writes) && (lost > 0.0 ==> failed)
    {
      if !failed && mints < tally.mints {
        assert MintedAt(w, mints, tally.mints, tally.mints - 1);
      }
    }
  }

  // What one group of the walk came to: pooled whole, narrowed and drafted, or a
  // raise before it was narrowed. A draft missing where findings still stood is
  // a raise before the first session.
  datatype Step = PooledWhole(reason: Reason) | Sliced(end: Option<GroupEnd>) | Unsliced

  function Narrowed(w: Room, shelf: Shelf, g: Group): Shelf {
    var gone := Standing(w, g.findings, false);
    if gone == [] then shelf else Shelved(shelf, g.(findings := gone), PooledFor(PROBE_GONE))
  }

  function Stepped(w: Room, shelf: Shelf, g: Group, step: Step): Shelf {
    match step
    case PooledWhole(reason) => Shelved(shelf, g, PooledFor(reason))
    case Unsliced => shelf
    case Sliced(None) => Narrowed(w, shelf, g)
    case Sliced(Some(end)) => Shelved(Narrowed(w, shelf, g), g.(findings := Standing(w, g.findings, true)), end)
  }

  predicate StepRaises(w: Room, g: Group, step: Step) {
    || step.Unsliced?
    || step == Sliced(Some(MintFailed))
    || (step == Sliced(None) && Standing(w, g.findings, true) != [])
  }

  predicate StepOwn(w: Room, g: Group, step: Step) {
    step.Sliced? && step.end.Some? && step.end.value.AcceptedAs? ==>
      step.end.value.text.group == g.(findings := Standing(w, g.findings, true))
  }

  // ---------------------------------------------------------------------------
  // Conservation

  lemma ShelvedSettles(shelf: Shelf, group: Group, end: GroupEnd)
    requires end.AcceptedAs? ==> end.text.group == group
    ensures !end.MintFailed? ==> Settled(Shelved(shelf, group, end)) == Settled(shelf) + multiset(group.findings)
    ensures forall f :: f in PooledFindings(Shelved(shelf, group, end).pooled) <==>
      f in PooledFindings(shelf.pooled) || (end.PooledFor? && f in group.findings)
  {
    match end {
      case PooledFor(reason) => InitLast(shelf.pooled, Pooled(group, reason));
      case AcceptedAs(text) => InitLast(shelf.accepted, text);
      case MintFailed =>
    }
  }

  // What one group leaves unsettled when its step raises.
  ghost function Unsettled(w: Room, g: Group, step: Step): seq<Qualified> {
    if step.Unsliced? then g.findings else Standing(w, g.findings, true)
  }

  lemma StepSettles(w: Room, shelf: Shelf, g: Group, step: Step)
    requires StepOwn(w, g, step) && !StepRaises(w, g, step)
    ensures Settled(Stepped(w, shelf, g, step)) == Settled(shelf) + multiset(g.findings)
  {
    match step {
      case PooledWhole(reason) => ShelvedSettles(shelf, g, PooledFor(reason));
      case Sliced(None) => SliceSettles(w, shelf, g);
      case Sliced(Some(end)) =>
        SliceSettles(w, shelf, g);
        ShelvedSettles(Narrowed(w, shelf, g), g.(findings := Standing(w, g.findings, true)), end);
    }
  }

  lemma StepLeaves(w: Room, shelf: Shelf, g: Group, step: Step)
    requires StepRaises(w, g, step)
    ensures Settled(Stepped(w, shelf, g, step)) + multiset(Unsettled(w, g, step))
      == Settled(shelf) + multiset(g.findings)
  {
    if step.Sliced? {
      assert Stepped(w, shelf, g, step) == Narrowed(w, shelf, g);
      SliceSettles(w, shelf, g);
    }
  }

  lemma SliceSettles(w: Room, shelf: Shelf, g: Group)
    ensures Settled(Narrowed(w, shelf, g)) + multiset(Standing(w, g.findings, true))
      == Settled(shelf) + multiset(g.findings)
  {
    NarrowedSettles(w, shelf, g);
    StandingSplits(w, g.findings);
  }

  lemma NarrowedSettles(w: Room, shelf: Shelf, g: Group)
    ensures Settled(Narrowed(w, shelf, g)) == Settled(shelf) + multiset(Standing(w, g.findings, false))
    ensures forall f :: f in PooledFindings(Narrowed(w, shelf, g).pooled) <==>
      f in PooledFindings(shelf.pooled) || f in Standing(w, g.findings, false)
  {
    if Standing(w, g.findings, false) != [] {
      ShelvedSettles(shelf, g.(findings := Standing(w, g.findings, false)), PooledFor(PROBE_GONE));
    }
  }

  // Which of a group's findings its step pooled.
  ghost predicate PoolsNow(w: Room, g: Group, step: Step, f: Qualified) {
    match step
    case PooledWhole(_) => true
    case Unsliced => false
    case Sliced(end) => !w.survives(f).Survives? || (end.Some? && end.value.PooledFor?)
  }

  lemma StepPools(w: Room, shelf: Shelf, g: Group, step: Step, f: Qualified)
    requires StepOwn(w, g, step)
    ensures f in PooledFindings(Stepped(w, shelf, g, step).pooled) <==>
      f in PooledFindings(shelf.pooled) || (f in g.findings && PoolsNow(w, g, step, f))
  {
    StandingHas(w, g.findings, true, f);
    StandingHas(w, g.findings, false, f);
    match step {
      case PooledWhole(reason) => ShelvedSettles(shelf, g, PooledFor(reason));
      case Unsliced =>
      case Sliced(end) =>
        NarrowedSettles(w, shelf, g);
        if end.Some? {
          ShelvedSettles(Narrowed(w, shelf, g), g.(findings := Standing(w, g.findings, true)), end.value);
        }
    }
  }

  lemma StepMints(w: Room, shelf: Shelf, g: Group, step: Step)
    ensures Stepped(w, shelf, g, step).minted.Keys
      == shelf.minted.Keys + (if step.Sliced? && step.end.Some? && step.end.value.AcceptedAs? then {g.Key()} else {})
  {
  }

  // A settled group is accepted, or every finding of it is pooled.
  ghost predicate GroupSettled(shelf: Shelf, g: Group) {
    g.Key() in shelf.minted || forall f :: f in g.findings ==> f in PooledFindings(shelf.pooled)
  }

  ghost predicate SettledAt(shelf: Shelf, done: seq<Group>, k: nat) {
    k < |done| ==> GroupSettled(shelf, done[k])
  }

  ghost predicate AllSettled(shelf: Shelf, done: seq<Group>) {
    forall k :: SettledAt(shelf, done, k)
  }

  // Nothing on the shelf comes from a group outside these keys.
  ghost predicate Only(shelf: Shelf, keys: set<Key>) {
    shelf.minted.Keys <= keys && forall f :: f in PooledFindings(shelf.pooled) ==> f.Key() in keys
  }

  lemma AllSettledStays(w: Room, shelf: Shelf, done: seq<Group>, g: Group, step: Step)
    requires AllSettled(shelf, done) && StepOwn(w, g, step)
    ensures AllSettled(Stepped(w, shelf, g, step), done)
  {
    forall k: nat ensures SettledAt(Stepped(w, shelf, g, step), done, k) {
      assert SettledAt(shelf, done, k);
      if k < |done| {
        GroupStaysSettled(w, shelf, done[k], g, step);
      }
    }
  }

  lemma GroupStaysSettled(w: Room, shelf: Shelf, settled: Group, g: Group, step: Step)
    requires GroupSettled(shelf, settled) && StepOwn(w, g, step)
    ensures GroupSettled(Stepped(w, shelf, g, step), settled)
  {
    StepMints(w, shelf, g, step);
    forall f | f in settled.findings && f in PooledFindings(shelf.pooled)
      ensures f in PooledFindings(Stepped(w, shelf, g, step).pooled)
    {
      StepPools(w, shelf, g, step, f);
    }
  }

  lemma AllSettledNext(shelf: Shelf, done: seq<Group>, g: Group)
    requires AllSettled(shelf, done) && GroupSettled(shelf, g)
    ensures AllSettled(shelf, done + [g])
  {
    forall k: nat ensures SettledAt(shelf, done + [g], k) {
      assert SettledAt(shelf, done, k);
    }
  }

  // Where the walk stands after the groups of `done`.
  ghost predicate WalkedOver(shelf: Shelf, done: seq<Group>) {
    Settled(shelf) == All(done) && AllSettled(shelf, done) && Only(shelf, Keys(done))
  }

  lemma KeysNext(a: seq<Group>, g: Group)
    ensures Keys(a + [g]) == Keys(a) + {g.Key()}
  {
    forall key ensures key in Keys(a + [g]) <==> key in Keys(a) + {g.Key()} {
      assert forall x :: x in a + [g] <==> x in a || x == g;
    }
  }

  lemma {:induction false} DistinctAt(groups: seq<Group>, i: nat, j: nat)
    requires DistinctKeys(groups) && i < j < |groups|
    ensures groups[i].Key() != groups[j].Key()
  {
    if i == 0 {
      assert groups[1..][j - 1] == groups[j] && groups[j] in groups[1..];
    } else {
      DistinctAt(groups[1..], i - 1, j - 1);
    }
  }

  lemma StepOnly(w: Room, shelf: Shelf, keys: set<Key>, g: Group, step: Step)
    requires Only(shelf, keys) && StepOwn(w, g, step)
    requires OwnsAll(g)
    ensures Only(Stepped(w, shelf, g, step), keys + {g.Key()})
  {
    StepMints(w, shelf, g, step);
    forall f | f in PooledFindings(Stepped(w, shelf, g, step).pooled) ensures f.Key() in keys + {g.Key()} {
      StepPools(w, shelf, g, step, f);
    }
  }

  lemma StepSettlesGroup(w: Room, shelf: Shelf, g: Group, step: Step)
    requires StepOwn(w, g, step) && !StepRaises(w, g, step)
    ensures GroupSettled(Stepped(w, shelf, g, step), g)
  {
    var after := Stepped(w, shelf, g, step);
    StepMints(w, shelf, g, step);
    if g.Key() !in after.minted {
      forall f | f in g.findings ensures f in PooledFindings(after.pooled) {
        StepPools(w, shelf, g, step, f);
        StandingHas(w, g.findings, true, f);
      }
    }
  }

  lemma StepWalks(w: Room, shelf: Shelf, done: seq<Group>, g: Group, step: Step)
    requires WalkedOver(shelf, done) && StepOwn(w, g, step) && !StepRaises(w, g, step)
    requires OwnsAll(g)
    ensures WalkedOver(Stepped(w, shelf, g, step), done + [g])
  {
    StepSettles(w, shelf, g, step);
    StepOnly(w, shelf, Keys(done), g, step);
    AllNext(done, g);
    KeysNext(done, g);
    AllSettledStays(w, shelf, done, g, step);
    StepSettlesGroup(w, shelf, g, step);
    AllSettledNext(Stepped(w, shelf, g, step), done, g);
  }

  lemma NothingWalked()
    ensures WalkedOver(Shelf([], [], map[]), [])
  {
  }

  ghost predicate OwnsAll(g: Group) {
    forall f :: f in g.findings ==> f.Key() == g.Key()
  }

  lemma {:induction false} OwnFindings(groups: seq<Group>, i: nat)
    requires WellGrouped(groups) && i < |groups|
    ensures OwnsAll(groups[i])
  {
    if i > 0 { OwnFindings(groups[1..], i - 1); }
  }

  // Where a walk stopped: the group at `at` raised in `step`, with the shelf as
  // the groups before it had left it.
  datatype Stop = Stop(at: nat, before: Shelf, step: Step)

  ghost predicate StoppedAt(w: Room, groups: seq<Group>, shelf: Shelf, s: Stop) {
    && s.at < |groups| && WalkedOver(s.before, groups[..s.at])
    && StepRaises(w, groups[s.at], s.step)
    && shelf == Stepped(w, s.before, groups[s.at], s.step)
  }

  function NotIn(findings: seq<Qualified>, already: seq<Qualified>): seq<Qualified> {
    if findings == [] then [] else
      var last := findings[|findings| - 1];
      NotIn(findings[..|findings| - 1], already) + (if last in already then [] else [last])
  }

  // What adding back files for these groups.
  ghost function Leftover(groups: seq<Group>, accepted: set<Key>, already: seq<Qualified>): multiset<Qualified> {
    Total(Leftovers(groups, accepted, already))
  }

  // What it files for each of them.
  ghost function Leftovers(groups: seq<Group>, accepted: set<Key>,
                           already: seq<Qualified>): (r: seq<multiset<Qualified>>)
    ensures |r| == |groups| && forall i :: 0 <= i < |r| ==> r[i] == LeftoverOf(groups[i], accepted, already)
  {
    seq(|groups|, i requires 0 <= i < |groups| => LeftoverOf(groups[i], accepted, already))
  }

  ghost function LeftoverOf(g: Group, accepted: set<Key>, already: seq<Qualified>): multiset<Qualified> {
    if g.Key() in accepted then multiset{} else multiset(NotIn(g.findings, already))
  }

  lemma {:induction false} NotInAny(findings: seq<Qualified>, already: seq<Qualified>)
    ensures (forall f :: f in findings ==> f in already) ==> NotIn(findings, already) == []
    ensures (forall f :: f in findings ==> f !in already) ==> NotIn(findings, already) == findings
  {
    if findings != [] {
      NotInAny(findings[..|findings| - 1], already);
      assert findings == findings[..|findings| - 1] + [findings[|findings| - 1]];
    }
  }

  lemma {:induction false} NotInStanding(w: Room, findings: seq<Qualified>, already: seq<Qualified>)
    requires forall f :: f in findings ==> (f in already <==> !w.survives(f).Survives?)
    ensures NotIn(findings, already) == Standing(w, findings, true)
  {
    if findings != [] {
      var init, last := findings[..|findings| - 1], findings[|findings| - 1];
      assert findings == init + [last];
      NotInStanding(w, init, already);
    }
  }

  // The groups before the raise have nothing left over.
  lemma SettledLeavesNone(shelf: Shelf, done: seq<Group>)
    requires AllSettled(shelf, done)
    ensures Leftover(done, shelf.minted.Keys, PooledFindings(shelf.pooled)) == multiset{}
  {
    var left := Leftovers(done, shelf.minted.Keys, PooledFindings(shelf.pooled));
    forall k | 0 <= k < |done| ensures left[k] == multiset{} {
      assert SettledAt(shelf, done, k);
      NotInAny(done[k].findings, PooledFindings(shelf.pooled));
    }
    NothingSums(left, |left|);
  }

  // The groups past it have everything left over.
  lemma UnreachedLeavesAll(shelf: Shelf, keys: set<Key>, rest: seq<Group>)
    requires Only(shelf, keys)
    requires forall g :: g in rest ==> OwnsAll(g) && g.Key() !in keys
    ensures Leftover(rest, shelf.minted.Keys, PooledFindings(shelf.pooled)) == All(rest)
  {
    var left := Leftovers(rest, shelf.minted.Keys, PooledFindings(shelf.pooled));
    forall k | 0 <= k < |rest| ensures left[k] == Held(rest)[k] {
      UnreachedLeavesIt(shelf, keys, rest[k]);
    }
    assert left == Held(rest);
  }

  lemma UnreachedLeavesIt(shelf: Shelf, keys: set<Key>, g: Group)
    requires Only(shelf, keys) && g.Key() !in keys
    requires OwnsAll(g)
    ensures LeftoverOf(g, shelf.minted.Keys, PooledFindings(shelf.pooled)) == multiset(g.findings)
  {
    NotInAny(g.findings, PooledFindings(shelf.pooled));
  }

  // The group that raised has left over exactly what its step left unsettled.
  lemma RaisedLeavesUnsettled(w: Room, before: Shelf, keys: set<Key>, g: Group, step: Step)
    requires Only(before, keys) && g.Key() !in keys && StepRaises(w, g, step)
    requires OwnsAll(g)
    ensures var after := Stepped(w, before, g, step);
      LeftoverOf(g, after.minted.Keys, PooledFindings(after.pooled)) == multiset(Unsettled(w, g, step))
  {
    var after := Stepped(w, before, g, step);
    forall f | f in g.findings ensures f in PooledFindings(after.pooled) <==> PoolsNow(w, g, step, f) {
      StepPools(w, before, g, step, f);
    }
    StepMints(w, before, g, step);
    if step.Unsliced? {
      NotInAny(g.findings, PooledFindings(after.pooled));
    } else {
      NotInStanding(w, g.findings, PooledFindings(after.pooled));
    }
  }

  lemma LeftoverAround(groups: seq<Group>, i: nat, accepted: set<Key>, already: seq<Qualified>)
    requires i < |groups|
    ensures Leftover(groups, accepted, already) == Leftover(groups[..i], accepted, already)
      + (LeftoverOf(groups[i], accepted, already) + Leftover(groups[i + 1..], accepted, already))
  {
    var left := Leftovers(groups, accepted, already);
    assert left[..i] == Leftovers(groups[..i], accepted, already);
    assert left[i + 1..] == Leftovers(groups[i + 1..], accepted, already);
    TotalAround(left, i);
  }

  // The groups on either side of one share no key with it, nor with each other.
  lemma GroupsAround(groups: seq<Group>, i: nat)
    requires DistinctKeys(groups) && WellGrouped(groups) && i < |groups|
    ensures groups[i].Key() !in Keys(groups[..i])
    ensures forall g :: g in groups[i + 1..] ==> OwnsAll(g) && g.Key() !in Keys(groups[..i]) + {groups[i].Key()}
  {
    forall j | 0 <= j < i ensures groups[j].Key() != groups[i].Key() { DistinctAt(groups, j, i); }
    forall k | i < k < |groups| ensures OwnsAll(groups[k]) { OwnFindings(groups, k); }
    forall k, j | i < k < |groups| && 0 <= j <= i ensures groups[k].Key() != groups[j].Key() {
      DistinctAt(groups, j, k);
    }
  }

  // What is left over of the whole order is the raising group's unsettled part
  // and everything past it.
  lemma LeftoverOfAll(w: Room, groups: seq<Group>, shelf: Shelf, s: Stop)
    requires DistinctKeys(groups) && WellGrouped(groups) && StoppedAt(w, groups, shelf, s)
    ensures Leftover(groups, shelf.minted.Keys, PooledFindings(shelf.pooled))
      == multiset{} + (multiset(Unsettled(w, groups[s.at], s.step)) + All(groups[s.at + 1..]))
  {
    var done, g, rest := groups[..s.at], groups[s.at], groups[s.at + 1..];
    LeftoverAround(groups, s.at, shelf.minted.Keys, PooledFindings(shelf.pooled));
    OwnFindings(groups, s.at);
    GroupsAround(groups, s.at);
    AllSettledStays(w, s.before, done, g, s.step);
    SettledLeavesNone(shelf, done);
    RaisedLeavesUnsettled(w, s.before, Keys(done), g, s.step);
    StepOnly(w, s.before, Keys(done), g, s.step);
    UnreachedLeavesAll(shelf, Keys(done) + {g.Key()}, rest);
  }

  lemma AllAround(groups: seq<Group>, i: nat)
    requires i < |groups|
    ensures All(groups) == All(groups[..i]) + (multiset(groups[i].findings) + All(groups[i + 1..]))
  {
    assert Held(groups)[..i] == Held(groups[..i]);
    assert Held(groups)[i + 1..] == Held(groups[i + 1..]);
    TotalAround(Held(groups), i);
  }

  lemma LeftoverIsRest(w: Room, groups: seq<Group>, final: Shelf, shelf: Shelf, s: Stop)
    requires DistinctKeys(groups) && WellGrouped(groups) && StoppedAt(w, groups, shelf, s)
    requires Settled(final) == Settled(shelf) + Leftover(groups, shelf.minted.Keys, PooledFindings(shelf.pooled))
    ensures Settled(final) == All(groups)
  {
    LeftoverOfAll(w, groups, shelf, s);
    AllAround(groups, s.at);
    StepLeaves(w, s.before, groups[s.at], s.step);
    MadeWhole(Settled(shelf), multiset(Unsettled(w, groups[s.at], s.step)), All(groups[s.at + 1..]),
              All(groups[..s.at]), multiset(groups[s.at].findings));
  }

  lemma MadeWhole(settled: multiset<Qualified>, unsettled: multiset<Qualified>, past: multiset<Qualified>,
                  before: multiset<Qualified>, own: multiset<Qualified>)
    requires settled + unsettled == before + own
    ensures settled + (multiset{} + (unsettled + past)) == before + (own + past)
  {
    Sums(settled, unsettled, past);
    Sums(before, own, past);
    assert multiset{} + (unsettled + past) == unsettled + past;
  }

  // ---------------------------------------------------------------------------
  // Sessions paid for and charged to nothing

  /** Whatever passes the judge at once and is then not minted: the session is
      counted as spent, and no task is charged with it. */
  method LosesASession(w: Room, cap: real, g: Group, book: Book) returns (writer: FollowUpWriter)
    requires Within(w) && book.Valid() && book.Complete() && w.mint(0).MintRaised?
    requires forall h, n :: w.origin(h, n).Some? ==> w.origin(h, n).value.task in book.attached
    requires PassesWhole(w, g, cap, Tally(0.0, false, 0, 0, 0), book.tasks)
    ensures writer.tally.spent == CostOf(w.write(0))
    ensures writer.book.Written() == book.Written() && writer.book.Total() == book.Total()
  {
    writer := new FollowUpWriter(w, cap, book);
    writer.IsFit(book);
    var raised;
    ghost var step;
    raised, step := writer.WriteGroup(g, book);
    writer.Fits(book);
  }

  /** Such a room: four dollars are spent on a follow-up, and none is charged. */
  method LosesFourDollars() returns (spent: real, ghost charged: real)
    ensures spent == 4.0 && charged == 0.0
  {
    var found := Qualified("layer", Finding("spec", CONCERN, "a.py", 1, "claim", true, None, None), QUALIFIED);
    var spec := Spec("SA-0002", "bug", [], 1.0, ["a.py"], []);
    var origin := Origin(1, spec, "SA-0002");
    var w := Room(_ => Wrote(Reply(4.0, false, false, "draft")), _ => Judged(false), _ => MintRaised, _ => Survives,
                  (_, _) => Some(origin), _ => Some(spec), ["tests/test_a.py"]);
    var book := EMPTY_BOOK.Mint().Attach(1);
    var writer := LosesASession(w, 18.5, Group("layer", "a.py", [found]), book);
    spent, charged := writer.tally.spent, writer.book.Total() - book.Total();
  }

  /** Sessions that raise are counted as nothing, so a cap that covers one session
      has every group written for: whatever they came to cost, and no multiple of the
      cap bounds it, none of it is charged. */
  method PaysPastCap(w: Room, cap: real, groups: seq<Group>, book: Book) returns (writer: FollowUpWriter)
    requires Within(w) && book.Valid() && book.Complete() && DistinctKeys(groups) && WellGrouped(groups)
    requires forall h, n :: w.origin(h, n).Some? ==> w.origin(h, n).value.task in book.attached
    requires AllRaise(w, groups, cap, Tally(0.0, false, 0, 0, 0), book.tasks)
    ensures writer.w == w && writer.cap == cap && writer.tally.writes == |groups|
    ensures writer.book.Written() == book.Written() && writer.book.Total() == book.Total()
  {
    writer := new FollowUpWriter(w, cap, book);
    var candidates, raised := writer.StackFollowUps(groups);
    PaidIsCounted(w, |groups|);
    NothingSpent(w, groups, cap, book.tasks, |groups|);
  }

  lemma {:induction false} NothingSpent(w: Room, groups: seq<Group>, cap: real, tasks: nat, n: nat)
    requires AllRaise(w, groups, cap, Tally(0.0, false, 0, 0, 0), tasks)
    ensures SpentTo(w, n) == 0.0
  {
    if n > 0 {
      NothingSpent(w, groups, cap, tasks, n - 1);
      assert RaiseAt(w, groups, cap, Tally(0.0, false, 0, 0, 0), tasks, n - 1);
    }
  }

  /** Two groups whose sessions each raise at fifteen dollars: thirty are spent under
      a cap of eighteen and a half, none is charged, and no mint raised. */
  method PaysThirty() returns (writer: FollowUpWriter, ghost spent: real, ghost charged: real)
    ensures writer.cap == 18.5 && spent == PaidTo(writer.w, writer.tally.writes) == 30.0 && charged == 0.0
    ensures forall n :: writer.w.mint(n).Minted?
  {
    var a := Qualified("layer", Finding("spec", CONCERN, "a.py", 1, "claim", true, None, None), QUALIFIED);
    var b := Qualified("layer", Finding("spec", CONCERN, "b.py", 1, "claim", true, None, None), QUALIFIED);
    var groups := [Group("layer", "a.py", [a]), Group("layer", "b.py", [b])];
    var origin := Origin(1, Spec("SA-0001", "bug", [], 1.0, ["a.py"], []), "SA-0002");
    var w := Room(_ => WriteRaised(15.0), _ => Judged(false), _ => Minted, _ => Survives, (_, _) => Some(origin),
                  _ => None, ["tests/test_a.py"]);
    var book := EMPTY_BOOK.Mint().Attach(1);
    assert Within(w) by { forall n ensures WithinAt(w, n) { } }
    assert groups[1..] == [groups[1]] && groups[1..][1..] == [];
    writer := PaysPastCap(w, 18.5, groups, book);
    assert PaidTo(w, 2) == PaidTo(w, 1) + 15.0 && PaidTo(w, 1) == PaidTo(w, 0) + 15.0;
    spent, charged := PaidTo(w, 2), writer.book.Total() - book.Total();
  }
}
