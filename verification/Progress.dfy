/** How far a stack batch is through its fixed order: what `remaining`, `missed`
    and the recorded layers of saffron/batch.py say together, and the laws every
    step of the driver keeps. */
module StackProgress {
  import opened Wrappers
  import opened Graph
  import opened Scheduler

  // `done` specs of the order are resolved. Each is a recorded layer, a miss, or
  // skipped: left in `remaining` and in the driver's started set at once, which
  // happens only when asking after the stack base itself raises. `own` holds the
  // misses of their own making, the others being refused unstarted.
  datatype Progress = Progress(
    done: nat,
    layered: set<SpecId>,
    own: set<SpecId>,
    missed: map<SpecId, set<SpecId>>,
    skipped: seq<Candidate>,
    everSkipped: bool
  )

  const FRESH := Progress(0, {}, {}, map[], [], false)

  // The misses a spec's dependencies reach (`blocking`).
  function Blocking(deps: seq<SpecId>, missed: map<SpecId, set<SpecId>>): (found: set<SpecId>)
    ensures forall m :: m in found <==> exists d :: d in deps && d in missed && m in missed[d]
  {
    if deps == [] then {} else
      (if deps[0] in missed then missed[deps[0]] else {}) + Blocking(deps[1..], missed)
  }

  // The `depends_on` edges inside the order: entries naming an earlier spec of it.
  function Inner(order: seq<Candidate>): Edges {
    if order == [] then map[] else
      var last := order[|order| - 1];
      Inner(order[..|order| - 1])[last.id := Within(last.dependsOn, Ids(order[..|order| - 1]))]
  }

  lemma {:induction false} InnerKeys(order: seq<Candidate>)
    ensures Inner(order).Keys == Ids(order)
  {
    if order != [] {
      InnerKeys(order[..|order| - 1]);
      IdsAppend(order[..|order| - 1], order[|order| - 1]);
      assert order == order[..|order| - 1] + [order[|order| - 1]];
    }
  }

  lemma {:induction false} InnerAt(order: seq<Candidate>, i: nat)
    requires i < |order| && DistinctIds(order)
    ensures Succ(Inner(order), order[i].id) == Within(order[i].dependsOn, Ids(order[..i]))
  {
    if i < |order| - 1 {
      var init := order[..|order| - 1];
      InnerAt(init, i);
      IdsHolds(init, i);
      assert init[..i] == order[..i];
    }
  }

  lemma {:induction false} PrefixIds(order: seq<Candidate>, i: nat, j: nat)
    requires i <= j <= |order|
    ensures Ids(order[..i]) <= Ids(order[..j])
  {
    if i < j {
      PrefixIds(order, i, j - 1);
      assert order[..j] == order[..j - 1] + [order[j - 1]];
      IdsAppend(order[..j - 1], order[j - 1]);
    }
  }

  // Walks inside the order only ever go back towards its start.
  lemma ReachesBack(order: seq<Candidate>, i: nat, m: SpecId)
    requires i < |order| && DistinctIds(order) && Reaches(Inner(order), order[i].id, m)
    ensures m in Ids(order[..i])
    decreases i
  {
    var b := ReachesFirst(Inner(order), order[i].id, m);
    InnerAt(order, i);
    if b != m {
      var j := IdsIndex(order[..i], b);
      assert order[..i][j] == order[j];
      ReachesBack(order, j, m);
      PrefixIds(order, j, i);
    }
  }

  // The names a missed spec reports: itself, or the misses it reaches.
  ghost function Blamed(order: seq<Candidate>, own: set<SpecId>, x: SpecId): set<SpecId> {
    if x in own then {x} else set m | m in own && Reaches(Inner(order), x, m)
  }

  ghost predicate ExactAt(order: seq<Candidate>, p: Progress, x: SpecId) {
    x in p.missed ==> p.missed[x] == Blamed(order, p.own, x) && p.missed[x] != {}
  }

  ghost predicate ClearAt(order: seq<Candidate>, p: Progress, x: SpecId, m: SpecId) {
    x in p.layered + p.own && m in p.own ==> !Reaches(Inner(order), x, m)
  }

  // Every miss reports what it reaches, and nothing run or tried reaches a miss.
  ghost predicate Exact(order: seq<Candidate>, p: Progress) {
    (forall x :: ExactAt(order, p, x)) && (forall x, m :: ClearAt(order, p, x, m))
  }

  // Each resolved spec is a layer, a miss or skipped, and one of them only; a
  // miss names some spec.
  ghost predicate PlacedAt(order: seq<Candidate>, p: Progress, x: SpecId)
    requires p.done <= |order|
  {
    && (x in Ids(order[..p.done]) <==> x in p.layered || x in p.missed || x in Ids(p.skipped))
    && !(x in p.layered && x in p.missed) && !(x in p.layered && x in Ids(p.skipped))
    && !(x in p.missed && x in Ids(p.skipped))
    && (x in p.own ==> x in p.missed) && (x in p.missed ==> p.missed[x] != {})
  }

  // Layers, misses and skipped specs partition what is resolved, and until a
  // spec is skipped the `missed` map is exact.
  ghost predicate Consistent(order: seq<Candidate>, p: Progress) {
    && p.done <= |order|
    && (forall x :: PlacedAt(order, p, x))
    && (p.skipped != [] ==> p.everSkipped)
    && (!p.everSkipped ==> Exact(order, p))
  }

  /** Layers, misses and skipped specs partition the specs resolved so far. */
  lemma ConsistentPartitions(order: seq<Candidate>, p: Progress)
    requires Consistent(order, p)
    ensures p.layered !! p.missed.Keys !! Ids(p.skipped) && p.own <= p.missed.Keys
    ensures p.layered + p.missed.Keys + Ids(p.skipped) == Ids(order[..p.done])
  {
    forall x
      ensures x in p.layered + p.missed.Keys + Ids(p.skipped) <==> x in Ids(order[..p.done])
      ensures !(x in p.layered * p.missed.Keys) && !(x in (p.layered + p.missed.Keys) * Ids(p.skipped))
      ensures x in p.own ==> x in p.missed.Keys
    {
      assert PlacedAt(order, p, x);
    }
  }

  lemma FreshIsConsistent(order: seq<Candidate>)
    ensures Consistent(order, FRESH)
  {
  }

  lemma NextIsNew(order: seq<Candidate>, done: nat)
    requires DistinctIds(order) && done < |order|
    ensures order[done].id !in Ids(order[..done])
    ensures Ids(order[..done + 1]) == Ids(order[..done]) + {order[done].id}
  {
    OrderAt(order, {}, done);
  }

  // A later miss is reached by nothing resolved before it.
  lemma LaterIsUnreached(order: seq<Candidate>, done: nat, x: SpecId)
    requires DistinctIds(order) && done < |order| && x in Ids(order[..done + 1])
    ensures !Reaches(Inner(order), x, order[done].id)
  {
    if Reaches(Inner(order), x, order[done].id) {
      var i := IdsIndex(order[..done + 1], x);
      ReachesBack(order, i, order[done].id);
      PrefixIds(order, i, done);
      OrderAt(order, {}, done);
    }
  }

  // What a blocked spec reports is exactly the misses it reaches.
  lemma BlockingIsBlamed(order: seq<Candidate>, p: Progress)
    requires DistinctIds(order) && Consistent(order, p) && !p.everSkipped && p.done < |order|
    ensures Blocking(order[p.done].dependsOn, p.missed) == Blamed(order, p.own, order[p.done].id)
  {
    var x := order[p.done];
    InnerAt(order, p.done);
    NextIsNew(order, p.done);
    assert PlacedAt(order, p, x.id);
    forall m ensures m in Blocking(x.dependsOn, p.missed) <==> m in Blamed(order, p.own, x.id) {
      if m in Blocking(x.dependsOn, p.missed) {
        var d :| d in x.dependsOn && d in p.missed && m in p.missed[d];
        BlamedThroughEdge(order, p, d, m);
      } else if m in Blamed(order, p.own, x.id) {
        EdgeToBlamed(order, p, m);
      }
    }
  }

  lemma BlamedThroughEdge(order: seq<Candidate>, p: Progress, d: SpecId, m: SpecId)
    requires DistinctIds(order) && Consistent(order, p) && !p.everSkipped && p.done < |order|
    requires d in order[p.done].dependsOn && d in p.missed && m in p.missed[d]
    ensures m in p.own && Reaches(Inner(order), order[p.done].id, m)
  {
    var x := order[p.done];
    InnerAt(order, p.done);
    assert ExactAt(order, p, d) && PlacedAt(order, p, d);
    if d == m { EdgeReaches(Inner(order), x.id, d); } else { ReachesPrepend(Inner(order), x.id, d, m); }
  }

  lemma EdgeToBlamed(order: seq<Candidate>, p: Progress, m: SpecId)
    requires DistinctIds(order) && Consistent(order, p) && !p.everSkipped && p.done < |order|
    requires m in p.own && Reaches(Inner(order), order[p.done].id, m)
    ensures m in Blocking(order[p.done].dependsOn, p.missed)
  {
    InnerAt(order, p.done);
    var d := ReachesFirst(Inner(order), order[p.done].id, m);
    assert ExactAt(order, p, d) && ClearAt(order, p, d, m) && ExactAt(order, p, m);
    assert PlacedAt(order, p, d) && PlacedAt(order, p, m);
  }

  // With nothing skipped, a spec none of whose dependencies missed reaches no miss.
  lemma UnblockedReachesNone(order: seq<Candidate>, p: Progress, m: SpecId)
    requires DistinctIds(order) && Consistent(order, p) && !p.everSkipped && p.done < |order|
    requires Blocking(order[p.done].dependsOn, p.missed) == {}
    requires m in p.own
    ensures !Reaches(Inner(order), order[p.done].id, m)
  {
    if Reaches(Inner(order), order[p.done].id, m) {
      EdgeToBlamed(order, p, m);
    }
  }

  // What one spec of the order coming to its end makes of the progress: refused
  // unstarted, missed on its own account, made a layer, or skipped.
  function AsRefused(p: Progress, c: Candidate): Progress {
    p.(done := p.done + 1, missed := p.missed[c.id := Blocking(c.dependsOn, p.missed)])
  }

  function AsMissed(p: Progress, c: Candidate): Progress {
    p.(done := p.done + 1, own := p.own + {c.id}, missed := p.missed[c.id := {c.id}])
  }

  function AsLayered(p: Progress, c: Candidate): Progress {
    p.(done := p.done + 1, layered := p.layered + {c.id})
  }

  function AsSkipped(p: Progress, c: Candidate): Progress {
    p.(done := p.done + 1, skipped := p.skipped + [c], everSkipped := true)
  }

  // The new spec takes its one place, and no other spec's place changes.
  lemma NextIsPlaced(order: seq<Candidate>, p: Progress, q: Progress)
    requires DistinctIds(order) && Consistent(order, p) && p.done < |order|
    requires var x := order[p.done];
      || (q == AsRefused(p, x) && Blocking(x.dependsOn, p.missed) != {})
      || q in {AsMissed(p, x), AsLayered(p, x), AsSkipped(p, x)}
    ensures forall y :: PlacedAt(order, q, y)
  {
    NextIsNew(order, p.done);
    IdsAppend(p.skipped, order[p.done]);
    assert PlacedAt(order, p, order[p.done].id);
    forall y ensures PlacedAt(order, q, y) { assert PlacedAt(order, p, y); }
  }

  /** A blocked spec is refused unstarted, naming the misses it reaches. */
  lemma BlockStep(order: seq<Candidate>, p: Progress) returns (q: Progress)
    requires DistinctIds(order) && Consistent(order, p) && p.skipped == [] && p.done < |order|
    requires Blocking(order[p.done].dependsOn, p.missed) != {}
    ensures q == AsRefused(p, order[p.done]) && Consistent(order, q)
  {
    var x := order[p.done];
    q := AsRefused(p, x);
    NextIsPlaced(order, p, q);
    if !p.everSkipped {
      BlockingIsBlamed(order, p);
      NextIsNew(order, p.done);
      assert PlacedAt(order, p, x.id);
      forall y ensures ExactAt(order, q, y) { assert ExactAt(order, p, y); }
      forall y, m ensures ClearAt(order, q, y, m) { assert ClearAt(order, p, y, m); }
    }
  }

  lemma IdsTail(cs: seq<Candidate>)
    requires cs != [] && DistinctIds(cs)
    ensures Ids(cs) == {cs[0].id} + Ids(cs[1..]) && cs[0].id !in Ids(cs[1..]) && DistinctIds(cs[1..])
  {
    assert cs == [cs[0]] + cs[1..];
    assert Ids([cs[0]]) == {cs[0].id} by { IdsAppend([], cs[0]); assert [] + [cs[0]] == [cs[0]]; }
    IdsConcat([cs[0]], cs[1..]);
    DistinctConcat([cs[0]], cs[1..]);
  }

  // A skipped spec still at the head can itself be refused later.
  lemma BlockSkippedStep(order: seq<Candidate>, p: Progress) returns (q: Progress)
    requires Consistent(order, p) && p.skipped != [] && DistinctIds(p.skipped)
    requires Blocking(p.skipped[0].dependsOn, p.missed) != {}
    ensures q == p.(skipped := p.skipped[1..],
                    missed := p.missed[p.skipped[0].id := Blocking(p.skipped[0].dependsOn, p.missed)])
    ensures Consistent(order, q) && DistinctIds(q.skipped) && Ids(q.skipped) <= Ids(p.skipped)
  {
    var x := p.skipped[0];
    q := p.(skipped := p.skipped[1..], missed := p.missed[x.id := Blocking(x.dependsOn, p.missed)]);
    IdsTail(p.skipped);
    forall y ensures PlacedAt(order, q, y) { assert PlacedAt(order, p, y); }
  }

  function Unresolved(order: seq<Candidate>, p: Progress): seq<Candidate>
    requires p.done <= |order|
  {
    p.skipped + order[p.done..]
  }

  // ---------------------------------------------------------------------------
  // Roots, and what a stuck head leaves unrefused

  // A spec that depends on nothing before it in the order is never refused
  // unstarted where it stands.
  ghost predicate Root(order: seq<Candidate>, i: nat) {
    i < |order| && forall d :: d in order[i].dependsOn ==> d !in Ids(order[..i])
  }

  // A budget that fits in `funds`, what the order may spend at most.
  ghost predicate PaidAt(order: seq<Candidate>, funds: real, i: nat) {
    i < |order| ==> order[i].budget <= funds
  }

  ghost predicate RootPaidAt(order: seq<Candidate>, funds: real, done: nat, i: nat) {
    i < done && Root(order, i) ==> PaidAt(order, funds, i)
  }

  ghost predicate PaidBetween(order: seq<Candidate>, funds: real, from: nat, to: nat, i: nat) {
    from <= i < to ==> PaidAt(order, funds, i)
  }

  // Since the `q`-th spec was skipped every spec after it was paid for.
  ghost predicate StuckSince(order: seq<Candidate>, funds: real, done: nat, q: nat) {
    && q < done && Root(order, q) && (forall i :: RootPaidAt(order, funds, q, i))
    && forall i :: PaidBetween(order, funds, q, done, i)
  }

  // What was priced: every root, and while a skipped spec heads what is
  // unresolved, everything behind it.
  ghost predicate Tracked(order: seq<Candidate>, funds: real, p: Progress) {
    && (forall i :: RootPaidAt(order, funds, p.done, i))
    && (p.skipped != [] ==> exists q :: StuckSince(order, funds, p.done, q))
  }

  lemma FreshIsTracked(order: seq<Candidate>, funds: real)
    ensures Tracked(order, funds, FRESH)
  {
  }

  // A refused spec depends on an earlier one.
  lemma RefusedIsNoRoot(order: seq<Candidate>, p: Progress)
    requires Consistent(order, p) && p.done < |order| && Blocking(order[p.done].dependsOn, p.missed) != {}
    ensures !Root(order, p.done)
  {
    var m :| m in Blocking(order[p.done].dependsOn, p.missed);
    var d :| d in order[p.done].dependsOn && d in p.missed && m in p.missed[d];
    assert PlacedAt(order, p, d);
  }

  // With nothing layered or skipped, an unblocked spec is a root.
  lemma UnblockedIsRoot(order: seq<Candidate>, p: Progress)
    requires Consistent(order, p) && p.done < |order| && Blocking(order[p.done].dependsOn, p.missed) == {}
    requires p.layered == {} && p.skipped == []
    ensures Root(order, p.done)
  {
    forall d | d in order[p.done].dependsOn ensures d !in Ids(order[..p.done]) {
      assert PlacedAt(order, p, d);
      if d in p.missed { NamesAMiss(order[p.done].dependsOn, p.missed, d); }
    }
  }

  lemma NamesAMiss(deps: seq<SpecId>, missed: map<SpecId, set<SpecId>>, d: SpecId)
    requires d in deps && d in missed && missed[d] != {}
    ensures Blocking(deps, missed) != {}
  {
    var m :| m in missed[d];
    assert m in Blocking(deps, missed);
  }

  // One more spec, paid for or no root.
  lemma TrackedNext(order: seq<Candidate>, funds: real, p: Progress, q: Progress)
    requires Tracked(order, funds, p) && p.done < |order| && q.done == p.done + 1
    requires !Root(order, p.done) || PaidAt(order, funds, p.done)
    requires p.skipped != [] && q.skipped != [] ==> PaidAt(order, funds, p.done)
    requires p.skipped == [] && q.skipped != [] ==> Root(order, p.done) && PaidAt(order, funds, p.done)
    ensures Tracked(order, funds, q)
  {
    forall i ensures RootPaidAt(order, funds, q.done, i) { assert RootPaidAt(order, funds, p.done, i); }
    if q.skipped != [] {
      var since: nat;
      if p.skipped != [] {
        since :| StuckSince(order, funds, p.done, since);
      } else {
        since := p.done;
      }
      forall i ensures PaidBetween(order, funds, since, q.done, i) {
        assert p.skipped != [] ==> PaidBetween(order, funds, since, p.done, i);
      }
      assert StuckSince(order, funds, q.done, since);
    }
  }

  // Between the two, specs were refused unstarted and nothing else happened.
  ghost predicate OnlyRefused(order: seq<Candidate>, p: Progress, q: Progress) {
    && p.done <= q.done && q.layered == p.layered && q.own == p.own && q.everSkipped == p.everSkipped
    && Ids(q.skipped) <= Ids(p.skipped) && (p.skipped == [] ==> q.skipped == [])
    && forall i :: RefusedAt(order, p, q, i)
  }

  ghost predicate RefusedAt(order: seq<Candidate>, p: Progress, q: Progress, i: nat) {
    p.done <= i < q.done ==> !Root(order, i)
  }

  lemma RefusedMore(order: seq<Candidate>, p: Progress, q: Progress, r: Progress)
    requires OnlyRefused(order, p, q) && OnlyRefused(order, q, r)
    ensures OnlyRefused(order, p, r)
  {
    forall i ensures RefusedAt(order, p, r, i) { assert RefusedAt(order, p, q, i) && RefusedAt(order, q, r, i); }
  }

  // The head of what is unresolved, refused.
  function HeadRefused(order: seq<Candidate>, p: Progress): Progress
    requires p.done <= |order| && Unresolved(order, p) != []
  {
    if p.skipped == [] then AsRefused(p, order[p.done])
    else p.(skipped := p.skipped[1..],
            missed := p.missed[p.skipped[0].id := Blocking(p.skipped[0].dependsOn, p.missed)])
  }

  lemma HeadOf(order: seq<Candidate>, p: Progress)
    requires p.done <= |order| && Unresolved(order, p) != []
    ensures Unresolved(order, p)[0] == (if p.skipped == [] then order[p.done] else p.skipped[0])
    ensures Unresolved(order, HeadRefused(order, p)) == Unresolved(order, p)[1..]
    ensures p.skipped == [] ==> p.done < |order|
  {
    if p.skipped == [] {
      assert Unresolved(order, p) == order[p.done..];
    } else {
      assert Unresolved(order, p)[1..] == p.skipped[1..] + order[p.done..];
    }
  }

  /** Refusing a blocked head of what is unresolved, skipped or not. */
  lemma BlockHead(order: seq<Candidate>, funds: real, p: Progress) returns (q: Progress)
    requires DistinctIds(order) && Consistent(order, p) && DistinctIds(p.skipped) && Tracked(order, funds, p)
    requires Unresolved(order, p) != []
    requires Blocking(Unresolved(order, p)[0].dependsOn, p.missed) != {}
    ensures q == HeadRefused(order, p)
    ensures Consistent(order, q) && DistinctIds(q.skipped) && Tracked(order, funds, q)
    ensures OnlyRefused(order, p, q)
  {
    HeadOf(order, p);
    if p.skipped == [] {
      RefusedIsNoRoot(order, p);
      q := BlockStep(order, p);
      TrackedNext(order, funds, p, q);
    } else {
      q := BlockSkippedStep(order, p);
    }
  }

  /** A spec that missed on its own account. */
  lemma MissStep(order: seq<Candidate>, p: Progress) returns (q: Progress)
    requires DistinctIds(order) && Consistent(order, p) && p.done < |order|
    requires p.skipped == [] ==> Blocking(order[p.done].dependsOn, p.missed) == {}
    ensures q == AsMissed(p, order[p.done]) && Consistent(order, q)
  {
    var x := order[p.done].id;
    q := AsMissed(p, order[p.done]);
    NextIsPlaced(order, p, q);
    if !p.everSkipped {
      NextIsNew(order, p.done);
      assert PlacedAt(order, p, x);
      forall y ensures ExactAt(order, q, y) {
        assert ExactAt(order, p, y) && PlacedAt(order, p, y);
        if y in p.missed { LaterIsUnreached(order, p.done, y); }
      }
      forall y, m ensures ClearAt(order, q, y, m) { ClearAfterMiss(order, p, y, m); }
    }
  }

  lemma ClearAfterMiss(order: seq<Candidate>, p: Progress, y: SpecId, m: SpecId)
    requires DistinctIds(order) && Consistent(order, p) && p.done < |order| && !p.everSkipped
    requires Blocking(order[p.done].dependsOn, p.missed) == {}
    ensures ClearAt(order, AsMissed(p, order[p.done]), y, m)
  {
    var x := order[p.done].id;
    assert ClearAt(order, p, y, m) && PlacedAt(order, p, y);
    if y in p.layered + p.own + {x} && m in p.own + {x} {
      NextIsNew(order, p.done);
      if m == x { LaterIsUnreached(order, p.done, y); } else if y == x { UnblockedReachesNone(order, p, m); }
    }
  }

  /** A spec that became a layer. */
  lemma LayerStep(order: seq<Candidate>, p: Progress) returns (q: Progress)
    requires DistinctIds(order) && Consistent(order, p) && p.done < |order|
    requires p.skipped == [] ==> Blocking(order[p.done].dependsOn, p.missed) == {}
    ensures q == AsLayered(p, order[p.done]) && Consistent(order, q)
  {
    var x := order[p.done].id;
    q := AsLayered(p, order[p.done]);
    NextIsPlaced(order, p, q);
    if !p.everSkipped {
      forall y ensures ExactAt(order, q, y) { assert ExactAt(order, p, y); }
      forall y, m ensures ClearAt(order, q, y, m) {
        assert ClearAt(order, p, y, m);
        if y == x && m in p.own { UnblockedReachesNone(order, p, m); }
      }
    }
  }

  // A spec whose question about the stack base raised: neither resolved nor
  // ever offered again.
  lemma SkipStep(order: seq<Candidate>, p: Progress) returns (q: Progress)
    requires DistinctIds(order) && Consistent(order, p) && p.done < |order|
    ensures q == AsSkipped(p, order[p.done]) && Consistent(order, q)
  {
    q := AsSkipped(p, order[p.done]);
    NextIsPlaced(order, p, q);
  }

  // ---------------------------------------------------------------------------
  // Soundness

  // Whether a dependency is a layer, or needs no place in the order.
  ghost predicate Sound(c: Candidate, satisfied: set<SpecId>, layered: set<SpecId>) {
    forall d :: d in c.dependsOn ==> d in satisfied || d in layered
  }

  // What lets the `j`-th spec run without its parent: a root `p` before it that
  // can be paid for, and with it every spec up to `j`, one of whose dependencies
  // nothing but the order can carry. Roots before `p` can be paid for as well.
  ghost predicate Stranding(order: seq<Candidate>, satisfied: set<SpecId>, funds: real, p: nat, j: nat) {
    && p < j < |order| && StuckSince(order, funds, j, p) && PaidAt(order, funds, j)
    && exists d :: d in order[j].dependsOn && d !in satisfied
  }

  /** The next spec of an order may stand on what is recorded, unless it is such
      a spec behind a skipped one. */
  lemma SoundOrStranding(order: seq<Candidate>, satisfied: set<SpecId>, funds: real, p: Progress)
    requires DistinctIds(order) && DependencyOrdered(order, satisfied)
    requires Consistent(order, p) && Tracked(order, funds, p) && p.done < |order| && PaidAt(order, funds, p.done)
    requires Blocking(Unresolved(order, p)[0].dependsOn, p.missed) == {}
    ensures || Sound(order[p.done], satisfied, p.layered)
            || (p.skipped != [] && exists q :: Stranding(order, satisfied, funds, q, p.done))
  {
    var x := order[p.done];
    OrderAt(order, satisfied, p.done);
    HeadOf(order, p);
    if p.skipped == [] {
      forall d | d in x.dependsOn && d !in satisfied ensures d in p.layered {
        assert PlacedAt(order, p, d);
        if d in p.missed { NamesAMiss(x.dependsOn, p.missed, d); }
      }
    } else if !Sound(x, satisfied, p.layered) {
      var q :| StuckSince(order, funds, p.done, q);
      assert Stranding(order, satisfied, funds, q, p.done);
    }
  }
}
