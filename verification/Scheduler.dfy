/** The stack planner of saffron/scheduler.py: one fixed order over the queue's
    candidates, and the one open parent it may be cut from. */
module Scheduler {
  import opened Wrappers
  import opened Graph

  // An open pull request outside the order that the order may be cut from, and
  // every spec its own `depends_on` chain reaches: its branch carries their work.
  datatype StackBase = StackBase(specId: SpecId, task: nat, branch: string, chain: set<SpecId>)

  datatype Candidate = Candidate(
    id: SpecId,
    priority: int,
    dependsOn: seq<SpecId>,
    budget: real,
    task: Option<nat>,
    stackBase: Option<StackBase>
  )

  // ---------------------------------------------------------------------------
  // The deepest open parent

  // The other parents a candidate's own chain reaches.
  ghost function ReachIn(edges: Edges, parents: set<SpecId>, c: SpecId): set<SpecId> {
    set x | x in parents && x != c && Reaches(edges, c, x)
  }

  // `a` wins over `b`: a longer reach, or the lower id on a tie.
  ghost predicate Deeper(edges: Edges, parents: set<SpecId>, a: SpecId, b: SpecId) {
    || |ReachIn(edges, parents, a)| > |ReachIn(edges, parents, b)|
    || (|ReachIn(edges, parents, a)| == |ReachIn(edges, parents, b)| && IdLe(a, b))
  }

  ghost predicate Deepest(edges: Edges, parents: set<SpecId>, among: set<SpecId>, chosen: SpecId) {
    chosen in among && forall c :: c in among ==> Deeper(edges, parents, chosen, c)
  }

  // Read in id order, a later candidate wins only on a strictly longer reach.
  lemma DeepestExtends(edges: Edges, parents: set<SpecId>, seen: set<SpecId>, chosen: SpecId, next: SpecId)
    requires Deepest(edges, parents, seen, chosen)
    requires forall c :: c in seen ==> IdLe(c, next)
    ensures Deepest(edges, parents, seen + {next},
      if |ReachIn(edges, parents, next)| > |ReachIn(edges, parents, chosen)| then next else chosen)
  {
    IdLeTotal(next, next);
  }

  /** Among `candidates`, the one whose chain reaches the most of `parents`,
      and every parent that chain never reaches. */
  method DeepestOpenParent(parents: set<SpecId>, candidates: set<SpecId>, edges: Edges)
    returns (chosen: Option<SpecId>, offChain: set<SpecId>)
    ensures candidates == {} ==> chosen.None? && offChain == parents
    ensures candidates != {} ==>
      && chosen.Some? && Deepest(edges, parents, candidates, chosen.value)
      && offChain == parents - {chosen.value} - ReachIn(edges, parents, chosen.value)
  {
    if candidates == {} {
      return None, parents;
    }
    chosen := None;
    var chosenReach: set<SpecId> := {};
    ghost var seen := {};
    var rest := candidates;
    while rest != {}
      invariant seen + rest == candidates && seen !! rest
      invariant chosen.None? <==> seen == {}
      invariant chosen.Some? ==>
        Deepest(edges, parents, seen, chosen.value) && chosenReach == ReachIn(edges, parents, chosen.value)
      invariant forall c, d :: c in seen && d in rest ==> IdLe(c, d)
      decreases rest
    {
      var candidate, reach := NextReach(rest, parents, edges);
      if chosen.Some? {
        DeepestExtends(edges, parents, seen, chosen.value, candidate);
      } else {
        IdLeTotal(candidate, candidate);
      }
      if chosen.None? || |reach| > |chosenReach| {
        chosen, chosenReach := Some(candidate), reach;
      }
      seen, rest := seen + {candidate}, rest - {candidate};
    }
    assert seen == candidates;
    offChain := parents - {chosen.value} - chosenReach;
  }

  // The lowest id left, and the other parents its chain reaches.
  method NextReach(rest: set<SpecId>, parents: set<SpecId>, edges: Edges) returns (next: SpecId, reach: set<SpecId>)
    requires rest != {}
    ensures next in rest && forall y :: y in rest ==> IdLe(next, y)
    ensures reach == ReachIn(edges, parents, next)
  {
    LeastExists(rest);
    next :| next in rest && forall y :: y in rest ==> IdLe(next, y);
    var chain := Reachable(next, edges);
    reach := (chain * parents) - {next};
  }

  lemma ReachInIsFull(edges: Edges, parents: set<SpecId>, c: SpecId)
    requires c in parents
    ensures |ReachIn(edges, parents, c)| <= |parents| - 1
    ensures |ReachIn(edges, parents, c)| == |parents| - 1 <==>
      forall x :: x in parents && x != c ==> Reaches(edges, c, x)
  {
    var others := parents - {c};
    var reach := ReachIn(edges, parents, c);
    assert reach <= others && |others| == |parents| - 1;
    SubsetSize(reach, others);
    if reach == others {
      forall x | x in parents && x != c ensures Reaches(edges, c, x) { assert x in reach; }
    } else {
      var x :| x in others && x !in reach;
    }
  }

  lemma SubsetSize<T>(a: set<T>, b: set<T>)
    requires a <= b
    ensures |a| <= |b|
    ensures |a| == |b| ==> a == b
  {
    assert b == a + (b - a);
    assert |b| == |a| + |b - a|;
  }

  /** Nothing is off chain exactly when some candidate's chain reaches every
      other parent, and then the winner is the lowest id whose chain does. */
  lemma OffChainEmptyIffOneChain(edges: Edges, parents: set<SpecId>, candidates: set<SpecId>, chosen: SpecId)
    requires candidates <= parents && Deepest(edges, parents, candidates, chosen)
    ensures parents - {chosen} - ReachIn(edges, parents, chosen) == {}
      <==> exists c :: c in candidates && forall x :: x in parents && x != c ==> Reaches(edges, c, x)
    ensures parents - {chosen} - ReachIn(edges, parents, chosen) == {}
      ==> forall c :: c in candidates && (forall x :: x in parents && x != c ==> Reaches(edges, c, x)) ==>
        IdLe(chosen, c)
  {
    forall c | c in candidates
      ensures |ReachIn(edges, parents, c)| <= |parents| - 1
      ensures |ReachIn(edges, parents, c)| == |parents| - 1 <==>
        forall x :: x in parents && x != c ==> Reaches(edges, c, x)
    {
      ReachInIsFull(edges, parents, c);
    }
    var off := parents - {chosen} - ReachIn(edges, parents, chosen);
    assert off == {} <==> forall x :: x in parents && x != chosen ==> Reaches(edges, chosen, x) by {
      if off == {} {
        forall x | x in parents && x != chosen ensures Reaches(edges, chosen, x) {
          assert x !in off;
        }
      }
    }
  }

  // ---------------------------------------------------------------------------
  // One stack's fixed order

  function Ids(cs: seq<Candidate>): set<SpecId> {
    if cs == [] then {} else Ids(cs[..|cs| - 1]) + {cs[|cs| - 1].id}
  }

  ghost predicate DistinctIds(cs: seq<Candidate>) {
    cs == [] || (DistinctIds(cs[..|cs| - 1]) && cs[|cs| - 1].id !in Ids(cs[..|cs| - 1]))
  }

  predicate Ready(c: Candidate, taken: set<SpecId>, satisfied: set<SpecId>) {
    forall d :: d in c.dependsOn ==> d in taken || d in satisfied
  }

  // (priority, id) order.
  predicate KeyLe(a: Candidate, b: Candidate) {
    a.priority < b.priority || (a.priority == b.priority && IdLe(a.id, b.id))
  }

  // Every dependency is satisfied outside the order or sits earlier in it.
  ghost predicate DependencyOrdered(order: seq<Candidate>, satisfied: set<SpecId>) {
    order == [] ||
    (var init, last := order[..|order| - 1], order[|order| - 1];
     DependencyOrdered(init, satisfied) && Ready(last, Ids(init), satisfied))
  }

  ghost predicate LowestOf(pick: Candidate, from: multiset<Candidate>, taken: set<SpecId>, satisfied: set<SpecId>) {
    forall c :: c in from && Ready(c, taken, satisfied) ==> KeyLe(pick, c)
  }

  // What the greedy loop builds: each pick was ready, and the lowest ready one
  // of what was left when it was picked.
  ghost predicate GreedyOrder(candidates: seq<Candidate>, satisfied: set<SpecId>, taken: seq<Candidate>) {
    taken == [] ||
    (var init, last := taken[..|taken| - 1], taken[|taken| - 1];
     && GreedyOrder(candidates, satisfied, init)
     && Ready(last, Ids(init), satisfied)
     && LowestOf(last, multiset(candidates) - multiset(init), Ids(init), satisfied))
  }

  lemma IdsAppend(cs: seq<Candidate>, c: Candidate)
    ensures Ids(cs + [c]) == Ids(cs) + {c.id}
  {
    assert (cs + [c])[..|cs|] == cs;
  }

  lemma {:induction false} IdsConcat(a: seq<Candidate>, b: seq<Candidate>)
    ensures Ids(a + b) == Ids(a) + Ids(b)
  {
    if b == [] {
      assert a + b == a;
    } else {
      IdsConcat(a, b[..|b| - 1]);
      assert (a + b)[..|a + b| - 1] == a + b[..|b| - 1];
    }
  }

  lemma {:induction false} IdsHolds(cs: seq<Candidate>, i: nat)
    requires i < |cs|
    ensures cs[i].id in Ids(cs)
  {
    if i < |cs| - 1 { IdsHolds(cs[..|cs| - 1], i); }
  }

  lemma {:induction false} IdsIndex(cs: seq<Candidate>, x: SpecId) returns (i: nat)
    requires x in Ids(cs)
    ensures i < |cs| && cs[i].id == x
  {
    if cs[|cs| - 1].id == x { i := |cs| - 1; } else { i := IdsIndex(cs[..|cs| - 1], x); }
  }

  // What an order says of its i-th spec and of what comes before it.
  lemma {:induction false} OrderAt(order: seq<Candidate>, satisfied: set<SpecId>, i: nat)
    requires i < |order|
    ensures DependencyOrdered(order, satisfied) ==>
      DependencyOrdered(order[..i], satisfied) && Ready(order[i], Ids(order[..i]), satisfied)
    ensures DistinctIds(order) ==> DistinctIds(order[..i]) && order[i].id !in Ids(order[..i])
    ensures Ids(order[..i + 1]) == Ids(order[..i]) + {order[i].id}
  {
    IdsAppend(order[..i], order[i]);
    assert order[..i + 1] == order[..i] + [order[i]];
    if i < |order| - 1 {
      var init := order[..|order| - 1];
      OrderAt(init, satisfied, i);
      assert init[..i] == order[..i];
    }
  }

  lemma {:induction false} DistinctConcat(a: seq<Candidate>, b: seq<Candidate>)
    ensures DistinctIds(a + b) <==> DistinctIds(a) && DistinctIds(b) && Ids(a) !! Ids(b)
  {
    if b == [] {
      assert a + b == a;
    } else {
      DistinctConcat(a, b[..|b| - 1]);
      IdsConcat(a, b[..|b| - 1]);
      assert (a + b)[..|a + b| - 1] == a + b[..|b| - 1];
    }
  }

  // Why a spec never became ready. The strings of the printed reason are built
  // from these fields alone.
  datatype Reason =
    | SecondStackBase(base: SpecId, others: seq<SpecId>)
    | Missing(deps: seq<SpecId>, cause: Option<SpecId>)

  datatype Refusal = Refusal(candidate: Candidate, reason: Reason)

  // The `depends_on` entries a reason names.
  function NamedBy(r: Reason): seq<SpecId> {
    match r
    case SecondStackBase(_, others) => others
    case Missing(deps, _) => deps
  }

  // The entries of `deps` outside `known`, in the order written.
  function Outside(deps: seq<SpecId>, known: set<SpecId>): (missing: seq<SpecId>)
    ensures forall d :: d in missing <==> d in deps && d !in known
  {
    if deps == [] then [] else
      (if deps[0] !in known then [deps[0]] else []) + Outside(deps[1..], known)
  }

  function Within(deps: seq<SpecId>, known: set<SpecId>): (kept: seq<SpecId>)
    ensures forall d :: d in kept <==> d in deps && d in known
  {
    if deps == [] then [] else
      (if deps[0] in known then [deps[0]] else []) + Within(deps[1..], known)
  }

  /** Why `c` is refused: every entry named is one that kept it from being
      ready, and at least one is named. */
  function StackDependencyReason(
    c: Candidate, taken: set<SpecId>, satisfied: set<SpecId>, causes: set<SpecId>,
    otherQualifying: set<SpecId>, stackBase: Option<SpecId>): (r: Reason)
    ensures forall d :: d in NamedBy(r) ==> d in c.dependsOn && d !in taken && d !in satisfied
    ensures !Ready(c, taken, satisfied) ==> NamedBy(r) != []
    ensures r.SecondStackBase? <==>
      stackBase.Some? && exists d :: d in otherQualifying && d in c.dependsOn && d !in taken && d !in satisfied
    ensures r.Missing? ==> forall d :: d in c.dependsOn && d !in taken && d !in satisfied ==> d in NamedBy(r)
    ensures r.Missing? && r.cause.Some? ==> r.cause.value in NamedBy(r) && r.cause.value in causes
  {
    var missing := Outside(c.dependsOn, taken + satisfied);
    assert !Ready(c, taken, satisfied) ==> exists d :: d in missing;
    var offChain := Within(missing, otherQualifying);
    if offChain != [] && stackBase.Some? then
      assert offChain[0] in otherQualifying;
      SecondStackBase(stackBase.value, offChain)
    else
      assert offChain == [] || stackBase.None?;
      assert forall d :: d in otherQualifying && d in missing ==> d in offChain;
      var caused := Within(missing, causes);
      Missing(missing, if caused == [] then None else Some(caused[0]))
  }

  // `list.remove`: what is left without the entry at `i`.
  function RemoveAt(s: seq<Candidate>, i: nat): seq<Candidate>
    requires i < |s|
  {
    s[..i] + s[i + 1..]
  }

  lemma RemoveOne(s: seq<Candidate>, i: nat)
    requires i < |s|
    ensures multiset(RemoveAt(s, i)) == multiset(s) - multiset{s[i]}
  {
    assert s == s[..i] + [s[i]] + s[i + 1..];
  }

  // The first of the lowest ready candidates.
  method LowestReady(remaining: seq<Candidate>, taken: set<SpecId>, satisfied: set<SpecId>) returns (best: Option<nat>)
    ensures best.None? ==> forall c :: c in remaining ==> !Ready(c, taken, satisfied)
    ensures best.Some? ==>
      && best.value < |remaining|
      && Ready(remaining[best.value], taken, satisfied)
      && LowestOf(remaining[best.value], multiset(remaining), taken, satisfied)
  {
    best := None;
    for i := 0 to |remaining|
      invariant best.None? ==> forall j :: 0 <= j < i ==> !Ready(remaining[j], taken, satisfied)
      invariant best.Some? ==> best.value < i && Ready(remaining[best.value], taken, satisfied)
      invariant best.Some? ==>
        forall j :: 0 <= j < i && Ready(remaining[j], taken, satisfied) ==> KeyLe(remaining[best.value], remaining[j])
    {
      if Ready(remaining[i], taken, satisfied) {
        KeyTotal(remaining[i], remaining[i]);
        if best.None? {
          best := Some(i);
        } else {
          KeyTotal(remaining[best.value], remaining[i]);
          if !KeyLe(remaining[best.value], remaining[i]) {
            forall j | 0 <= j < i && Ready(remaining[j], taken, satisfied) ensures KeyLe(remaining[i], remaining[j]) {
              KeyTransitive(remaining[i], remaining[best.value], remaining[j]);
            }
            best := Some(i);
          }
        }
      }
    }
  }

  /** One spec at a time, the lowest ready (priority, id) first, until nothing
      is ready. Every spec never taken is refused. */
  method StackOrder(
    candidates: seq<Candidate>, satisfied: set<SpecId>, causes: set<SpecId>,
    otherQualifying: set<SpecId>, stackBase: Option<SpecId>)
    returns (taken: seq<Candidate>, refusals: seq<Refusal>, ghost left: seq<Candidate>)
    ensures multiset(taken) + multiset(left) == multiset(candidates)
    ensures GreedyOrder(candidates, satisfied, taken)
    ensures forall c :: c in left ==> !Ready(c, Ids(taken), satisfied)
    ensures refusals == RefuseEach(left, Ids(taken), satisfied, causes, otherQualifying, stackBase)
  {
    var remaining := candidates;
    taken := [];
    var takenIds: set<SpecId> := {};
    while true
      invariant multiset(taken) + multiset(remaining) == multiset(candidates)
      invariant takenIds == Ids(taken)
      invariant GreedyOrder(candidates, satisfied, taken)
      decreases |remaining|
    {
      var best := LowestReady(remaining, takenIds, satisfied);
      if best.None? {
        break;
      }
      var pick := remaining[best.value];
      RemoveOne(remaining, best.value);
      GreedyExtends(candidates, satisfied, taken, remaining, pick);
      taken := taken + [pick];
      takenIds := takenIds + {pick.id};
      remaining := RemoveAt(remaining, best.value);
    }
    left := remaining;
    refusals := RefuseEach(remaining, takenIds, satisfied, causes, otherQualifying, stackBase);
  }

  function RefuseEach(
    remaining: seq<Candidate>, taken: set<SpecId>, satisfied: set<SpecId>, causes: set<SpecId>,
    otherQualifying: set<SpecId>, stackBase: Option<SpecId>): (r: seq<Refusal>)
    ensures |r| == |remaining| && forall i :: 0 <= i < |r| ==>
      r[i] == Refusal(remaining[i], StackDependencyReason(remaining[i], taken, satisfied, causes, otherQualifying,
                                                          stackBase))
  {
    seq(|remaining|, i requires 0 <= i < |remaining| =>
      Refusal(remaining[i], StackDependencyReason(remaining[i], taken, satisfied, causes, otherQualifying, stackBase)))
  }

  lemma KeyTotal(a: Candidate, b: Candidate)
    ensures KeyLe(a, b) || KeyLe(b, a)
  {
    IdLeTotal(a.id, b.id);
  }

  lemma KeyTransitive(a: Candidate, b: Candidate, c: Candidate)
    requires KeyLe(a, b) && KeyLe(b, c)
    ensures KeyLe(a, c)
  {
    if a.priority == b.priority == c.priority { IdLeTransitive(a.id, b.id, c.id); }
  }

  // Appending the lowest ready candidate of what is left keeps the order greedy.
  lemma GreedyExtends(candidates: seq<Candidate>, satisfied: set<SpecId>, taken: seq<Candidate>,
                      remaining: seq<Candidate>, pick: Candidate)
    requires GreedyOrder(candidates, satisfied, taken)
    requires multiset(taken) + multiset(remaining) == multiset(candidates)
    requires Ready(pick, Ids(taken), satisfied) && LowestOf(pick, multiset(remaining), Ids(taken), satisfied)
    ensures GreedyOrder(candidates, satisfied, taken + [pick])
    ensures Ids(taken + [pick]) == Ids(taken) + {pick.id}
  {
    IdsAppend(taken, pick);
    assert (taken + [pick])[..|taken|] == taken;
    assert multiset(candidates) - multiset(taken) == multiset(remaining);
  }

  lemma {:induction false} GreedyIsOrdered(candidates: seq<Candidate>, satisfied: set<SpecId>, taken: seq<Candidate>)
    requires GreedyOrder(candidates, satisfied, taken)
    ensures DependencyOrdered(taken, satisfied)
  {
    if taken != [] { GreedyIsOrdered(candidates, satisfied, taken[..|taken| - 1]); }
  }

  lemma {:induction false} GreedyAt(candidates: seq<Candidate>, satisfied: set<SpecId>, taken: seq<Candidate>, i: nat)
    requires GreedyOrder(candidates, satisfied, taken) && i < |taken|
    ensures LowestOf(taken[i], multiset(candidates) - multiset(taken[..i]), Ids(taken[..i]), satisfied)
  {
    if i < |taken| - 1 {
      var init := taken[..|taken| - 1];
      GreedyAt(candidates, satisfied, init, i);
      assert init[..i] == taken[..i];
    }
  }

  /** Maximal: any dependency-respecting sequence over the candidates uses only
      specs the order took, so a spec left out is outside every such sequence.
      Both ends of a cycle are left out. */
  lemma {:induction false} OrderIsMaximal(candidates: seq<Candidate>, satisfied: set<SpecId>, taken: seq<Candidate>,
                                          left: seq<Candidate>, other: seq<Candidate>)
    requires multiset(taken) + multiset(left) == multiset(candidates)
    requires forall c :: c in left ==> !Ready(c, Ids(taken), satisfied)
    requires multiset(other) <= multiset(candidates) && DependencyOrdered(other, satisfied)
    ensures Ids(other) <= Ids(taken)
    ensures forall c :: c in other ==> c in taken
  {
    if other != [] {
      var init, last := other[..|other| - 1], other[|other| - 1];
      assert other == init + [last];
      OrderIsMaximal(candidates, satisfied, taken, left, init);
      assert Ready(last, Ids(taken), satisfied);
      assert last in multiset(taken) + multiset(left);
      var i :| 0 <= i < |taken| && taken[i] == last;
      IdsHolds(taken, i);
    }
  }

  lemma NotYetUsed(from: multiset<Candidate>, s: seq<Candidate>, k: nat)
    requires multiset(s) <= from && k < |s|
    ensures s[k] in from - multiset(s[..k])
  {
    assert s == s[..k] + [s[k]] + s[k + 1..];
  }

  /** Lexicographically least: where another dependency-respecting sequence over
      the candidates first differs, the order has the lower (priority, id). */
  lemma OrderIsLeast(candidates: seq<Candidate>, satisfied: set<SpecId>, taken: seq<Candidate>, other: seq<Candidate>,
                     k: nat)
    requires GreedyOrder(candidates, satisfied, taken)
    requires multiset(other) <= multiset(candidates) && DependencyOrdered(other, satisfied)
    requires k < |taken| && k < |other| && taken[..k] == other[..k]
    ensures KeyLe(taken[k], other[k])
  {
    NotYetUsed(multiset(candidates), other, k);
    OrderAt(other, satisfied, k);
    GreedyAt(candidates, satisfied, taken, k);
  }

  // ---------------------------------------------------------------------------
  // The stack half of the queue

  // What an order's own stack base carries on its branch.
  function Carried(order: seq<Candidate>): set<SpecId> {
    if order != [] && order[0].stackBase.Some?
    then {order[0].stackBase.value.specId} + order[0].stackBase.value.chain
    else {}
  }

  // What the night driver may rely on: every dependency is on the default
  // branch, on the stack base or its chain, or earlier in the order.
  ghost predicate Planned(order: seq<Candidate>, onDefault: set<SpecId>) {
    DependencyOrdered(order, onDefault + Carried(order)) && DistinctIds(order)
  }

  // Every parent a kept spec names outside the kept ids and the default branch.
  function External(kept: seq<Candidate>, onDefault: set<SpecId>): set<SpecId> {
    set i, j | 0 <= i < |kept| && 0 <= j < |kept[i].dependsOn| && kept[i].dependsOn[j] !in Ids(kept) + onDefault ::
      kept[i].dependsOn[j]
  }

  /** The order's one stack base: of the parents named by a kept spec, outside
      the kept ids and off the default branch, the deepest that qualifies. */
  method ResolveStackBase(kept: seq<Candidate>, onDefault: set<SpecId>, edges: Edges,
                          qualify: SpecId -> Option<StackBase>)
    returns (base: Option<StackBase>, causes: set<SpecId>, otherQualifying: set<SpecId>, chain: set<SpecId>)
    ensures var external := External(kept, onDefault);
      var qualifying := set d | d in external && qualify(d).Some?;
      && causes == external - qualifying
      && (base.None? <==> qualifying == {})
      && (base.Some? ==>
        && base.value.specId in external && base.value.chain == chain
        && Deepest(edges, external, qualifying, base.value.specId)
        && otherQualifying == (qualifying - {base.value.specId}) - chain)
    ensures base.Some? ==> forall x :: x in chain <==> x != base.value.specId && Reaches(edges, base.value.specId, x)
    ensures base.None? ==> chain == {} && otherQualifying == {}
  {
    var external := External(kept, onDefault);
    var qualifying := set d | d in external && qualify(d).Some?;
    causes := external - qualifying;
    if qualifying == {} {
      return None, causes, {}, {};
    }
    var chosen, offChain := DeepestOpenParent(external, qualifying, edges);
    chain := Reachable(chosen.value, edges);
    otherQualifying := offChain * qualifying;
    base := Some(qualify(chosen.value).value.(specId := chosen.value, chain := chain));
  }

  function Carries(base: Option<StackBase>): set<SpecId> {
    if base.Some? then {base.value.specId} + base.value.chain else {}
  }

  // Every ordered spec is handed the stack base when any of them stands on it.
  function WithStackBase(cs: seq<Candidate>, base: Option<StackBase>): (r: seq<Candidate>)
    ensures |r| == |cs|
  {
    if exists c, d :: c in cs && d in c.dependsOn && d in Carries(base)
    then seq(|cs|, i requires 0 <= i < |cs| => cs[i].(stackBase := base))
    else cs
  }

  lemma {:induction false} RestampedIsSame(cs: seq<Candidate>, r: seq<Candidate>, satisfied: set<SpecId>)
    requires |r| == |cs| && forall i :: 0 <= i < |cs| ==> r[i].id == cs[i].id && r[i].dependsOn == cs[i].dependsOn
    ensures Ids(r) == Ids(cs) && DistinctIds(r) == DistinctIds(cs)
    ensures DependencyOrdered(r, satisfied) == DependencyOrdered(cs, satisfied)
  {
    if cs != [] { RestampedIsSame(cs[..|cs| - 1], r[..|cs| - 1], satisfied); }
  }

  lemma {:induction false} UncarriedIsSame(cs: seq<Candidate>, onDefault: set<SpecId>, carries: set<SpecId>)
    requires DependencyOrdered(cs, onDefault + carries)
    requires forall c, d :: c in cs && d in c.dependsOn ==> d !in carries
    ensures DependencyOrdered(cs, onDefault)
  {
    if cs != [] {
      UncarriedIsSame(cs[..|cs| - 1], onDefault, carries);
      assert cs[|cs| - 1] in cs;
    }
  }

  lemma WithStackBaseIsPlanned(cs: seq<Candidate>, base: Option<StackBase>, onDefault: set<SpecId>)
    requires DependencyOrdered(cs, onDefault + Carries(base)) && DistinctIds(cs)
    requires forall c :: c in cs ==> c.stackBase.None?
    ensures Planned(WithStackBase(cs, base), onDefault)
  {
    var r := WithStackBase(cs, base);
    if exists c, d :: c in cs && d in c.dependsOn && d in Carries(base) {
      RestampedIsSame(cs, r, onDefault + Carries(base));
      assert cs != [] && Carried(r) == Carries(base);
    } else {
      UncarriedIsSame(cs, onDefault, Carries(base));
      assert cs != [] ==> cs[0] in cs;
      assert onDefault + {} == onDefault;
    }
  }

  // The same specs without their stack base.
  function Unstamped(cs: seq<Candidate>): (r: seq<Candidate>)
    ensures |r| == |cs| && forall i :: 0 <= i < |r| ==> r[i] == cs[i].(stackBase := None)
  {
    seq(|cs|, i requires 0 <= i < |cs| => cs[i].(stackBase := None))
  }

  function Refused(refusals: seq<Refusal>): (r: seq<Candidate>)
    ensures |r| == |refusals| && forall i :: 0 <= i < |r| ==> r[i] == refusals[i].candidate
  {
    seq(|refusals|, i requires 0 <= i < |refusals| => refusals[i].candidate)
  }

  /** The stack half of the queue, over the candidates the other refusals kept:
      each is ordered or refused, the order is the greedy one over what its own
      stack base carries, and it is what the night driver may rely on. */
  method BuildStackQueue(kept: seq<Candidate>, onDefault: set<SpecId>, edges: Edges,
                         qualify: SpecId -> Option<StackBase>)
    returns (ordered: seq<Candidate>, refusals: seq<Refusal>, base: Option<StackBase>)
    requires DistinctIds(kept) && forall c :: c in kept ==> c.stackBase.None?
    ensures Planned(ordered, onDefault)
    ensures multiset(Unstamped(ordered)) + multiset(Refused(refusals)) == multiset(kept)
    ensures GreedyOrder(kept, onDefault + Carries(base), Unstamped(ordered))
    ensures forall r :: r in refusals ==> NamedBy(r.reason) != []
    ensures forall c :: c in ordered ==> c.stackBase.None? || c.stackBase == base
  {
    var causes, otherQualifying, chain;
    base, causes, otherQualifying, chain := ResolveStackBase(kept, onDefault, edges, qualify);
    var baseId := if base.Some? then Some(base.value.specId) else None;
    ghost var left;
    var taken;
    taken, refusals, left := StackOrder(kept, onDefault + Carries(base), causes, otherQualifying, baseId);
    PermutationKeepsDistinct(kept, taken, left);
    GreedyIsOrdered(kept, onDefault + Carries(base), taken);
    StampedIsPlanned(kept, taken, left, base, onDefault);
    ordered := WithStackBase(taken, base);
    assert Refused(refusals) == left;
  }

  lemma StampedIsPlanned(kept: seq<Candidate>, taken: seq<Candidate>, left: seq<Candidate>, base: Option<StackBase>,
                         onDefault: set<SpecId>)
    requires multiset(taken) + multiset(left) == multiset(kept) && forall c :: c in kept ==> c.stackBase.None?
    requires DependencyOrdered(taken, onDefault + Carries(base)) && DistinctIds(taken)
    ensures Planned(WithStackBase(taken, base), onDefault) && Unstamped(WithStackBase(taken, base)) == taken
    ensures forall c :: c in WithStackBase(taken, base) ==> c.stackBase.None? || c.stackBase == base
  {
    forall c | c in taken ensures c.stackBase.None? { assert c in multiset(kept); }
    WithStackBaseIsPlanned(taken, base, onDefault);
    assert Unstamped(WithStackBase(taken, base)) == taken;
  }

  // With distinct ids a candidate occurs once, and no other has its id.
  lemma {:induction false} DistinctCounts(cs: seq<Candidate>, x: Candidate, y: Candidate)
    requires DistinctIds(cs)
    ensures multiset(cs)[x] <= 1
    ensures x in cs && y in cs && x.id == y.id ==> x == y
  {
    if cs != [] {
      var init, last := cs[..|cs| - 1], cs[|cs| - 1];
      assert cs == init + [last];
      DistinctCounts(init, x, y);
      forall c | c in init ensures c.id in Ids(init) {
        var i :| 0 <= i < |init| && init[i] == c;
        IdsHolds(init, i);
      }
    }
  }

  lemma {:induction false} PermutationKeepsDistinct(all: seq<Candidate>, a: seq<Candidate>, b: seq<Candidate>)
    requires DistinctIds(all) && multiset(a) + multiset(b) == multiset(all)
    ensures DistinctIds(a)
    ensures |a| + |b| == |all|
  {
    assert |multiset(a)| + |multiset(b)| == |multiset(all)|;
    if a != [] {
      var init, last := a[..|a| - 1], a[|a| - 1];
      assert a == init + [last];
      PermutationKeepsDistinct(all, init, [last] + b);
      if last.id in Ids(init) {
        var i := IdsIndex(init, last.id);
        assert init[i] in multiset(all) && last in multiset(all);
        DistinctCounts(all, init[i], last);
      }
    }
  }
}
