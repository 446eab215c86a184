/** Qualifying an end review's findings into follow-up groups, as
    saffron/qualify.py does: the host decides each finding once, and nothing
    decided is lost. */
module Qualify {
  import opened Wrappers
  import opened Lists

  datatype Severity = BLOCKER | CONCERN | NOTE
  datatype Verdict = SURVIVED | KILLED_BY_TESTS | UNPROVEN
  datatype Mutant = Mutant(file: string, find: string, replace: string)

  const ADEQUACY := "adequacy"

  // A finding once it has been anchored over its range and its probe run.
  datatype Finding = Finding(
    lens: string, severity: Severity, file: string, line: int, claim: string,
    anchored: bool, probe: Option<Mutant>, verdict: Option<Verdict>
  )

  datatype Outcome = QUALIFIED | UNVERIFIED | UNANCHORED | NOTED | KILLED

  datatype Qualified = Qualified(taskKey: string, finding: Finding, outcome: Outcome) {
    function Key(): (string, string) { (taskKey, finding.file) }
  }

  datatype Group = Group(taskKey: string, file: string, findings: seq<Qualified>) {
    function Key(): (string, string) { (taskKey, file) }
  }

  // One range's findings under one layer, and the lines that changed between
  // the head they were cited at and the graded head. A mirror that cannot
  // answer raises before anything of the range is decided.
  datatype Range = Range(taskKey: string, findings: seq<Finding>, stale: map<string, set<int>>, raises: bool)

  function Decide(f: Finding): Outcome {
    if !f.anchored then UNANCHORED
    else if f.probe.None? then
      if f.lens == ADEQUACY then UNVERIFIED else if f.severity == NOTE then NOTED else QUALIFIED
    else match f.verdict
      case Some(KILLED_BY_TESTS) => KILLED
      case Some(SURVIVED) => QUALIFIED
      case _ => UNVERIFIED
  }

  predicate Stale(range: Range, f: Finding) {
    f.file in range.stale && f.line in range.stale[f.file]
  }

  function Decided(range: Range, f: Finding): (q: Qualified)
    ensures q.taskKey == range.taskKey && q.finding == f
    // A follow-up grows only from a finding the host has grounds for: anchored,
    // on a line nothing has moved, and either proved by a surviving probe or
    // needing none.
    ensures q.outcome == QUALIFIED <==>
      && f.anchored && !Stale(range, f)
      && (if f.probe.Some? then f.verdict == Some(SURVIVED) else f.lens != ADEQUACY && f.severity != NOTE)
    ensures q.outcome == KILLED <==> f.anchored && f.probe.Some? && f.verdict == Some(KILLED_BY_TESTS)
  {
    var outcome := Decide(f);
    Qualified(range.taskKey, f, if outcome == QUALIFIED && Stale(range, f) then UNVERIFIED else outcome)
  }

  function RangeDecided(range: Range): (r: seq<Qualified>)
    ensures |r| == |range.findings| && forall i :: 0 <= i < |r| ==> r[i] == Decided(range, range.findings[i])
  {
    seq(|range.findings|, i requires 0 <= i < |range.findings| => Decided(range, range.findings[i]))
  }

  function AllDecided(ranges: seq<Range>): seq<Qualified> {
    if ranges == [] then [] else AllDecided(ranges[..|ranges| - 1]) + RangeDecided(ranges[|ranges| - 1])
  }

  // ---------------------------------------------------------------------------
  // Groups

  ghost function All(groups: seq<Group>): multiset<Qualified> {
    Total(Held(groups))
  }

  // What each group holds.
  ghost function Held(groups: seq<Group>): (r: seq<multiset<Qualified>>)
    ensures |r| == |groups| && forall i :: 0 <= i < |r| ==> r[i] == multiset(groups[i].findings)
  {
    seq(|groups|, i requires 0 <= i < |groups| => multiset(groups[i].findings))
  }

  lemma AllNext(groups: seq<Group>, g: Group)
    ensures All(groups + [g]) == All(groups) + multiset(g.findings)
  {
    assert Held(groups + [g]) == Held(groups) + [multiset(g.findings)];
    TotalConcat(Held(groups), [multiset(g.findings)]);
    TotalOne(multiset(g.findings));
  }

  lemma AllCons(g: Group, rest: seq<Group>)
    ensures All([g] + rest) == multiset(g.findings) + All(rest)
  {
    assert Held([g] + rest) == [multiset(g.findings)] + Held(rest);
    TotalCons(multiset(g.findings), Held(rest));
  }

  function FindingsAt(groups: seq<Group>, key: (string, string)): seq<Qualified> {
    if groups == [] then [] else if groups[0].Key() == key then groups[0].findings else FindingsAt(groups[1..], key)
  }

  function Keys(groups: seq<Group>): set<(string, string)> {
    set g | g in groups :: g.Key()
  }

  ghost predicate DistinctKeys(groups: seq<Group>) {
    groups == [] || (groups[0].Key() !in Keys(groups[1..]) && DistinctKeys(groups[1..]))
  }

  // Every group holds something, all of it its own and qualified.
  ghost predicate WellGrouped(groups: seq<Group>) {
    groups == [] ||
    (&& groups[0].findings != []
     && (forall q :: q in groups[0].findings ==> q.Key() == groups[0].Key() && q.outcome == QUALIFIED)
     && WellGrouped(groups[1..]))
  }

  // `setdefault(key, []).append(q)`.
  function AddTo(groups: seq<Group>, q: Qualified): seq<Group> {
    if groups == [] then [Group(q.taskKey, q.finding.file, [q])]
    else if groups[0].Key() == q.Key() then [groups[0].(findings := groups[0].findings + [q])] + groups[1..]
    else [groups[0]] + AddTo(groups[1..], q)
  }

  lemma {:induction false} AddToKeys(groups: seq<Group>, q: Qualified)
    requires DistinctKeys(groups)
    ensures Keys(AddTo(groups, q)) == Keys(groups) + {q.Key()} && DistinctKeys(AddTo(groups, q))
  {
    if groups == [] {
      KeysCons(Group(q.taskKey, q.finding.file, [q]), []);
      assert AddTo(groups, q)[1..] == [];
    } else {
      var head := AddTo(groups, q)[0];
      KeysCons(groups[0], groups[1..]);
      assert groups == [groups[0]] + groups[1..];
      if groups[0].Key() != q.Key() {
        AddToKeys(groups[1..], q);
        KeysCons(head, AddTo(groups[1..], q));
        assert AddTo(groups, q)[1..] == AddTo(groups[1..], q);
      } else {
        KeysCons(head, groups[1..]);
        assert AddTo(groups, q)[1..] == groups[1..];
      }
    }
  }

  lemma KeysCons(g: Group, rest: seq<Group>)
    ensures Keys([g] + rest) == {g.Key()} + Keys(rest)
  {
    forall key ensures key in Keys([g] + rest) <==> key in {g.Key()} + Keys(rest) {
      assert forall x :: x in [g] + rest <==> x == g || x in rest;
    }
  }

  lemma {:induction false} AddToGroups(groups: seq<Group>, q: Qualified)
    requires WellGrouped(groups) && q.outcome == QUALIFIED
    ensures WellGrouped(AddTo(groups, q))
  {
    if groups != [] && groups[0].Key() != q.Key() {
      AddToGroups(groups[1..], q);
      assert AddTo(groups, q)[1..] == AddTo(groups[1..], q);
    } else if groups != [] {
      assert AddTo(groups, q)[1..] == groups[1..];
    }
  }

  lemma {:induction false} AddToAll(groups: seq<Group>, q: Qualified)
    ensures All(AddTo(groups, q)) == All(groups) + multiset{q}
  {
    if groups == [] {
      assert AddTo(groups, q) == [AddTo(groups, q)[0]] + groups;
      AllCons(AddTo(groups, q)[0], groups);
    } else {
      var g, rest := groups[0], groups[1..];
      assert groups == [g] + rest;
      AllCons(g, rest);
      if g.Key() == q.Key() {
        AllCons(g.(findings := g.findings + [q]), rest);
      } else {
        AddToAll(rest, q);
        AllCons(g, AddTo(rest, q));
      }
    }
  }

  lemma {:induction false} AddToAt(groups: seq<Group>, q: Qualified, key: (string, string))
    ensures FindingsAt(AddTo(groups, q), key) == FindingsAt(groups, key) + (if key == q.Key() then [q] else [])
  {
    if groups != [] && groups[0].Key() != q.Key() {
      AddToAt(groups[1..], q, key);
      assert AddTo(groups, q)[1..] == AddTo(groups[1..], q);
    } else if groups != [] {
      assert AddTo(groups, q)[1..] == groups[1..];
    }
  }

  // The qualified findings of one layer and file, in the order they were met.
  function Having(decided: seq<Qualified>, key: (string, string)): seq<Qualified> {
    if decided == [] then [] else
      var last := decided[|decided| - 1];
      Having(decided[..|decided| - 1], key) + (if last.outcome == QUALIFIED && last.Key() == key then [last] else [])
  }

  function WithOutcome(decided: seq<Qualified>, which: set<Outcome>): seq<Qualified> {
    if decided == [] then [] else
      var last := decided[|decided| - 1];
      WithOutcome(decided[..|decided| - 1], which) + (if last.outcome in which then [last] else [])
  }

  ghost predicate GroupedAt(decided: seq<Qualified>, groups: seq<Group>, key: (string, string)) {
    FindingsAt(groups, key) == Having(decided, key)
  }

  // Each group is its key's qualified findings in order, the pool everything
  // else that was not killed.
  ghost predicate Sorted(decided: seq<Qualified>, groups: seq<Group>, pool: seq<Qualified>) {
    && DistinctKeys(groups) && WellGrouped(groups)
    && (forall key :: GroupedAt(decided, groups, key))
    && pool == WithOutcome(decided, {UNVERIFIED, UNANCHORED, NOTED})
  }

  // All of it adds up.
  ghost predicate AddsUp(decided: seq<Qualified>, groups: seq<Group>, pool: seq<Qualified>) {
    All(groups) + multiset(pool) + multiset(WithOutcome(decided, {KILLED})) == multiset(decided)
  }

  ghost predicate Folded(decided: seq<Qualified>, groups: seq<Group>, pool: seq<Qualified>) {
    Sorted(decided, groups, pool) && AddsUp(decided, groups, pool)
  }

  // Where one decided finding goes.
  function Placed(groups: seq<Group>, pool: seq<Qualified>, q: Qualified): (seq<Group>, seq<Qualified>) {
    if q.outcome == QUALIFIED then (AddTo(groups, q), pool)
    else if q.outcome == KILLED then (groups, pool)
    else (groups, pool + [q])
  }

  lemma PlacedIsSorted(decided: seq<Qualified>, groups: seq<Group>, pool: seq<Qualified>, q: Qualified)
    requires Sorted(decided, groups, pool)
    ensures Sorted(decided + [q], Placed(groups, pool, q).0, Placed(groups, pool, q).1)
  {
    var grown := decided + [q];
    assert grown[..|decided|] == decided;
    if q.outcome == QUALIFIED {
      AddToKeys(groups, q);
      AddToGroups(groups, q);
    }
    forall key ensures GroupedAt(grown, Placed(groups, pool, q).0, key) {
      assert GroupedAt(decided, groups, key);
      if q.outcome == QUALIFIED { AddToAt(groups, q, key); }
    }
  }

  lemma PlacedAddsUp(decided: seq<Qualified>, groups: seq<Group>, pool: seq<Qualified>, q: Qualified)
    requires AddsUp(decided, groups, pool)
    ensures AddsUp(decided + [q], Placed(groups, pool, q).0, Placed(groups, pool, q).1)
  {
    assert (decided + [q])[..|decided|] == decided;
    if q.outcome == QUALIFIED { AddToAll(groups, q); }
  }

  // `_fold`: a range's decisions into the groups and the pool.
  method Fold(decided: seq<Qualified>, ghost before: seq<Qualified>, groups: seq<Group>, pool: seq<Qualified>)
    returns (groups': seq<Group>, pool': seq<Qualified>)
    requires Folded(before, groups, pool)
    ensures Folded(before + decided, groups', pool')
  {
    groups', pool' := groups, pool;
    assert before + decided[..0] == before;
    for i := 0 to |decided|
      invariant Folded(before + decided[..i], groups', pool')
    {
      var q := decided[i];
      PlacedIsSorted(before + decided[..i], groups', pool', q);
      PlacedAddsUp(before + decided[..i], groups', pool', q);
      TakeNext(decided, i);
      Associates(before, decided[..i], [q]);
      if q.outcome == QUALIFIED {
        groups' := AddTo(groups', q);
      } else if q.outcome != KILLED {
        pool' := pool' + [q];
      }
    }
    TakeAll(decided);
  }

  lemma NothingFolded()
    ensures Folded([], [], [])
  {
    forall key ensures GroupedAt([], [], key) {}
  }

  lemma NextRange(ranges: seq<Range>, i: nat)
    requires i < |ranges|
    ensures AllDecided(ranges[..i + 1]) == AllDecided(ranges[..i]) + RangeDecided(ranges[i])
  {
    assert ranges[..i + 1][..i] == ranges[..i];
  }

  // One layer's two ranges: its end-review findings, then its own concerns.
  datatype Layer = Layer(taskKey: string, endReview: Range, concerns: Range)

  datatype Qualification = Qualification(groups: seq<Group>, pool: seq<Qualified>)

  // The ranges walked: the join's over the whole stack under the top layer,
  // then each layer's, top down. An empty range is never walked.
  function Walked(join: Option<Range>, layers: seq<Layer>): seq<Range> {
    (if join.Some? && layers != [] then [join.value] else []) + LayerRanges(layers)
  }

  function LayerRanges(layers: seq<Layer>): seq<Range> {
    if layers == [] then [] else
      var last := layers[|layers| - 1];
      LayerRanges(layers[..|layers| - 1])
        + (if last.endReview.findings != [] then [last.endReview] else [])
        + (if last.concerns.findings != [] then [last.concerns] else [])
  }

  // The walk over the ranges: a mirror that cannot answer raises out of it.
  method QualifyRanges(ranges: seq<Range>) returns (r: Option<Qualification>)
    ensures r.Some? ==> Folded(AllDecided(ranges), r.value.groups, r.value.pool)
    ensures r.None? <==> exists range :: range in ranges && range.raises
  {
    var groups, pool := [], [];
    NothingFolded();
    for i := 0 to |ranges|
      invariant Folded(AllDecided(ranges[..i]), groups, pool)
      invariant forall range :: range in ranges[..i] ==> !range.raises
    {
      if ranges[i].raises {
        return None;
      }
      NextRange(ranges, i);
      TakeNext(ranges, i);
      groups, pool := Fold(RangeDecided(ranges[i]), AllDecided(ranges[..i]), groups, pool);
    }
    TakeAll(ranges);
    r := Some(Qualification(groups, pool));
  }

  /** Every finding decided over the whole stack ends in exactly one place: the
      group of its own layer and file, the pool, or killed. It fails only when
      the mirror cannot answer for a range that was walked. */
  method QualifyStack(join: Option<Range>, layers: seq<Layer>) returns (r: Option<Qualification>)
    ensures r.Some? ==> Folded(AllDecided(Walked(join, layers)), r.value.groups, r.value.pool)
    ensures r.None? <==> exists range :: range in Walked(join, layers) && range.raises
  {
    r := QualifyRanges(Walked(join, layers));
  }

  lemma {:induction false} HavingOnly(decided: seq<Qualified>, key: (string, string), q: Qualified)
    ensures q in Having(decided, key) <==> q in decided && q.outcome == QUALIFIED && q.Key() == key
  {
    if decided != [] {
      HavingOnly(decided[..|decided| - 1], key, q);
      assert decided == decided[..|decided| - 1] + [decided[|decided| - 1]];
    }
  }

  /** A decided finding is grouped, under its own layer and file, exactly when
      it qualified. */
  lemma GroupedIffQualified(decided: seq<Qualified>, groups: seq<Group>, pool: seq<Qualified>, q: Qualified)
    requires Folded(decided, groups, pool) && q in decided
    ensures q in FindingsAt(groups, q.Key()) <==> q.outcome == QUALIFIED
    ensures q in pool ==> q.outcome != QUALIFIED && q.outcome != KILLED
  {
    assert q in FindingsAt(groups, q.Key()) <==> q.outcome == QUALIFIED by {
      HavingOnly(decided, q.Key(), q);
      assert GroupedAt(decided, groups, q.Key());
    }
    PoolOnly(decided, {UNVERIFIED, UNANCHORED, NOTED}, q);
  }

  lemma {:induction false} PoolOnly(decided: seq<Qualified>, which: set<Outcome>, q: Qualified)
    ensures q in WithOutcome(decided, which) <==> q in decided && q.outcome in which
  {
    if decided != [] {
      PoolOnly(decided[..|decided| - 1], which, q);
      assert decided == decided[..|decided| - 1] + [decided[|decided| - 1]];
    }
  }
}
