/** Baseline subtraction of saffron/gates/baseline.py: which failures of a gate
    result are a task's own. A failure the base already had cancels one at the
    head, whatever line either stands on. */
module Baseline {
  import opened Wrappers
  import opened Lists
  import opened Facts

  // A message with the numbers and the spacing a diff shifts taken out of it.
  type Normal = string -> string

  // What a failure is compared by: gate, file, code and normalised message.
  type Identity = (string, string, string, string)

  datatype NewFailure = NewFailure(gate: string, failure: GateFailure) {
    function Id(norm: Normal): Identity {
      (gate, failure.file, failure.code, norm(if failure.message.Some? then failure.message.value else ""))
    }

    // A mutant that survived is this task's to kill, whether or not it did before.
    predicate Cancels() {
      !(gate == "witness" && failure.code == "survived-mutant")
    }
  }

  function Named(result: Gate): (r: seq<NewFailure>)
    ensures |r| == |result.failures| && forall i :: 0 <= i < |r| ==> r[i] == NewFailure(result.gate, result.failures[i])
  {
    seq(|result.failures|, i requires 0 <= i < |result.failures| => NewFailure(result.gate, result.failures[i]))
  }

  // Every failure of a suite, in the order of its results.
  function FlatTo(results: seq<Gate>, n: nat): seq<NewFailure>
    requires n <= |results|
  {
    if n == 0 then [] else FlatTo(results, n - 1) + Named(results[n - 1])
  }

  function Flat(results: seq<Gate>): seq<NewFailure> {
    FlatTo(results, |results|)
  }

  // `_cancelling`: what may be cancelled, and how often.
  function Cancelling(norm: Normal, base: seq<NewFailure>): multiset<Identity> {
    if base == [] then multiset{} else
      var last := base[|base| - 1];
      Cancelling(norm, base[..|base| - 1]) + (if last.Cancels() then multiset{last.Id(norm)} else multiset{})
  }

  function CountOf(norm: Normal, failures: seq<NewFailure>, id: Identity): nat {
    if failures == [] then 0 else
      CountOf(norm, failures[..|failures| - 1], id) + (if failures[|failures| - 1].Id(norm) == id then 1 else 0)
  }

  // A failure survives when the head had shown its like as often before as the
  // base can cancel.
  function Survivors(norm: Normal, head: seq<NewFailure>, cancel: multiset<Identity>): seq<NewFailure> {
    if head == [] then [] else
      var init, last := head[..|head| - 1], head[|head| - 1];
      var kept := Survivors(norm, init, cancel);
      if CountOf(norm, init, last.Id(norm)) >= cancel[last.Id(norm)] then kept + [last] else kept
  }

  function Less(a: nat, b: nat): nat {
    if a <= b then 0 else a - b
  }

  /** Of each kind as many survive as the head has more of it than the base can
      cancel: one failure there cancels one here. */
  lemma {:induction false} SurvivorsAddUp(norm: Normal, head: seq<NewFailure>, cancel: multiset<Identity>, id: Identity)
    ensures CountOf(norm, Survivors(norm, head, cancel), id) == Less(CountOf(norm, head, id), cancel[id])
  {
    if head != [] {
      var init, last := head[..|head| - 1], head[|head| - 1];
      SurvivorsAddUp(norm, init, cancel, id);
      CountNext(norm, Survivors(norm, init, cancel), last, id);
    }
  }

  lemma CountNext(norm: Normal, failures: seq<NewFailure>, f: NewFailure, id: Identity)
    ensures CountOf(norm, failures + [f], id) == CountOf(norm, failures, id) + (if f.Id(norm) == id then 1 else 0)
  {
    InitLast(failures, f);
  }

  ghost predicate SameIds(norm: Normal, a: seq<NewFailure>, b: seq<NewFailure>) {
    |a| == |b| && forall i :: 0 <= i < |a| ==> a[i].Id(norm) == b[i].Id(norm)
  }

  /** Lines, and the numbers in a message, decide nothing: a head whose failures
      only moved has the same ones survive. */
  lemma {:induction false} MovedSurvives(norm: Normal, a: seq<NewFailure>, b: seq<NewFailure>,
                                         cancel: multiset<Identity>)
    requires SameIds(norm, a, b)
    ensures SameIds(norm, Survivors(norm, a, cancel), Survivors(norm, b, cancel))
  {
    if a != [] {
      var n := |a| - 1;
      MovedSurvives(norm, a[..n], b[..n], cancel);
      SameCounts(norm, a[..n], b[..n], a[n].Id(norm));
    }
  }

  lemma {:induction false} SameCounts(norm: Normal, a: seq<NewFailure>, b: seq<NewFailure>, id: Identity)
    requires SameIds(norm, a, b)
    ensures CountOf(norm, a, id) == CountOf(norm, b, id)
  {
    if a != [] {
      SameCounts(norm, a[..|a| - 1], b[..|b| - 1], id);
    }
  }

  function Uncancelled(failures: seq<NewFailure>): seq<NewFailure> {
    if failures == [] then [] else
      var last := failures[|failures| - 1];
      var kept := Uncancelled(failures[..|failures| - 1]);
      if last.Cancels() then kept else kept + [last]
  }

  /** A head that fails just as its base did has nothing new but the mutants that
      survive. */
  lemma NothingNew(norm: Normal, base: seq<NewFailure>)
    ensures Survivors(norm, base, Cancelling(norm, base)) == Uncancelled(base)
  {
    forall f: NewFailure ensures CancelsAll(norm, base, Cancelling(norm, base), f) {
      CancellingCounts(norm, base, f);
    }
    AllCancelled(norm, base, Cancelling(norm, base));
  }

  // What there is of a failure's kind can all be cancelled, or none of it.
  ghost predicate CancelsAll(norm: Normal, failures: seq<NewFailure>, cancel: multiset<Identity>, f: NewFailure) {
    if f.Cancels() then CountOf(norm, failures, f.Id(norm)) <= cancel[f.Id(norm)] else cancel[f.Id(norm)] == 0
  }

  lemma {:induction false} CancellingCounts(norm: Normal, base: seq<NewFailure>, f: NewFailure)
    ensures CancelsAll(norm, base, Cancelling(norm, base), f)
  {
    if base != [] {
      CancellingCounts(norm, base[..|base| - 1], f);
    }
  }

  lemma {:induction false} AllCancelled(norm: Normal, head: seq<NewFailure>, cancel: multiset<Identity>)
    requires forall f :: CancelsAll(norm, head, cancel, f)
    ensures Survivors(norm, head, cancel) == Uncancelled(head)
  {
    if head != [] {
      var init := head[..|head| - 1];
      forall f ensures CancelsAll(norm, init, cancel, f) {
        assert CancelsAll(norm, head, cancel, f);
      }
      AllCancelled(norm, init, cancel);
      assert CancelsAll(norm, head, cancel, head[|head| - 1]);
    }
  }

  // What is left to cancel after the failures seen.
  ghost predicate LeftAt(norm: Normal, seen: seq<NewFailure>, cancel: multiset<Identity>, remaining: multiset<Identity>,
                         id: Identity)
  {
    remaining[id] == Less(cancel[id], CountOf(norm, seen, id))
  }

  ghost predicate Scanned(norm: Normal, seen: seq<NewFailure>, cancel: multiset<Identity>,
                          remaining: multiset<Identity>, found: seq<NewFailure>)
  {
    found == Survivors(norm, seen, cancel) && forall id :: LeftAt(norm, seen, cancel, remaining, id)
  }

  method SubtractOne(norm: Normal, ghost seen: seq<NewFailure>, ghost cancel: multiset<Identity>,
                     remaining: multiset<Identity>, found: seq<NewFailure>, f: NewFailure)
    returns (remaining': multiset<Identity>, found': seq<NewFailure>)
    requires Scanned(norm, seen, cancel, remaining, found)
    ensures Scanned(norm, seen + [f], cancel, remaining', found')
  {
    var key := f.Id(norm);
    assert LeftAt(norm, seen, cancel, remaining, key);
    remaining', found' := remaining, found;
    if remaining[key] > 0 {
      remaining' := remaining[key := remaining[key] - 1];
    } else {
      found' := found + [f];
    }
    InitLast(seen, f);
    forall id ensures LeftAt(norm, seen + [f], cancel, remaining', id) {
      assert LeftAt(norm, seen, cancel, remaining, id);
    }
  }

  method SubtractEach(norm: Normal, ghost seen: seq<NewFailure>, ghost cancel: multiset<Identity>,
                      remaining: multiset<Identity>, found: seq<NewFailure>, failures: seq<NewFailure>)
    returns (remaining': multiset<Identity>, found': seq<NewFailure>)
    requires Scanned(norm, seen, cancel, remaining, found)
    ensures Scanned(norm, seen + failures, cancel, remaining', found')
  {
    remaining', found' := remaining, found;
    assert seen + failures[..0] == seen;
    for j := 0 to |failures|
      invariant Scanned(norm, seen + failures[..j], cancel, remaining', found')
    {
      remaining', found' := SubtractOne(norm, seen + failures[..j], cancel, remaining', found', failures[j]);
      TakeNext(failures, j);
      Associates(seen, failures[..j], [failures[j]]);
    }
    TakeAll(failures);
  }

  /** The failures of a head that no failure of its base cancels, in order. */
  method SubtractBaseline(norm: Normal, head: seq<Gate>, base: seq<Gate>) returns (found: seq<NewFailure>)
    ensures found == Survivors(norm, Flat(head), Cancelling(norm, Flat(base)))
  {
    var remaining := Cancelling(norm, Flat(base));
    ghost var cancel := remaining;
    found := [];
    for i := 0 to |head|
      invariant Scanned(norm, FlatTo(head, i), cancel, remaining, found)
    {
      remaining, found := SubtractEach(norm, FlatTo(head, i), cancel, remaining, found, Named(head[i]));
    }
  }

  function FailuresOf(found: seq<NewFailure>): (r: seq<GateFailure>)
    ensures |r| == |found| && forall i :: 0 <= i < |r| ==> r[i] == found[i].failure
  {
    seq(|found|, i requires 0 <= i < |found| => found[i].failure)
  }

  // A result as it is recorded: its new failures, and how many it had in all.
  function OnlyNew(norm: Normal, result: Gate, base: seq<Gate>): Gate {
    result.(failures := FailuresOf(Survivors(norm, Flat([result]), Cancelling(norm, Flat(base)))),
            failuresAtHead := Some(|result.failures|))
  }
}
