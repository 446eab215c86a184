/** The removed-name clashes of saffron/scheduler.py: a spec that still reads a
    name another live spec removes may not run beside it, unless one of the two
    is already a parent of the other. */
module Removals {
  import opened Wrappers
  import opened Graph

  // A live spec, with the texts it reads names in: its body and its claims.
  datatype Spec = Spec(id: SpecId, dependsOn: seq<SpecId>, removes: seq<string>, consumes: seq<string>,
                       texts: seq<string>)

  // `entry.partition(":")`, without the separator.
  function Partition(entry: string): (string, string) {
    if entry == "" then ("", "")
    else if entry[0] == ':' then ("", entry[1..])
    else ([entry[0]] + Partition(entry[1..]).0, Partition(entry[1..]).1)
  }

  /** Cut at the first colon, or not at all. */
  lemma {:induction false} PartitionCuts(entry: string)
    ensures ':' !in Partition(entry).0
    ensures entry == Partition(entry).0 + (if ':' in entry then ":" else "") + Partition(entry).1
  {
    if entry != "" {
      assert entry == [entry[0]] + entry[1..];
      if entry[0] != ':' { PartitionCuts(entry[1..]); }
    }
  }

  // The name an entry is about, or its path when it names none.
  function Subject(entry: string): string {
    var parts := Partition(entry);
    if parts.1 != "" then parts.1 else parts.0
  }

  // Whether a text holds a name as a whole word.
  type Word = (string, string) -> bool

  // A reader still names what an entry removes, in its texts or as its own
  // `consumes` entry, or consumes anything of a path removed whole.
  predicate StillReads(word: Word, reader: Spec, entry: string) {
    || (Subject(entry) != "" && exists text :: text in reader.texts && word(text, Subject(entry)))
    || exists consumed :: consumed in reader.consumes && SameName(entry, consumed)
  }

  predicate SameName(entry: string, consumed: string) {
    Subject(consumed) == Subject(entry) || (':' !in entry && Partition(consumed).0 == Partition(entry).0)
  }

  // What one spec removes and the other still reads.
  predicate Clashes(word: Word, remover: Spec, reader: Spec) {
    exists entry :: entry in remover.removes && StillReads(word, reader, entry)
  }

  // The `k`-th thing removed is the first the other still reads.
  ghost predicate FirstRead(word: Word, remover: Spec, reader: Spec, k: nat) {
    && k < |remover.removes| && StillReads(word, reader, remover.removes[k])
    && forall j :: 0 <= j < k ==> !StillReads(word, reader, remover.removes[j])
  }

  ghost predicate Names(word: Word, remover: Spec, reader: Spec, subject: string) {
    exists k: nat :: FirstRead(word, remover, reader, k) && subject == Subject(remover.removes[k])
  }

  // The subject of the first `removes` entry the reader still reads.
  method RemovedNameClash(word: Word, remover: Spec, reader: Spec) returns (subject: Option<string>)
    ensures subject.Some? <==> Clashes(word, remover, reader)
    ensures subject.Some? ==> Names(word, remover, reader, subject.value)
  {
    for i := 0 to |remover.removes|
      invariant forall k :: 0 <= k < i ==> !StillReads(word, reader, remover.removes[k])
    {
      if StillReads(word, reader, remover.removes[i]) {
        assert FirstRead(word, remover, reader, i);
        return Some(Subject(remover.removes[i]));
      }
    }
    subject := None;
  }

  // ---------------------------------------------------------------------------
  // Who is held

  ghost predicate Joined(edges: Edges, a: SpecId, b: SpecId) {
    Reaches(edges, a, b) || Reaches(edges, b, a)
  }

  // Two specs that cannot run beside each other.
  ghost predicate Apart(word: Word, edges: Edges, a: Spec, b: Spec) {
    a.id != b.id && !Joined(edges, a.id, b.id) && (Clashes(word, a, b) || Clashes(word, b, a))
  }

  // Of two candidates the later id is held; beside a waiting partner the
  // candidate is, whatever its id.
  ghost predicate Yields(candidates: set<SpecId>, held: SpecId, other: SpecId) {
    held in candidates && (other !in candidates || IdLe(other, held))
  }

  ghost predicate HeldBy(word: Word, edges: Edges, candidates: set<SpecId>, held: Spec, other: Spec) {
    Apart(word, edges, held, other) && Yields(candidates, held.id, other.id)
  }

  // What a refusal names: the two specs and the removed name between them.
  datatype Reason = Reason(held: SpecId, other: SpecId, subject: string)

  // One partner clashes beside another, and one of the two is held for it.
  ghost predicate PairHolds(word: Word, edges: Edges, candidates: set<SpecId>, remover: Spec, reader: Spec, x: SpecId) {
    && remover.id != reader.id && !Joined(edges, remover.id, reader.id) && Clashes(word, remover, reader)
    && ((x == remover.id && Yields(candidates, remover.id, reader.id))
        || (x == reader.id && Yields(candidates, reader.id, remover.id)))
  }

  // What such a pair is refused with.
  ghost predicate Explains(word: Word, edges: Edges, candidates: set<SpecId>, remover: Spec, reader: Spec,
                           why: Reason)
  {
    && PairHolds(word, edges, candidates, remover, reader, why.held) && Names(word, remover, reader, why.subject)
    && why.other == if why.held == remover.id then reader.id else remover.id
  }

  // Each partner is taken as the remover beside each other, in their own order.
  ghost predicate Before(a: nat, b: nat, i: nat, j: nat) {
    a < i || (a == i && b < j)
  }

  // Whom the walk is over.
  datatype Walk = Walk(word: Word, edges: Edges, candidates: set<SpecId>, partners: seq<Spec>) {
    ghost predicate HoldsAt(a: nat, b: nat, x: SpecId) {
      a < |partners| && b < |partners| && PairHolds(word, edges, candidates, partners[a], partners[b], x)
    }

    ghost predicate ExplainsAt(a: nat, b: nat, why: Reason) {
      a < |partners| && b < |partners| && Explains(word, edges, candidates, partners[a], partners[b], why)
    }

    ghost predicate NotYet(i: nat, j: nat, x: SpecId, a: nat, b: nat) {
      a < |partners| && b < |partners| && Before(a, b, i, j) ==> !HoldsAt(a, b, x)
    }

    // No pair before the `i`-th remover beside the `j`-th reader holds it.
    ghost predicate NoneBefore(i: nat, j: nat, x: SpecId) {
      forall a: nat, b: nat :: NotYet(i, j, x, a, b)
    }

    // The first pair that holds a spec is the one it is refused for.
    ghost predicate FirstAt(why: Reason, a: nat, b: nat) {
      ExplainsAt(a, b, why) && NoneBefore(a, b, why.held)
    }

    ghost predicate FoundBefore(why: Reason, i: nat, j: nat, a: nat, b: nat) {
      FirstAt(why, a, b) && Before(a, b, i, j)
    }

    ghost predicate WalkedAt(held: map<SpecId, Reason>, i: nat, j: nat, x: SpecId) {
      if x in held then held[x].held == x && exists a: nat, b: nat :: FoundBefore(held[x], i, j, a, b)
      else NoneBefore(i, j, x)
    }

    // What is held before that pair.
    ghost predicate Walked(held: map<SpecId, Reason>, i: nat, j: nat) {
      forall x :: WalkedAt(held, i, j, x)
    }
  }

  // What looking at one pair does.
  ghost predicate Stepped(word: Word, edges: Edges, candidates: set<SpecId>, remover: Spec, reader: Spec,
                          held: map<SpecId, Reason>, held': map<SpecId, Reason>)
  {
    && Keeps(held, held')
    && forall x :: SteppedAt(word, edges, candidates, remover, reader, held, held', x)
  }

  ghost predicate SteppedAt(word: Word, edges: Edges, candidates: set<SpecId>, remover: Spec, reader: Spec,
                            held: map<SpecId, Reason>, held': map<SpecId, Reason>, x: SpecId)
  {
    && (x in held' <==> x in held || PairHolds(word, edges, candidates, remover, reader, x))
    && (x in held' && x !in held ==> held'[x].held == x && Explains(word, edges, candidates, remover, reader, held'[x]))
  }

  lemma WalkedNext(w: Walk, held: map<SpecId, Reason>, held': map<SpecId, Reason>, i: nat, j: nat, next: nat)
    requires i < |w.partners| && j < |w.partners| && next == j + 1 && w.Walked(held, i, j)
    requires Stepped(w.word, w.edges, w.candidates, w.partners[i], w.partners[j], held, held')
    ensures w.Walked(held', i, next)
  {
    forall x ensures w.WalkedAt(held', i, next, x) {
      assert w.WalkedAt(held, i, j, x);
      assert SteppedAt(w.word, w.edges, w.candidates, w.partners[i], w.partners[j], held, held', x);
      if x in held {
        FoundStill(w, held[x], i, j, i, next);
      } else if x in held' {
        assert w.FoundBefore(held'[x], i, next, i, j);
      } else {
        forall a: nat, b: nat ensures w.NotYet(i, next, x, a, b) { assert w.NotYet(i, j, x, a, b); }
      }
    }
  }

  lemma FoundStill(w: Walk, why: Reason, i: nat, j: nat, k: nat, n: nat)
    requires forall a: nat, b: nat :: Before(a, b, i, j) ==> Before(a, b, k, n)
    requires exists a: nat, b: nat :: w.FoundBefore(why, i, j, a, b)
    ensures exists a: nat, b: nat :: w.FoundBefore(why, k, n, a, b)
  {
    var a: nat, b: nat :| w.FoundBefore(why, i, j, a, b);
    assert w.FoundBefore(why, k, n, a, b);
  }

  // After the last reader comes the next remover.
  lemma WalkedRow(w: Walk, held: map<SpecId, Reason>, i: nat, next: nat)
    requires next == i + 1 && w.Walked(held, i, |w.partners|)
    ensures w.Walked(held, next, 0)
  {
    forall x ensures w.WalkedAt(held, next, 0, x) {
      assert w.WalkedAt(held, i, |w.partners|, x);
      if x in held {
        FoundStill(w, held[x], i, |w.partners|, next, 0);
      } else {
        forall a: nat, b: nat ensures w.NotYet(next, 0, x, a, b) { assert w.NotYet(i, |w.partners|, x, a, b); }
      }
    }
  }

  // Who removes nothing is passed over.
  lemma NothingRemoved(w: Walk, held: map<SpecId, Reason>, i: nat)
    requires i < |w.partners| && w.partners[i].removes == [] && w.Walked(held, i, 0)
    ensures w.Walked(held, i, |w.partners|)
  {
    forall x ensures w.WalkedAt(held, i, |w.partners|, x) {
      assert w.WalkedAt(held, i, 0, x);
      if x in held {
        FoundStill(w, held[x], i, 0, i, |w.partners|);
      } else {
        forall a: nat, b: nat ensures w.NotYet(i, |w.partners|, x, a, b) { assert w.NotYet(i, 0, x, a, b); }
      }
    }
  }

  // A partner is a candidate, or a live spec whose task still waits.
  function Partners(specs: seq<Spec>, candidates: set<SpecId>, waiting: set<SpecId>): (ps: seq<Spec>)
    ensures forall s :: s in ps <==> s in specs && s.id in candidates + waiting
  {
    if specs == [] then [] else
      var rest := Partners(specs[1..], candidates, waiting);
      assert specs == [specs[0]] + specs[1..];
      if specs[0].id in candidates + waiting then [specs[0]] + rest else rest
  }

  // Which of a clashing pair is held, and beside which.
  function Later(candidates: set<SpecId>, remover: Spec, reader: Spec): (pair: Option<(Spec, Spec)>)
    requires remover.id != reader.id
    ensures pair == Some((reader, remover)) || pair == Some((remover, reader)) || pair.None?
    ensures pair.Some? ==> Yields(candidates, pair.value.0.id, pair.value.1.id)
    ensures Yields(candidates, remover.id, reader.id) ==> pair == Some((remover, reader))
    ensures Yields(candidates, reader.id, remover.id) ==> pair == Some((reader, remover))
  {
    IdLeTotal(remover.id, reader.id);
    if remover.id in candidates && reader.id in candidates then
      if IdLe(remover.id, reader.id) then Some((reader, remover)) else Some((remover, reader))
    else if reader.id in candidates then Some((reader, remover))
    else if remover.id in candidates then Some((remover, reader))
    else None
  }

  // One pair of the walk.
  method Look(word: Word, edges: Edges, candidates: set<SpecId>, remover: Spec, reader: Spec,
              held: map<SpecId, Reason>) returns (held': map<SpecId, Reason>)
    ensures Stepped(word, edges, candidates, remover, reader, held, held')
  {
    held' := held;
    if reader.id != remover.id {
      var there := DependsOnPath(remover.id, reader.id, edges);
      var back := DependsOnPath(reader.id, remover.id, edges);
      if !there && !back {
        held' := LookApart(word, edges, candidates, remover, reader, held);
      }
    }
  }

  // Two partners neither of which is above the other.
  method LookApart(word: Word, ghost edges: Edges, candidates: set<SpecId>, remover: Spec, reader: Spec,
                   held: map<SpecId, Reason>) returns (held': map<SpecId, Reason>)
    requires remover.id != reader.id && !Joined(edges, remover.id, reader.id)
    ensures Stepped(word, edges, candidates, remover, reader, held, held')
  {
    held' := held;
    var subject := RemovedNameClash(word, remover, reader);
    var pair := Later(candidates, remover, reader);
    if subject.Some? && pair.Some? {
      held' := SetDefault(held, Reason(pair.value.0.id, pair.value.1.id, subject.value));
    }
    forall x ensures SteppedAt(word, edges, candidates, remover, reader, held, held', x) {
      LaterHolds(word, edges, candidates, remover, reader, x);
    }
  }

  lemma LaterHolds(word: Word, edges: Edges, candidates: set<SpecId>, remover: Spec, reader: Spec, x: SpecId)
    requires remover.id != reader.id && !Joined(edges, remover.id, reader.id)
    ensures PairHolds(word, edges, candidates, remover, reader, x) ==
      (var pair := Later(candidates, remover, reader);
       Clashes(word, remover, reader) && pair.Some? && x == pair.value.0.id)
  {
    IdLeTotal(remover.id, reader.id);
  }

  // The first clash found for an id is the one it is refused with.
  function SetDefault(held: map<SpecId, Reason>, why: Reason): (held': map<SpecId, Reason>)
    ensures Keeps(held, held') && held'.Keys == held.Keys + {why.held}
    ensures why.held !in held ==> held'[why.held] == why
  {
    if why.held in held then held else held[why.held := why]
  }

  predicate Keeps(held: map<SpecId, Reason>, held': map<SpecId, Reason>) {
    forall x :: x in held ==> x in held' && held'[x] == held[x]
  }

  // One remover beside every partner.
  method LookBeside(w: Walk, i: nat, held: map<SpecId, Reason>) returns (held': map<SpecId, Reason>)
    requires i < |w.partners| && w.Walked(held, i, 0)
    ensures w.Walked(held', i, |w.partners|)
  {
    held' := held;
    for j := 0 to |w.partners|
      invariant w.Walked(held', i, j)
    {
      var before := held';
      held' := Look(w.word, w.edges, w.candidates, w.partners[i], w.partners[j], held');
      WalkedNext(w, before, held', i, j, j + 1);
    }
  }

  // The whole walk: every remover beside every reader.
  method LookAll(w: Walk) returns (held: map<SpecId, Reason>)
    ensures w.Walked(held, |w.partners|, 0)
  {
    held := map[];
    for i := 0 to |w.partners|
      invariant w.Walked(held, i, 0)
    {
      if w.partners[i].removes != [] {
        held := LookBeside(w, i, held);
      } else {
        NothingRemoved(w, held, i);
      }
      WalkedRow(w, held, i, i + 1);
    }
  }

  // The edges of every live spec.
  function EdgesOf(specs: seq<Spec>): Edges {
    if specs == [] then map[] else EdgesOf(specs[..|specs| - 1])[specs[|specs| - 1].id := specs[|specs| - 1].dependsOn]
  }

  ghost predicate Held(word: Word, edges: Edges, candidates: set<SpecId>, partners: seq<Spec>, x: Spec) {
    exists other :: other in partners && HeldBy(word, edges, candidates, x, other)
  }

  ghost predicate DistinctSpecs(specs: seq<Spec>) {
    forall a, b :: a in specs && b in specs && a.id == b.id ==> a == b
  }

  // Each refusal is of the first pair of the walk that holds its spec.
  ghost predicate FirstClashes(w: Walk, held: map<SpecId, Reason>) {
    forall x :: x in held ==> held[x].held == x && exists a: nat, b: nat :: w.FirstAt(held[x], a, b)
  }

  /** Every candidate a removed-name clash holds, whatever order the specs are
      read in, each with the first clash it is part of in that order. */
  method RemovedNameRefusals(word: Word, specs: seq<Spec>, candidates: set<SpecId>, waiting: set<SpecId>)
    returns (held: map<SpecId, Reason>)
    requires DistinctSpecs(specs)
    ensures var partners := Partners(specs, candidates, waiting);
      && FirstClashes(Walk(word, EdgesOf(specs), candidates, partners), held)
      && forall s :: s in partners ==> (s.id in held <==> Held(word, EdgesOf(specs), candidates, partners, s))
  {
    var w := Walk(word, EdgesOf(specs), candidates, Partners(specs, candidates, waiting));
    held := LookAll(w);
    WalkedIsFirst(w, held);
    forall s | s in w.partners ensures s.id in held <==> Held(word, w.edges, candidates, w.partners, s) {
      HeldIff(w, held, s);
    }
  }

  lemma WalkedIsFirst(w: Walk, held: map<SpecId, Reason>)
    requires w.Walked(held, |w.partners|, 0)
    ensures FirstClashes(w, held)
  {
    forall x | x in held ensures held[x].held == x && exists a: nat, b: nat :: w.FirstAt(held[x], a, b) {
      assert w.WalkedAt(held, |w.partners|, 0, x);
      var a: nat, b: nat :| w.FoundBefore(held[x], |w.partners|, 0, a, b);
      assert w.FirstAt(held[x], a, b);
    }
  }

  lemma HeldIff(w: Walk, held: map<SpecId, Reason>, s: Spec)
    requires DistinctSpecs(w.partners) && s in w.partners && w.Walked(held, |w.partners|, 0)
    ensures s.id in held <==> Held(w.word, w.edges, w.candidates, w.partners, s)
  {
    assert w.WalkedAt(held, |w.partners|, 0, s.id);
    if s.id in held {
      var a: nat, b: nat :| w.FoundBefore(held[s.id], |w.partners|, 0, a, b);
      HolderIsHeld(w, a, b, held[s.id], s);
    } else if Held(w.word, w.edges, w.candidates, w.partners, s) {
      var a, b := HeldHasPair(w, s);
      NoneHolds(w, s.id, a, b);
      assert false;
    }
  }

  lemma HeldHasPair(w: Walk, s: Spec) returns (a: nat, b: nat)
    requires s in w.partners && Held(w.word, w.edges, w.candidates, w.partners, s)
    ensures w.HoldsAt(a, b, s.id)
  {
    var other :| other in w.partners && HeldBy(w.word, w.edges, w.candidates, s, other);
    a :| 0 <= a < |w.partners| && w.partners[a] == s;
    b :| 0 <= b < |w.partners| && w.partners[b] == other;
    if !Clashes(w.word, s, other) {
      a, b := b, a;
    }
  }

  lemma NoneHolds(w: Walk, x: SpecId, a: nat, b: nat)
    requires w.NoneBefore(|w.partners|, 0, x)
    ensures !w.HoldsAt(a, b, x)
  {
    assert w.NotYet(|w.partners|, 0, x, a, b);
  }

  lemma HolderIsHeld(w: Walk, a: nat, b: nat, why: Reason, s: Spec)
    requires DistinctSpecs(w.partners) && s in w.partners && w.ExplainsAt(a, b, why) && why.held == s.id
    ensures Held(w.word, w.edges, w.candidates, w.partners, s)
  {
    var remover, reader := w.partners[a], w.partners[b];
    assert remover in w.partners && reader in w.partners;
    assert HeldBy(w.word, w.edges, w.candidates, s, if why.held == remover.id then reader else remover);
  }

  // ---------------------------------------------------------------------------
  // What the refusals are for

  /** No two specs that may still run tonight clash: neither two candidates left,
      nor one of them and a spec whose branch still waits. */
  lemma NoneLeftClash(word: Word, edges: Edges, candidates: set<SpecId>, partners: seq<Spec>, held: set<SpecId>,
                      a: Spec, b: Spec)
    requires a in partners && b in partners
    requires forall s :: s in partners ==> (s.id in held <==> Held(word, edges, candidates, partners, s))
    requires a.id in candidates - held && b.id !in held
    ensures !Apart(word, edges, a, b)
  {
    if Apart(word, edges, a, b) { OneYields(word, edges, candidates, partners, a, b); }
  }

  lemma OneYields(word: Word, edges: Edges, candidates: set<SpecId>, partners: seq<Spec>, a: Spec, b: Spec)
    requires a in partners && b in partners && a.id in candidates && Apart(word, edges, a, b)
    ensures Held(word, edges, candidates, partners, a) || Held(word, edges, candidates, partners, b)
  {
    IdLeTotal(a.id, b.id);
    if Yields(candidates, a.id, b.id) {
      assert HeldBy(word, edges, candidates, a, b);
    } else {
      assert HeldBy(word, edges, candidates, b, a);
    }
  }

  /** The refusals never hold the whole queue against itself: the lowest
      candidate is held only beside a spec that waits. */
  lemma LowestYieldsToWaitingOnly(word: Word, edges: Edges, candidates: set<SpecId>, a: Spec, other: Spec)
    requires forall c :: c in candidates ==> IdLe(a.id, c)
    requires HeldBy(word, edges, candidates, a, other)
    ensures other.id !in candidates
  {
    IdLeTotal(a.id, other.id);
  }

  /** Declaring one the parent of the other lifts a clash. */
  lemma ParentLiftsClash(word: Word, edges: Edges, a: Spec, b: Spec)
    requires b.id in Succ(edges, a.id)
    ensures !Apart(word, edges, a, b) && !Apart(word, edges, b, a)
  {
    EdgeReaches(edges, a.id, b.id);
  }
}
