/** Redacting a cell-authored value at every depth with an explicit stack, as
    `_redact_nested` of saffron/events.py does: new containers are made empty,
    put on the stack, and filled in place when their turn comes. */
module Redact {
  import opened Lists

  // A mapping's key: a string, or anything else, kept as it is.
  datatype Key = KeyText(text: string) | KeyOther(n: int)

  // A value as JSON has it. `Plain` is a number, a boolean or null.
  datatype Json = Text(text: string) | Plain(n: int) | List(items: seq<Json>) | Dict(pairs: seq<(Key, Json)>)

  // One text redacted, and the descriptions of what was found in it.
  type Redactor = string -> (string, seq<string>)

  predicate IsContainer(v: Json) {
    v.List? || v.Dict?
  }

  // What a container holds, in order: `items()` or `enumerate`.
  function Pairs(v: Json): (r: seq<(Key, Json)>)
    requires IsContainer(v)
    ensures |r| == if v.Dict? then |v.pairs| else |v.items|
  {
    if v.Dict? then v.pairs else seq(|v.items|, i requires 0 <= i < |v.items| => (KeyOther(i), v.items[i]))
  }

  // Assigning a key of a mapping: in its own place if it is there already.
  function Assign<T>(entries: seq<(Key, T)>, key: Key, x: T): seq<(Key, T)> {
    if entries == [] then [(key, x)]
    else if entries[0].0 == key then [(key, x)] + entries[1..]
    else [entries[0]] + Assign(entries[1..], key, x)
  }

  function RedactedKey(r: Redactor, key: Key): Key {
    if key.KeyText? then KeyText(r(key.text).0) else key
  }

  // One more entry of a container being filled.
  function Put<T>(r: Redactor, dict: bool, entries: seq<(Key, T)>, key: Key, x: T): seq<(Key, T)> {
    if dict then Assign(entries, RedactedKey(r, key), x) else entries + [(key, x)]
  }

  // What a container comes to hold: its own children under redacted keys, a
  // later one in the place of an earlier one that redacts to the same key.
  function Merged(r: Redactor, dict: bool, pairs: seq<(Key, Json)>): seq<(Key, Json)> {
    if pairs == [] then [] else
      Put(r, dict, Merged(r, dict, pairs[..|pairs| - 1]), pairs[|pairs| - 1].0, pairs[|pairs| - 1].1)
  }

  lemma {:induction false} AssignHolds<T>(entries: seq<(Key, T)>, key: Key, x: T, e: (Key, T))
    requires e in Assign(entries, key, x)
    ensures e == (key, x) || e in entries
  {
    if entries != [] && entries[0].0 != key && e != entries[0] {
      AssignHolds(entries[1..], key, x, e);
    }
  }

  lemma {:induction false} MergedHolds(r: Redactor, dict: bool, pairs: seq<(Key, Json)>, j: nat)
    requires j < |Merged(r, dict, pairs)|
    ensures exists k :: 0 <= k < |pairs| && pairs[k].1 == Merged(r, dict, pairs)[j].1
  {
    var init, last := pairs[..|pairs| - 1], pairs[|pairs| - 1];
    var e := Merged(r, dict, pairs)[j];
    if e.1 != last.1 {
      var before := Merged(r, dict, init);
      assert e in before by {
        if dict { AssignHolds(before, RedactedKey(r, last.0), last.1, e); }
      }
      var i :| 0 <= i < |before| && before[i] == e;
      MergedHolds(r, dict, init, i);
      var k :| 0 <= k < |init| && init[k].1 == before[i].1;
      assert pairs[k].1 == e.1;
    } else {
      assert pairs[|pairs| - 1].1 == e.1;
    }
  }

  // ---------------------------------------------------------------------------
  // The containers built

  class Container {
    const dict: bool
    var entries: seq<(Key, Slot)>

    constructor (dict: bool)
      ensures this.dict == dict && entries == []
    {
      this.dict, entries := dict, [];
    }
  }

  datatype Slot = Leaf(text: string) | Kept(n: int) | Box(container: Container)

  // What the entries of a container show of the children they stand for, each
  // nested container being the one made for its child.
  ghost predicate ShowsOne(r: Redactor, made: map<Container, Json>, slot: Slot, child: Json) {
    match child
    case Text(text) => slot == Leaf(r(text).0)
    case Plain(n) => slot == Kept(n)
    case _ => slot.Box? && slot.container in made && made[slot.container] == child
  }

  ghost predicate Shows(r: Redactor, made: map<Container, Json>, entries: seq<(Key, Slot)>, merged: seq<(Key, Json)>) {
    |entries| == |merged| &&
    (entries != [] ==>
      && entries[0].0 == merged[0].0 && ShowsOne(r, made, entries[0].1, merged[0].1)
      && Shows(r, made, entries[1..], merged[1..]))
  }

  lemma {:induction false} ShowsAt(r: Redactor, made: map<Container, Json>, entries: seq<(Key, Slot)>,
                                   merged: seq<(Key, Json)>, j: nat)
    requires Shows(r, made, entries, merged) && j < |entries|
    ensures entries[j].0 == merged[j].0 && ShowsOne(r, made, entries[j].1, merged[j].1)
  {
    if j > 0 { ShowsAt(r, made, entries[1..], merged[1..], j - 1); }
  }

  lemma {:induction false} ShowsMore(r: Redactor, made: map<Container, Json>, entries: seq<(Key, Slot)>,
                                     merged: seq<(Key, Json)>, c: Container, v: Json)
    requires Shows(r, made, entries, merged) && c !in made
    ensures Shows(r, made[c := v], entries, merged)
  {
    if entries != [] { ShowsMore(r, made, entries[1..], merged[1..], c, v); }
  }

  // Filling one entry keeps the container showing what it stands for.
  lemma {:induction false} AssignShows(r: Redactor, made: map<Container, Json>, entries: seq<(Key, Slot)>,
                                       merged: seq<(Key, Json)>, key: Key, slot: Slot, child: Json)
    requires Shows(r, made, entries, merged) && ShowsOne(r, made, slot, child)
    ensures Shows(r, made, Assign(entries, key, slot), Assign(merged, key, child))
  {
    if entries != [] {
      if entries[0].0 != key {
        AssignShows(r, made, entries[1..], merged[1..], key, slot, child);
      }
      var a, b := Assign(entries, key, slot), Assign(merged, key, child);
      assert a[1..] == (if entries[0].0 == key then entries[1..] else Assign(entries[1..], key, slot));
      assert b[1..] == (if entries[0].0 == key then merged[1..] else Assign(merged[1..], key, child));
    }
  }

  lemma {:induction false} AppendShows(r: Redactor, made: map<Container, Json>, entries: seq<(Key, Slot)>,
                                       merged: seq<(Key, Json)>, key: Key, slot: Slot, child: Json)
    requires Shows(r, made, entries, merged) && ShowsOne(r, made, slot, child)
    ensures Shows(r, made, entries + [(key, slot)], merged + [(key, child)])
  {
    if entries == [] {
      assert (entries + [(key, slot)])[1..] == [] && (merged + [(key, child)])[1..] == [];
    } else {
      AppendShows(r, made, entries[1..], merged[1..], key, slot, child);
      assert (entries + [(key, slot)])[1..] == entries[1..] + [(key, slot)];
      assert (merged + [(key, child)])[1..] == merged[1..] + [(key, child)];
    }
  }

  lemma PutShows(r: Redactor, made: map<Container, Json>, dict: bool, entries: seq<(Key, Slot)>,
                 merged: seq<(Key, Json)>, key: Key, slot: Slot, child: Json)
    requires Shows(r, made, entries, merged) && ShowsOne(r, made, slot, child)
    ensures Shows(r, made, Put(r, dict, entries, key, slot), Put(r, dict, merged, key, child))
  {
    if dict { AssignShows(r, made, entries, merged, RedactedKey(r, key), slot, child); }
    else { AppendShows(r, made, entries, merged, key, slot, child); }
  }

  // ---------------------------------------------------------------------------
  // The recursive map it equals

  function Child(v: Json, k: nat): (c: Json)
    requires IsContainer(v) && k < |Pairs(v)|
    ensures c == Pairs(v)[k].1 && c < v
  {
    if v.Dict? then v.pairs[k].1 else v.items[k]
  }

  lemma MergedChild(r: Redactor, v: Json, j: nat)
    requires IsContainer(v) && j < |Merged(r, v.Dict?, Pairs(v))|
    ensures Merged(r, v.Dict?, Pairs(v))[j].1 < v
  {
    MergedHolds(r, v.Dict?, Pairs(v), j);
    var k :| 0 <= k < |Pairs(v)| && Pairs(v)[k].1 == Merged(r, v.Dict?, Pairs(v))[j].1;
    assert Child(v, k) < v;
  }

  // Every string leaf and every key redacted, at any depth.
  ghost function Redacted(r: Redactor, v: Json): Json
    decreases v
  {
    match v
    case Text(text) => Text(r(text).0)
    case Plain(n) => v
    case List(items) => List(seq(|items|, i requires 0 <= i < |items| => Redacted(r, items[i])))
    case Dict(pairs) =>
      var merged := Merged(r, true, pairs);
      Dict(seq(|merged|, j requires 0 <= j < |merged| => MergedChild(r, v, j); (merged[j].0, Redacted(r, merged[j].1))))
  }

  // What a slot holds, read back through the containers.
  ghost predicate Reads(slot: Slot, out: Json, repr: set<Container>)
    reads repr
    decreases out
  {
    match out
    case Text(text) => slot == Leaf(text)
    case Plain(n) => slot == Kept(n)
    case List(items) =>
      && slot.Box? && slot.container in repr && !slot.container.dict && |slot.container.entries| == |items|
      && forall j :: 0 <= j < |items| ==>
          slot.container.entries[j].0 == KeyOther(j) && Reads(slot.container.entries[j].1, items[j], repr)
    case Dict(pairs) =>
      && slot.Box? && slot.container in repr && slot.container.dict && |slot.container.entries| == |pairs|
      && forall j :: 0 <= j < |pairs| ==>
          slot.container.entries[j].0 == pairs[j].0 && Reads(slot.container.entries[j].1, pairs[j].1, repr)
  }

  lemma {:induction false} MergedList(r: Redactor, pairs: seq<(Key, Json)>)
    ensures Merged(r, false, pairs) == pairs
  {
    if pairs != [] { MergedList(r, pairs[..|pairs| - 1]); }
  }

  // A container filled with what its value's entries come to.
  ghost predicate Filled(r: Redactor, made: map<Container, Json>, c: Container)
    requires c in made && IsContainer(made[c])
    reads c
  {
    c.dict == made[c].Dict? && Shows(r, made, c.entries, Merged(r, c.dict, Pairs(made[c])))
  }

  // Once every container made is filled, each reads back as its value redacted.
  lemma {:induction false} FilledReads(r: Redactor, made: map<Container, Json>, slot: Slot, v: Json)
    requires forall c :: c in made ==> IsContainer(made[c]) && Filled(r, made, c)
    requires ShowsOne(r, made, slot, v)
    ensures Reads(slot, Redacted(r, v), made.Keys)
    decreases v
  {
    if IsContainer(v) {
      var c := slot.container;
      var merged := Merged(r, c.dict, Pairs(v));
      if v.List? { MergedList(r, Pairs(v)); }
      forall j | 0 <= j < |merged|
        ensures c.entries[j].0 == merged[j].0 && Reads(c.entries[j].1, Redacted(r, merged[j].1), made.Keys)
      {
        ShowsAt(r, made, c.entries, merged, j);
        MergedChild(r, v, j);
        FilledReads(r, made, c.entries[j].1, merged[j].1);
      }
    }
  }

  // ---------------------------------------------------------------------------
  // What is found, and in which order

  function Seen(kinds: seq<string>): set<string> {
    set kind | kind in kinds
  }

  // No description twice.
  ghost predicate Once(kinds: seq<string>) {
    forall i, j :: 0 <= i < j < |kinds| ==> kinds[i] != kinds[j]
  }

  // Descriptions noted one after another, none of them a second time.
  function Noted(found: seq<string>, kinds: seq<string>): seq<string> {
    NotedTo(found, kinds, |kinds|)
  }

  function NotedTo(found: seq<string>, kinds: seq<string>, n: nat): seq<string>
    requires n <= |kinds|
  {
    if n == 0 then found else
      var before := NotedTo(found, kinds, n - 1);
      if kinds[n - 1] in before then before else before + [kinds[n - 1]]
  }

  lemma {:induction false} NotedBefore(found: seq<string>, a: seq<string>, b: seq<string>, n: nat)
    requires n <= |a|
    ensures NotedTo(found, a + b, n) == NotedTo(found, a, n)
  {
    if n > 0 {
      NotedBefore(found, a, b, n - 1);
    }
  }

  lemma {:induction false} NotedPast(found: seq<string>, a: seq<string>, b: seq<string>, n: nat)
    requires n <= |b|
    ensures NotedTo(found, a + b, |a| + n) == NotedTo(Noted(found, a), b, n)
  {
    if n == 0 {
      NotedBefore(found, a, b, |a|);
    } else {
      NotedPast(found, a, b, n - 1);
      assert (a + b)[|a| + n - 1] == b[n - 1];
    }
  }

  lemma NotedConcat(found: seq<string>, a: seq<string>, b: seq<string>)
    ensures Noted(found, a + b) == Noted(Noted(found, a), b)
  {
    NotedPast(found, a, b, |b|);
  }

  // Where a description is met first.
  ghost predicate FirstAt(kinds: seq<string>, at: nat, kind: string) {
    at < |kinds| && kinds[at] == kind && forall c :: 0 <= c < at ==> kinds[c] != kind
  }

  ghost predicate PlaceAt(kinds: seq<string>, n: nat, noted: seq<string>, places: seq<nat>, i: nat) {
    i < |noted| ==> i < |places| && places[i] < n && FirstAt(kinds, places[i], noted[i])
  }

  ghost predicate RisesAt(places: seq<nat>, i: nat, j: nat) {
    i < j < |places| ==> places[i] < places[j]
  }

  ghost predicate MetAt(kinds: seq<string>, n: nat, noted: seq<string>, k: nat) {
    k < n && k < |kinds| ==> kinds[k] in noted
  }

  // Of the first `n` descriptions met, each of `noted` is met first at a place of
  // its own, the places in order, and no other is met.
  ghost predicate FirstSeen(kinds: seq<string>, n: nat, noted: seq<string>, places: seq<nat>) {
    && |places| == |noted| && (forall i :: PlaceAt(kinds, n, noted, places, i))
    && (forall i, j :: RisesAt(places, i, j)) && forall k :: MetAt(kinds, n, noted, k)
  }

  /** What is noted is each description met, once, in the order first met. */
  lemma {:induction false} NotedIsFirstSeen(kinds: seq<string>, n: nat) returns (places: seq<nat>)
    requires n <= |kinds|
    ensures FirstSeen(kinds, n, NotedTo([], kinds, n), places)
  {
    places := [];
    if n > 0 {
      var before := NotedIsFirstSeen(kinds, n - 1);
      places := SeenNext(kinds, n - 1, NotedTo([], kinds, n - 1), before);
    }
  }

  lemma SeenNext(kinds: seq<string>, n: nat, noted: seq<string>, places: seq<nat>) returns (next: seq<nat>)
    requires n < |kinds| && FirstSeen(kinds, n, noted, places)
    ensures FirstSeen(kinds, n + 1, if kinds[n] in noted then noted else noted + [kinds[n]], next)
  {
    var more := n + 1;
    if kinds[n] in noted {
      next := places;
      forall i: nat ensures PlaceAt(kinds, more, noted, next, i) { assert PlaceAt(kinds, n, noted, places, i); }
      forall k: nat ensures MetAt(kinds, more, noted, k) { assert MetAt(kinds, n, noted, k); }
    } else {
      next := places + [n];
      var noted' := noted + [kinds[n]];
      NewIsFirst(kinds, n, noted);
      forall i: nat ensures PlaceAt(kinds, more, noted', next, i) { assert PlaceAt(kinds, n, noted, places, i); }
      forall i: nat, j: nat ensures RisesAt(next, i, j) {
        assert RisesAt(places, i, j) && PlaceAt(kinds, n, noted, places, i);
      }
      forall k: nat ensures MetAt(kinds, more, noted', k) { assert MetAt(kinds, n, noted, k); }
    }
  }

  lemma NewIsFirst(kinds: seq<string>, n: nat, noted: seq<string>)
    requires n < |kinds| && kinds[n] !in noted && forall k :: MetAt(kinds, n, noted, k)
    ensures FirstAt(kinds, n, kinds[n])
  {
    forall c | 0 <= c < n ensures kinds[c] != kinds[n] { assert MetAt(kinds, n, noted, c); }
  }

  lemma FirstSeenIsOnce(kinds: seq<string>, n: nat, noted: seq<string>, places: seq<nat>)
    requires FirstSeen(kinds, n, noted, places)
    ensures Once(noted)
  {
    forall i, j | 0 <= i < j < |noted| ensures noted[i] != noted[j] {
      assert PlaceAt(kinds, n, noted, places, i) && PlaceAt(kinds, n, noted, places, j) && RisesAt(places, i, j);
    }
  }

  lemma {:induction false} NotedSeen(found: seq<string>, kinds: seq<string>, n: nat)
    requires n <= |kinds|
    ensures forall x :: x in NotedTo(found, kinds, n) <==> x in found || x in kinds[..n]
  {
    if n > 0 {
      NotedSeen(found, kinds, n - 1);
      TakeNext(kinds, n - 1);
    }
  }

  // What one entry of a container shows: its text, and its key's after it.
  function LeafKinds(r: Redactor, child: Json): seq<string> {
    if child.Text? then r(child.text).1 else []
  }

  function KeyKinds(r: Redactor, dict: bool, key: Key): seq<string> {
    if dict && key.KeyText? then r(key.text).1 else []
  }

  // What the first `n` entries show, and the containers among them.
  function OwnKinds(r: Redactor, v: Json, n: nat): seq<string>
    requires IsContainer(v) && n <= |Pairs(v)|
  {
    if n == 0 then [] else
      (OwnKinds(r, v, n - 1) + LeafKinds(r, Child(v, n - 1))) + KeyKinds(r, v.Dict?, Pairs(v)[n - 1].0)
  }

  function Below(v: Json, n: nat): (vs: seq<Json>)
    requires IsContainer(v) && n <= |Pairs(v)|
    ensures AllContainers(vs)
  {
    if n == 0 then [] else Below(v, n - 1) + (if IsContainer(Child(v, n - 1)) then [Child(v, n - 1)] else [])
  }

  predicate AllContainers(vs: seq<Json>) {
    forall v :: v in vs ==> IsContainer(v)
  }

  // The containers in a value, itself included.
  ghost function Size(v: Json): nat
    decreases v, 0
  {
    if IsContainer(v) then 1 + SizeUpTo(v, |Pairs(v)|) else 0
  }

  // Those nested below the first `n` entries.
  ghost function SizeUpTo(v: Json, n: nat): nat
    requires IsContainer(v) && n <= |Pairs(v)|
    decreases v, -1, n
  {
    if n == 0 then 0 else SizeUpTo(v, n - 1) + Size(Child(v, n - 1))
  }

  ghost function SizeTo(vs: seq<Json>, n: nat): nat
    requires n <= |vs|
  {
    if n == 0 then 0 else SizeTo(vs, n - 1) + Size(vs[n - 1])
  }

  ghost function SizeAll(vs: seq<Json>): nat {
    SizeTo(vs, |vs|)
  }

  lemma {:induction false} SizeBefore(a: seq<Json>, b: seq<Json>, n: nat)
    requires n <= |a|
    ensures SizeTo(a + b, n) == SizeTo(a, n)
  {
    if n > 0 {
      SizeBefore(a, b, n - 1);
    }
  }

  lemma {:induction false} SizePast(a: seq<Json>, b: seq<Json>, n: nat)
    requires n <= |b|
    ensures SizeTo(a + b, |a| + n) == SizeAll(a) + SizeTo(b, n)
  {
    if n == 0 {
      SizeBefore(a, b, |a|);
    } else {
      SizePast(a, b, n - 1);
      assert (a + b)[|a| + n - 1] == b[n - 1];
    }
  }

  lemma {:induction false} BelowSize(v: Json, n: nat)
    requires IsContainer(v) && n <= |Pairs(v)|
    ensures SizeAll(Below(v, n)) == SizeUpTo(v, n)
  {
    if n > 0 {
      BelowSize(v, n - 1);
      if IsContainer(Child(v, n - 1)) {
        SizePast(Below(v, n - 1), [Child(v, n - 1)], 1);
      } else {
        assert Below(v, n) == Below(v, n - 1);
      }
    }
  }

  // The stack once its top has been walked: smaller.
  ghost function Walked(below: seq<Json>, top: Json): (vs: seq<Json>)
    requires IsContainer(top) && AllContainers(below)
    ensures AllContainers(vs) && SizeAll(vs) < SizeAll(below + [top])
  {
    BelowSize(top, |Pairs(top)|);
    Shrinks(below, Below(top, |Pairs(top)|), top);
    below + Below(top, |Pairs(top)|)
  }

  lemma Shrinks(below: seq<Json>, inside: seq<Json>, top: Json)
    requires SizeAll(inside) < Size(top)
    ensures SizeAll(below + inside) < SizeAll(below + [top])
  {
    SizePast(below, inside, |inside|);
    SizePast(below, [top], 1);
    assert SizeTo([top], 0) == 0;
  }

  // What a walk over a stack of containers meets: the top's own entries, then what
  // its containers, the last on top, leave to walk.
  ghost function WalkKinds(r: Redactor, stack: seq<Json>): seq<string>
    requires AllContainers(stack)
    decreases SizeAll(stack)
  {
    if stack == [] then [] else
      var below, top := stack[..|stack| - 1], stack[|stack| - 1];
      assert below + [top] == stack;
      OwnKinds(r, top, |Pairs(top)|) + WalkKinds(r, Walked(below, top))
  }

  lemma WalkTurn(r: Redactor, found: seq<string>, below: seq<Json>, top: Json)
    requires IsContainer(top) && AllContainers(below)
    ensures AllContainers(below + [top])
    ensures Noted(found, WalkKinds(r, below + [top]))
      == Noted(Noted(found, OwnKinds(r, top, |Pairs(top)|)), WalkKinds(r, Walked(below, top)))
  {
    assert (below + [top])[..|below|] == below;
    NotedConcat(found, OwnKinds(r, top, |Pairs(top)|), WalkKinds(r, Walked(below, top)));
  }

  // What a walk over one value meets.
  ghost function MetKinds(r: Redactor, v: Json): seq<string> {
    if IsContainer(v) then WalkKinds(r, [v]) else LeafKinds(r, v)
  }

  // ---------------------------------------------------------------------------
  // The same, as a set of what a value holds at any depth

  ghost predicate Holds(r: Redactor, v: Json, kind: string)
    decreases v, 0
  {
    if IsContainer(v) then HoldsUpTo(r, v, |Pairs(v)|, kind) else kind in LeafKinds(r, v)
  }

  ghost predicate HoldsUpTo(r: Redactor, v: Json, n: nat, kind: string)
    requires IsContainer(v) && n <= |Pairs(v)|
    decreases v, -1, n
  {
    n > 0 &&
    (|| HoldsUpTo(r, v, n - 1, kind) || Holds(r, Child(v, n - 1), kind)
     || kind in KeyKinds(r, v.Dict?, Pairs(v)[n - 1].0))
  }

  ghost predicate AnyHolds(r: Redactor, vs: seq<Json>, kind: string) {
    exists v :: v in vs && Holds(r, v, kind)
  }

  lemma {:induction false} HoldsBelow(r: Redactor, v: Json, n: nat, kind: string)
    requires IsContainer(v) && n <= |Pairs(v)|
    ensures HoldsUpTo(r, v, n, kind) <==> kind in OwnKinds(r, v, n) || AnyHolds(r, Below(v, n), kind)
  {
    if n > 0 {
      HoldsBelow(r, v, n - 1, kind);
      var child := Child(v, n - 1);
      assert IsContainer(child) ==> child in Below(v, n);
    }
  }

  /** A walk meets exactly what its values hold. */
  lemma {:induction false} WalkMeetsAll(r: Redactor, stack: seq<Json>, kind: string)
    requires AllContainers(stack)
    ensures kind in WalkKinds(r, stack) <==> AnyHolds(r, stack, kind)
    decreases SizeAll(stack)
  {
    if stack != [] {
      var below, top := stack[..|stack| - 1], stack[|stack| - 1];
      assert stack == below + [top];
      WalkMeetsAll(r, Walked(below, top), kind);
      HoldsBelow(r, top, |Pairs(top)|, kind);
      assert forall v :: v in stack <==> v in below || v == top;
    }
  }

  /** The descriptions found in a value are those it holds at any depth, dict keys
      included, each once. */
  lemma FoundIsHeld(r: Redactor, v: Json)
    ensures Once(Noted([], MetKinds(r, v)))
    ensures forall kind :: kind in Noted([], MetKinds(r, v)) <==> Holds(r, v, kind)
  {
    var met := MetKinds(r, v);
    var places := NotedIsFirstSeen(met, |met|);
    FirstSeenIsOnce(met, |met|, Noted([], met), places);
    NotedSeen([], met, |met|);
    TakeAll(met);
    forall kind ensures kind in met <==> Holds(r, v, kind) {
      if IsContainer(v) { WalkMeetsAll(r, [v], kind); }
    }
  }

  // ---------------------------------------------------------------------------
  // The walk

  // One text redacted, its new descriptions noted in the order they came.
  method RedactLeaf(r: Redactor, text: string, found: seq<string>) returns (redacted: string, found': seq<string>)
    ensures redacted == r(text).0 && found' == Noted(found, r(text).1)
  {
    var kinds := r(text).1;
    redacted, found' := r(text).0, found;
    for i := 0 to |kinds|
      invariant found' == NotedTo(found, kinds, i)
    {
      if kinds[i] !in found' {
        found' := found' + [kinds[i]];
      }
    }
  }

  // What one child becomes in the container being filled: redacted, kept, or a
  // new container of its own to be filled later.
  method Build(r: Redactor, child: Json, ghost made: map<Container, Json>, found: seq<string>)
    returns (slot: Slot, added: seq<(Json, Container)>, found': seq<string>, ghost made': map<Container, Json>)
    ensures ShowsOne(r, made', slot, child) && found' == Noted(found, LeafKinds(r, child))
    ensures if IsContainer(child)
      then exists c ::
        && fresh(c) && c !in made && added == [(child, c)] && made' == made[c := child]
        && c.dict == child.Dict? && c.entries == []
      else added == [] && made' == made
  {
    added, found', made' := [], found, made;
    match child {
      case Text(text) =>
        var redacted;
        redacted, found' := RedactLeaf(r, text, found);
        slot := Leaf(redacted);
      case Plain(n) =>
        slot := Kept(n);
      case _ =>
        var c := new Container(child.Dict?);
        slot, added, made' := Box(c), [(child, c)], made[c := child];
    }
  }

  ghost predicate Extends(made: map<Container, Json>, made': map<Container, Json>) {
    forall c :: c in made ==> c in made' && made'[c] == made[c]
  }

  lemma {:induction false} ShowsStill(r: Redactor, made: map<Container, Json>, made': map<Container, Json>,
                                      entries: seq<(Key, Slot)>, merged: seq<(Key, Json)>)
    requires Extends(made, made') && Shows(r, made, entries, merged)
    ensures Shows(r, made', entries, merged)
  {
    if entries != [] { ShowsStill(r, made, made', entries[1..], merged[1..]); }
  }

  function OnStack(stack: seq<(Json, Container)>): set<Container> {
    if stack == [] then {} else OnStack(stack[..|stack| - 1]) + {stack[|stack| - 1].1}
  }

  // Every container on the stack is empty, made for the value it waits with, and
  // on the stack once.
  ghost predicate Waiting(made: map<Container, Json>, stack: seq<(Json, Container)>)
    reads OnStack(stack)
  {
    stack == [] ||
    (var init, last := stack[..|stack| - 1], stack[|stack| - 1];
     && Waiting(made, init) && last.1 !in OnStack(init)
     && last.1 in made && made[last.1] == last.0 && IsContainer(last.0)
     && last.1.entries == [] && last.1.dict == last.0.Dict?)
  }

  lemma {:induction false} WaitingStill(made: map<Container, Json>, made': map<Container, Json>,
                                        stack: seq<(Json, Container)>)
    requires Extends(made, made') && Waiting(made, stack)
    ensures Waiting(made', stack)
  {
    if stack != [] { WaitingStill(made, made', stack[..|stack| - 1]); }
  }

  lemma {:induction false} WaitingConcat(made: map<Container, Json>, a: seq<(Json, Container)>,
                                         b: seq<(Json, Container)>)
    requires Waiting(made, a) && Waiting(made, b) && OnStack(a) !! OnStack(b)
    ensures Waiting(made, a + b) && OnStack(a + b) == OnStack(a) + OnStack(b)
  {
    if b == [] {
      assert a + b == a;
    } else {
      WaitingConcat(made, a, b[..|b| - 1]);
      assert (a + b)[..|a + b| - 1] == a + b[..|b| - 1];
    }
  }

  // What filling one container has made and stacked so far.
  ghost predicate Stacked(made0: map<Container, Json>, made: map<Container, Json>, added: seq<(Json, Container)>)
    reads OnStack(added)
  {
    && Waiting(made, added) && Extends(made0, made)
    && made.Keys == made0.Keys + OnStack(added) && made0.Keys !! OnStack(added)
  }

  lemma StackedMore(made0: map<Container, Json>, made: map<Container, Json>, added: seq<(Json, Container)>, child: Json,
                    c: Container)
    requires Stacked(made0, made, added) && c !in made && c.entries == [] && c.dict == child.Dict? && IsContainer(child)
    ensures Stacked(made0, made[c := child], added + [(child, c)])
    ensures OnStack(added + [(child, c)]) == OnStack(added) + {c}
  {
    WaitingStill(made, made[c := child], added);
    InitLast(added, (child, c));
  }

  // One entry of the container being filled, under its redacted key.
  method PutEntry(r: Redactor, new_: Container, key: Key, slot: Slot, found: seq<string>) returns (found': seq<string>)
    modifies new_
    ensures new_.entries == Put(r, new_.dict, old(new_.entries), key, slot)
    ensures found' == Noted(found, KeyKinds(r, new_.dict, key))
  {
    found' := found;
    if !new_.dict {
      new_.entries := new_.entries + [(key, slot)];
      return;
    }
    var put := key;
    if key.KeyText? {
      var text;
      text, found' := RedactLeaf(r, key.text, found);
      put := KeyText(text);
    }
    new_.entries := Assign(new_.entries, put, slot);
  }

  // The values waiting on the stack.
  function Values(stack: seq<(Json, Container)>): seq<Json> {
    seq(|stack|, i requires 0 <= i < |stack| => stack[i].0)
  }

  lemma ValuesConcat(a: seq<(Json, Container)>, b: seq<(Json, Container)>)
    ensures Values(a + b) == Values(a) + Values(b)
  {
  }

  lemma {:induction false} WaitingHolds(made: map<Container, Json>, stack: seq<(Json, Container)>)
    requires Waiting(made, stack)
    ensures AllContainers(Values(stack))
  {
    if stack != [] {
      WaitingHolds(made, stack[..|stack| - 1]);
      assert Values(stack) == Values(stack[..|stack| - 1]) + [stack[|stack| - 1].0];
    }
  }

  // One child of the value being walked, stacked if it is a container.
  method StackChild(r: Redactor, child: Json, ghost made0: map<Container, Json>, ghost made: map<Container, Json>,
                    added: seq<(Json, Container)>, found: seq<string>)
    returns (slot: Slot, added': seq<(Json, Container)>, found': seq<string>, ghost made': map<Container, Json>)
    requires Stacked(made0, made, added)
    ensures Stacked(made0, made', added') && Extends(made, made') && ShowsOne(r, made', slot, child)
    ensures forall c :: c in OnStack(added') ==> c in OnStack(added) || fresh(c)
    ensures found' == Noted(found, LeafKinds(r, child))
    ensures Values(added') == Values(added) + (if IsContainer(child) then [child] else [])
  {
    var one;
    slot, one, found', made' := Build(r, child, made, found);
    added' := added + one;
    if IsContainer(child) {
      StackedMore(made0, made, added, child, one[0].1);
    } else {
      assert added' == added;
    }
    ValuesConcat(added, one);
  }

  // What the first `n` entries left, found and to be walked.
  ghost predicate Left(r: Redactor, orig: Json, n: nat, before: seq<string>, found: seq<string>,
                       added: seq<(Json, Container)>)
    requires IsContainer(orig) && n <= |Pairs(orig)|
  {
    found == Noted(before, OwnKinds(r, orig, n)) && Values(added) == Below(orig, n)
  }

  // One entry of the value being walked.
  method FillOne(r: Redactor, orig: Json, i: nat, new_: Container, ghost made0: map<Container, Json>,
                 ghost made: map<Container, Json>,
                 added: seq<(Json, Container)>, found: seq<string>, ghost before: seq<string>)
    returns (added': seq<(Json, Container)>, found': seq<string>, ghost made': map<Container, Json>)
    requires IsContainer(orig) && i < |Pairs(orig)| && new_ in made0 && new_.dict == orig.Dict?
    requires Left(r, orig, i, before, found, added)
    requires Stacked(made0, made, added) && Shows(r, made, new_.entries, Merged(r, new_.dict, Pairs(orig)[..i]))
    modifies new_
    ensures Stacked(made0, made', added') && Left(r, orig, i + 1, before, found', added')
    ensures forall c :: c in OnStack(added') ==> c in OnStack(added) || fresh(c)
    ensures Shows(r, made', new_.entries, Merged(r, new_.dict, Pairs(orig)[..i + 1]))
  {
    var slot, seen;
    ghost var merged := Merged(r, new_.dict, Pairs(orig)[..i]);
    slot, added', seen, made' := StackChild(r, Child(orig, i), made0, made, added, found);
    ShowsStill(r, made, made', new_.entries, merged);
    PutShows(r, made', new_.dict, new_.entries, merged, Pairs(orig)[i].0, slot, Child(orig, i));
    MergedNext(r, new_.dict, Pairs(orig), i);
    assert new_ !in OnStack(added');
    found' := PutEntry(r, new_, Pairs(orig)[i].0, slot, seen);
    NotedNext(r, orig, i, before);
  }

  lemma NotedNext(r: Redactor, orig: Json, i: nat, before: seq<string>)
    requires IsContainer(orig) && i < |Pairs(orig)|
    ensures Noted(before, OwnKinds(r, orig, i + 1)) ==
      Noted(Noted(Noted(before, OwnKinds(r, orig, i)), LeafKinds(r, Child(orig, i))),
            KeyKinds(r, orig.Dict?, Pairs(orig)[i].0))
  {
    NotedConcat(before, OwnKinds(r, orig, i), LeafKinds(r, Child(orig, i)));
    NotedConcat(before, OwnKinds(r, orig, i) + LeafKinds(r, Child(orig, i)), KeyKinds(r, orig.Dict?, Pairs(orig)[i].0));
  }

  lemma MergedNext(r: Redactor, dict: bool, pairs: seq<(Key, Json)>, i: nat)
    requires i < |pairs|
    ensures Merged(r, dict, pairs[..i + 1]) == Put(r, dict, Merged(r, dict, pairs[..i]), pairs[i].0, pairs[i].1)
  {
    TakeNext(pairs, i);
    InitLast(pairs[..i], pairs[i]);
  }

  /** Fills one container from its value: each child redacted or, when it is a
      container, put on the stack behind a new one. */
  method Fill(r: Redactor, orig: Json, new_: Container, ghost made: map<Container, Json>, found: seq<string>)
    returns (added: seq<(Json, Container)>, found': seq<string>, ghost made': map<Container, Json>)
    requires IsContainer(orig) && new_ in made && new_.entries == [] && new_.dict == orig.Dict?
    modifies new_
    ensures fresh(OnStack(added)) && Stacked(made, made', added)
    ensures Shows(r, made', new_.entries, Merged(r, new_.dict, Pairs(orig)))
    ensures Left(r, orig, |Pairs(orig)|, found, found', added)
  {
    added, found', made' := [], found, made;
    for i := 0 to |Pairs(orig)|
      invariant fresh(OnStack(added)) && Stacked(made, made', added)
      invariant Shows(r, made', new_.entries, Merged(r, new_.dict, Pairs(orig)[..i]))
      invariant Left(r, orig, i, found, found', added)
    {
      added, found', made' := FillOne(r, orig, i, new_, made, made', added, found', found);
    }
    TakeAll(Pairs(orig));
  }

  // Every container made that is not waiting on the stack is filled.
  ghost predicate RestFilled(r: Redactor, made: map<Container, Json>, stack: seq<(Json, Container)>)
    reads made.Keys
  {
    forall c :: c in made && c !in OnStack(stack) ==> IsContainer(made[c]) && Filled(r, made, c)
  }

  // The stack between two turns: every container made is filled or waiting.
  ghost predicate Between(r: Redactor, made: map<Container, Json>, stack: seq<(Json, Container)>)
    reads made.Keys, OnStack(stack)
  {
    Waiting(made, stack) && OnStack(stack) <= made.Keys && RestFilled(r, made, stack) && AllContainers(Values(stack))
  }

  /** The value redacted at every depth, dict keys included, in containers of its
      own, and each description of what was found, once, in the order the walk
      first met it. The stack runs empty: each turn takes a container off and puts
      on only smaller ones. */
  method RedactNested(r: Redactor, value: Json) returns (result: Slot, found: seq<string>, ghost repr: set<Container>)
    ensures fresh(repr) && Reads(result, Redacted(r, value), repr)
    ensures found == Noted([], MetKinds(r, value))
  {
    found, repr := [], {};
    if value.Text? {
      var text;
      text, found := RedactLeaf(r, value.text, []);
      return Leaf(text), found, {};
    }
    if value.Plain? {
      return Kept(value.n), [], {};
    }
    var root := new Container(value.Dict?);
    var stack;
    ghost var made;
    stack, made := Begin(r, value, root);
    while stack != []
      invariant fresh(made.Keys) && Between(r, made, stack)
      invariant root in made && made[root] == value
      invariant Noted(found, WalkKinds(r, Values(stack))) == Noted([], WalkKinds(r, [value]))
      decreases SizeAll(Values(stack))
    {
      stack, found, made := Turn(r, stack, made, found);
    }
    FilledReads(r, made, Box(root), value);
    result, repr := Box(root), made.Keys;
  }

  // The root alone on the stack.
  method Begin(r: Redactor, value: Json, root: Container)
    returns (stack: seq<(Json, Container)>, ghost made: map<Container, Json>)
    requires IsContainer(value) && root.dict == value.Dict? && root.entries == []
    ensures stack == [(value, root)] && made == map[root := value] && Values(stack) == [value]
    ensures OnStack(stack) == {root} && Between(r, made, stack)
  {
    stack, made := [(value, root)], map[root := value];
    StackedMore(map[], map[], [], value, root);
    assert [] + [(value, root)] == stack;
  }

  // One turn: the top of the stack filled, its containers stacked.
  method Turn(r: Redactor, stack: seq<(Json, Container)>, ghost made: map<Container, Json>, found: seq<string>)
    returns (stack': seq<(Json, Container)>, found': seq<string>, ghost made': map<Container, Json>)
    requires stack != [] && Between(r, made, stack)
    modifies OnStack(stack)
    ensures Between(r, made', stack') && Extends(made, made') && fresh(made'.Keys - made.Keys)
    ensures Noted(found', WalkKinds(r, Values(stack'))) == Noted(found, WalkKinds(r, Values(stack)))
    ensures SizeAll(Values(stack')) < SizeAll(Values(stack))
  {
    var orig, top, below := stack[|stack| - 1].0, stack[|stack| - 1].1, stack[..|stack| - 1];
    var added;
    added, found', made' := Fill(r, orig, top, made, found);
    stack' := below + added;
    WaitingStill(made, made', below);
    WaitingConcat(made', below, added);
    WalkedValues(r, found, stack, added);
    forall c | c in made' && c !in OnStack(stack') ensures IsContainer(made'[c]) && Filled(r, made', c) {
      if c != top { ShowsStill(r, made, made', c.entries, Merged(r, c.dict, Pairs(made[c]))); }
    }
  }

  // What is left to walk, and to be met, once the top was filled.
  lemma WalkedValues(r: Redactor, found: seq<string>, stack: seq<(Json, Container)>, added: seq<(Json, Container)>)
    requires stack != [] && AllContainers(Values(stack)) && IsContainer(stack[|stack| - 1].0)
    requires var orig := stack[|stack| - 1].0; Values(added) == Below(orig, |Pairs(orig)|)
    ensures var orig, below := stack[|stack| - 1].0, stack[..|stack| - 1];
      && AllContainers(Values(below + added)) && SizeAll(Values(below + added)) < SizeAll(Values(stack))
      && Noted(Noted(found, OwnKinds(r, orig, |Pairs(orig)|)), WalkKinds(r, Values(below + added)))
           == Noted(found, WalkKinds(r, Values(stack)))
  {
    var orig, below := stack[|stack| - 1].0, stack[..|stack| - 1];
    assert Values(stack) == Values(below) + [orig];
    forall v | v in Values(below) ensures IsContainer(v) { assert v in Values(stack); }
    ValuesConcat(below, added);
    assert Values(below + added) == Walked(Values(below), orig);
    WalkTurn(r, found, Values(below), orig);
  }
}
