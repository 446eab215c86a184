/** The end review of saffron/end_review.py and its guard in saffron/cli.py: the
    join lens, then every layer's own two lenses top down, inside one reserve. */
module EndReview {
  import opened SpendBook

  // One lens session that came back, clean or errored.
  datatype Session = Session(cost: real, failed: bool)

  // Where a layer's review broke: before its cell was open, in either session, or
  // as the cell was taken down, with what the session it broke in had cost by then.
  datatype Broke =
    | AtOpening
    | AtSpec(paid: real)
    | AtStandards(spec: Session, paid: real)
    | AtTeardown(spec: Session, standards: Session)

  datatype JoinAnswer = JoinCame(session: Session) | JoinRaised(paid: real)
  datatype LayerAnswer = LayerCame(spec: Session, standards: Session) | LayerRaised(at: Broke)

  // The k-th layer's sessions, top first, and whether the n-th write to the
  // ledger raises.
  datatype Critics = Critics(join: JoinAnswer, layer: nat -> LayerAnswer, writeRaises: nat -> bool)

  ghost predicate SessionWithin(s: Session, budget: real) {
    0.0 <= s.cost <= budget
  }

  ghost predicate BrokeWithin(at: Broke, budget: real) {
    match at
    case AtOpening => true
    case AtSpec(paid) => 0.0 <= paid <= budget
    case AtStandards(spec, paid) => SessionWithin(spec, budget) && 0.0 <= paid <= budget
    case AtTeardown(spec, standards) => SessionWithin(spec, budget) && SessionWithin(standards, budget)
  }

  ghost predicate LayerWithin(w: Critics, budget: real, k: nat) {
    match w.layer(k)
    case LayerCame(spec, standards) => SessionWithin(spec, budget) && SessionWithin(standards, budget)
    case LayerRaised(at) => BrokeWithin(at, budget)
  }

  // Each lens costs between nothing and its own budget, whether it came back or
  // broke.
  ghost predicate Within(w: Critics, budget: real) {
    && (if w.join.JoinCame? then SessionWithin(w.join.session, budget) else 0.0 <= w.join.paid <= budget)
    && forall k :: LayerWithin(w, budget, k)
  }

  function LensRow(task: nat, lens: Lens, s: Session): EndReviewRow {
    EndReviewRow(task, lens, if s.failed then Status.ERROR else REVIEWED, s.cost)
  }

  // One lens's row of the i-th layer, in a walk that reached the first `reached`:
  // not reached, raised, or reviewed.
  function RowOf(w: Critics, layers: seq<LayerRow>, reached: nat, i: nat, lens: Lens): (row: EndReviewRow)
    requires i < |layers|
    ensures row.task == layers[i].task && row.lens == lens
  {
    if i >= reached then EndReviewRow(layers[i].task, lens, NOT_REACHED, 0.0)
    else match w.layer(i)
      case LayerRaised(_) => EndReviewRow(layers[i].task, lens, Status.ERROR, 0.0)
      case LayerCame(spec, standards) => LensRow(layers[i].task, lens, if lens == SpecLens then spec else standards)
  }

  // `rows` with those of the first `n` layers added.
  function Onto(w: Critics, rows: seq<EndReviewRow>, layers: seq<LayerRow>, reached: nat, n: nat): seq<EndReviewRow>
    requires n <= |layers|
  {
    if n == 0 then rows else
      (Onto(w, rows, layers, reached, n - 1) + [RowOf(w, layers, reached, n - 1, SpecLens)])
        + [RowOf(w, layers, reached, n - 1, StandardsLens)]
  }

  // The same, cut short inside a layer or between two.
  function Cut(w: Critics, rows: seq<EndReviewRow>, layers: seq<LayerRow>, reached: nat, n: nat,
               half: bool): seq<EndReviewRow>
    requires n <= |layers| && (half ==> n < |layers|)
  {
    Onto(w, rows, layers, reached, n) + (if half then [RowOf(w, layers, reached, n, SpecLens)] else [])
  }

  // What a layer's review is counted as: nothing when it raised.
  function LayerCost(answer: LayerAnswer): real {
    if answer.LayerRaised? then 0.0 else answer.spec.cost + answer.standards.cost
  }

  // What a review that raised had paid for by then.
  function BrokePaid(at: Broke): real {
    match at
    case AtOpening => 0.0
    case AtSpec(paid) => paid
    case AtStandards(spec, paid) => spec.cost + paid
    case AtTeardown(spec, standards) => spec.cost + standards.cost
  }

  // What of a layer's review is counted as nothing, and what it cost in all.
  function LayerSlip(answer: LayerAnswer): real {
    if answer.LayerRaised? then BrokePaid(answer.at) else 0.0
  }

  function LayerPaid(answer: LayerAnswer): real {
    if answer.LayerRaised? then BrokePaid(answer.at) else answer.spec.cost + answer.standards.cost
  }

  function SlipTo(w: Critics, n: nat): real {
    if n == 0 then 0.0 else SlipTo(w, n - 1) + LayerSlip(w.layer(n - 1))
  }

  function PaidTo(w: Critics, n: nat): real {
    if n == 0 then 0.0 else PaidTo(w, n - 1) + LayerPaid(w.layer(n - 1))
  }

  /** The first `n` layers cost what is counted of them and what is not. */
  lemma {:induction false} PaidIsCounted(w: Critics, n: nat)
    ensures PaidTo(w, n) == WalkCost(w, n) + SlipTo(w, n)
  {
    if n > 0 { PaidIsCounted(w, n - 1); }
  }

  // No layer of the first `n` broke with anything paid.
  ghost predicate FreeAt(w: Critics, n: nat, k: nat) {
    k < n && w.layer(k).LayerRaised? ==> BrokePaid(w.layer(k).at) == 0.0
  }

  lemma {:induction false} SlipIsNone(w: Critics, n: nat, budget: real)
    requires Within(w, budget)
    ensures 0.0 <= SlipTo(w, n) && (SlipTo(w, n) == 0.0 <==> forall k: nat :: FreeAt(w, n, k))
  {
    if n > 0 {
      var last := n - 1;
      SlipIsNone(w, last, budget);
      assert LayerWithin(w, budget, last);
      if SlipTo(w, n) == 0.0 {
        forall k: nat ensures FreeAt(w, n, k) { assert FreeAt(w, last, k); }
      }
      if forall k: nat :: FreeAt(w, n, k) {
        assert FreeAt(w, n, last);
        forall k: nat ensures FreeAt(w, last, k) { assert FreeAt(w, n, k); }
      }
    }
  }

  // How many of the first `n` layers' reviews raised.
  function Breaks(w: Critics, n: nat): nat {
    if n == 0 then 0 else Breaks(w, n - 1) + (if w.layer(n - 1).LayerRaised? then 1 else 0)
  }

  /** Each review that raised slipped at most `most`, what its two lenses may cost. */
  lemma {:induction false} SlipWithin(w: Critics, n: nat, budget: real, most: real)
    requires Within(w, budget) && budget >= 0.0 && most == 2.0 * budget
    ensures SlipTo(w, n) <= Breaks(w, n) as real * most
  {
    if n > 0 {
      SlipWithin(w, n - 1, budget, most);
      assert LayerSlip(w.layer(n - 1)) <= most by { assert LayerWithin(w, budget, n - 1); }
      OneMore(Breaks(w, n - 1), most);
    }
  }

  lemma OneMore(n: nat, usd: real)
    ensures (n + 1) as real * usd == n as real * usd + usd
  {
  }

  // What the first `n` layers are counted as.
  function WalkCost(w: Critics, n: nat): real {
    if n == 0 then 0.0 else WalkCost(w, n - 1) + LayerCost(w.layer(n - 1))
  }

  // Each of the first `n` layers was still covered when it started.
  ghost predicate Covered(w: Critics, reserve: real, budget: real, n: nat) {
    n == 0 || (Covered(w, reserve, budget, n - 1) && reserve - WalkCost(w, n - 1) >= 2.0 * budget)
  }

  // How far down a reserve reaches, and no layer further.
  ghost predicate ReachedExactly(w: Critics, count: nat, reserve: real, budget: real, reached: nat) {
    && reached <= count
    && Covered(w, reserve, budget, reached)
    && (reached < count ==> reserve - WalkCost(w, reached) < 2.0 * budget)
  }

  // The same, as the walk finds it layer by layer.
  function Reach(w: Critics, n: nat, reserve: real, budget: real): (reached: nat)
    ensures reached <= n
  {
    if n == 0 then 0 else
      var reached := Reach(w, n - 1, reserve, budget);
      if reserve - WalkCost(w, reached) >= 2.0 * budget then reached + 1 else reached
  }

  lemma ReachNext(w: Critics, i: nat, reserve: real, budget: real)
    ensures var reached := Reach(w, i, reserve, budget);
      && Reach(w, i + 1, reserve, budget)
        == (if reserve - WalkCost(w, reached) >= 2.0 * budget then reached + 1 else reached)
      && WalkCost(w, i + 1) == WalkCost(w, i) + LayerCost(w.layer(i))
  {
  }

  lemma {:induction false} ReachIsCovered(w: Critics, n: nat, reserve: real, budget: real)
    ensures ReachedExactly(w, n, reserve, budget, Reach(w, n, reserve, budget))
  {
    if n > 0 {
      ReachIsCovered(w, n - 1, reserve, budget);
    }
  }

  lemma {:induction false} CoveredAbove(w: Critics, reserve: real, budget: real, n: nat, k: nat)
    requires Covered(w, reserve, budget, n) && k < n
    ensures reserve - WalkCost(w, k) >= 2.0 * budget
  {
    if k < n - 1 { CoveredAbove(w, reserve, budget, n - 1, k); }
  }

  /** The layers reached are a prefix from the top, as long as the reserve covers
      the next one: there is exactly one such prefix, and the walk finds it. */
  lemma ReachIsExact(w: Critics, n: nat, reserve: real, budget: real, reached: nat)
    ensures ReachedExactly(w, n, reserve, budget, reached) <==> reached == Reach(w, n, reserve, budget)
  {
    var found := Reach(w, n, reserve, budget);
    ReachIsCovered(w, n, reserve, budget);
    if ReachedExactly(w, n, reserve, budget, reached) {
      if reached < found { CoveredAbove(w, reserve, budget, found, reached); }
      if found < reached { CoveredAbove(w, reserve, budget, reached, found); }
    }
  }

  // What the first layers of a walk record of its cost, and the spec lens of one
  // cut short.
  function RecordedCost(w: Critics, layers: seq<LayerRow>, reached: nat, n: nat, half: bool): real
    requires n <= |layers| && (half ==> n < |layers|)
  {
    WalkCost(w, if n < reached then n else reached)
      + (if half then RowOf(w, layers, reached, n, SpecLens).cost else 0.0)
  }

  lemma {:induction false} OntoCost(w: Critics, rows: seq<EndReviewRow>, layers: seq<LayerRow>, reached: nat, n: nat)
    requires n <= |layers|
    ensures ReviewCost(Onto(w, rows, layers, reached, n))
      == ReviewCost(rows) + RecordedCost(w, layers, reached, n, false)
  {
    if n > 0 {
      OntoCost(w, rows, layers, reached, n - 1);
      var before, spec := Onto(w, rows, layers, reached, n - 1), RowOf(w, layers, reached, n - 1, SpecLens);
      ReviewCostAdd(before, spec);
      ReviewCostAdd(before + [spec], RowOf(w, layers, reached, n - 1, StandardsLens));
    }
  }

  lemma CutCost(w: Critics, rows: seq<EndReviewRow>, layers: seq<LayerRow>, reached: nat, n: nat, half: bool)
    requires n <= |layers| && (half ==> n < |layers|)
    ensures ReviewCost(Cut(w, rows, layers, reached, n, half))
      == ReviewCost(rows) + RecordedCost(w, layers, reached, n, half)
  {
    OntoCost(w, rows, layers, reached, n);
    if half {
      ReviewCostAdd(Onto(w, rows, layers, reached, n), RowOf(w, layers, reached, n, SpecLens));
    } else {
      assert Cut(w, rows, layers, reached, n, half) == Onto(w, rows, layers, reached, n);
    }
  }

  lemma {:induction false} WalkCostWithin(w: Critics, n: nat, reserve: real, budget: real)
    requires Within(w, budget) && budget >= 0.0
    requires Covered(w, reserve, budget, n)
    ensures 0.0 <= WalkCost(w, n)
    ensures n > 0 ==> WalkCost(w, n) <= reserve
  {
    if n > 0 {
      WalkCostWithin(w, n - 1, reserve, budget);
      assert LayerWithin(w, budget, n - 1);
    }
  }

  lemma {:induction false} WalkCostGrows(w: Critics, a: nat, b: nat, budget: real)
    requires a <= b && Within(w, budget)
    ensures WalkCost(w, a) <= WalkCost(w, b)
  {
    if a < b {
      WalkCostGrows(w, a, b - 1, budget);
      assert LayerWithin(w, budget, b - 1);
    }
  }

  // ---------------------------------------------------------------------------
  // One row per lens

  function Count(rows: seq<EndReviewRow>, task: nat, lens: Lens): nat {
    if rows == [] then 0 else
      Count(rows[..|rows| - 1], task, lens)
        + (if rows[|rows| - 1].task == task && rows[|rows| - 1].lens == lens then 1 else 0)
  }

  lemma CountAdd(rows: seq<EndReviewRow>, row: EndReviewRow, task: nat, lens: Lens)
    ensures Count(rows + [row], task, lens)
      == Count(rows, task, lens) + (if row.task == task && row.lens == lens then 1 else 0)
  {
    assert (rows + [row])[..|rows|] == rows;
  }

  ghost predicate DistinctTasks(layers: seq<LayerRow>) {
    forall i, j :: 0 <= i < j < |layers| ==> layers[i].task != layers[j].task
  }

  /** A walk files each lens of each layer once, at the layer's own place. */
  lemma {:induction false} OntoCount(w: Critics, rows: seq<EndReviewRow>, layers: seq<LayerRow>, reached: nat, n: nat,
                                     k: nat, lens: Lens)
    requires DistinctTasks(layers) && n <= |layers| && k < |layers| && lens != JoinLens
    ensures Count(Onto(w, rows, layers, reached, n), layers[k].task, lens)
      == Count(rows, layers[k].task, lens) + (if k < n then 1 else 0)
  {
    if n > 0 {
      OntoCount(w, rows, layers, reached, n - 1, k, lens);
      var before, spec := Onto(w, rows, layers, reached, n - 1), RowOf(w, layers, reached, n - 1, SpecLens);
      CountAdd(before, spec, layers[k].task, lens);
      CountAdd(before + [spec], RowOf(w, layers, reached, n - 1, StandardsLens), layers[k].task, lens);
    }
  }

  lemma CutCount(w: Critics, rows: seq<EndReviewRow>, layers: seq<LayerRow>, reached: nat, n: nat, half: bool, k: nat,
                 lens: Lens)
    requires DistinctTasks(layers) && n <= |layers| && (half ==> n < |layers|) && k < |layers| && lens != JoinLens
    ensures Count(Cut(w, rows, layers, reached, n, half), layers[k].task, lens)
      == Count(rows, layers[k].task, lens) + (if k < n || (half && k == n && lens == SpecLens) then 1 else 0)
  {
    OntoCount(w, rows, layers, reached, n, k, lens);
    if half {
      CountAdd(Onto(w, rows, layers, reached, n), RowOf(w, layers, reached, n, SpecLens), layers[k].task, lens);
    } else {
      assert Cut(w, rows, layers, reached, n, half) == Onto(w, rows, layers, reached, n);
    }
  }

  lemma {:induction false} CountIsMembership(rows: seq<EndReviewRow>, task: nat, lens: Lens)
    ensures Count(rows, task, lens) > 0 <==> Written(rows, task, lens)
  {
    if rows != [] {
      CountIsMembership(rows[..|rows| - 1], task, lens);
      assert rows == rows[..|rows| - 1] + [rows[|rows| - 1]];
      if rows[|rows| - 1].task == task && rows[|rows| - 1].lens == lens { assert rows[|rows| - 1] in rows; }
    }
  }

  predicate Written(rows: seq<EndReviewRow>, task: nat, lens: Lens) {
    exists r :: r in rows && r.task == task && r.lens == lens
  }

  // ---------------------------------------------------------------------------
  // Which write to the ledger a walk raises on

  // None of the writes from one place up to another raises.
  ghost predicate ClearAt(w: Critics, from: nat, to: nat, n: nat) {
    from <= n < to ==> !w.writeRaises(n)
  }

  ghost predicate Clear(w: Critics, from: nat, to: nat) {
    forall n :: ClearAt(w, from, to, n)
  }

  lemma ClearOn(w: Critics, from: nat, middle: nat, to: nat)
    requires from <= middle <= to
    ensures Clear(w, from, to) <==> Clear(w, from, middle) && Clear(w, middle, to)
  {
    if Clear(w, from, to) {
      forall n ensures ClearAt(w, from, middle, n) && ClearAt(w, middle, to, n) { assert ClearAt(w, from, to, n); }
    }
    if Clear(w, from, middle) && Clear(w, middle, to) {
      forall n ensures ClearAt(w, from, to, n) { assert ClearAt(w, from, middle, n) && ClearAt(w, middle, to, n); }
    }
  }

  lemma ClearOne(w: Critics, at: nat)
    ensures Clear(w, at, at + 1) <==> !w.writeRaises(at)
  {
    assert ClearAt(w, at, at + 1, at) <==> !w.writeRaises(at);
  }

  // How a walk ends: on the join's writes, inside the n-th layer before or after
  // its spec lens was filed, or past every layer.
  datatype EndStop = Finished | AtJoin | InLayer(n: nat, half: bool)

  // The join's writes: its findings when it came back, and its row.
  function JoinWrites(w: Critics, layers: seq<LayerRow>, reserve: real, budget: real): nat {
    if |layers| < 2 then 0 else if reserve >= budget && w.join.JoinCame? then 2 else 1
  }

  // The writes up to the n-th layer: two rows each, and findings of those reached.
  function LayerWrites(w: Critics, from: nat, left: real, budget: real, n: nat): nat {
    from + 2 * n + Reach(w, n, left, budget)
  }

  function WritesTo(w: Critics, layers: seq<LayerRow>, reserve: real, budget: real, n: nat): nat {
    LayerWrites(w, JoinWrites(w, layers, reserve, budget), reserve - ReviewCost(JoinRows(w, layers, reserve, budget)),
                budget, n)
  }

  // Where the ledger's answers make a walk end.
  ghost predicate StopsAt(w: Critics, layers: seq<LayerRow>, reserve: real, budget: real, stop: EndStop) {
    match stop
    case Finished => Clear(w, 0, WritesTo(w, layers, reserve, budget, |layers|))
    case AtJoin => !Clear(w, 0, JoinWrites(w, layers, reserve, budget))
    case InLayer(n, half) =>
      n < |layers| && LayerStops(w, 0, WritesTo(w, layers, reserve, budget, n),
                                 WritesTo(w, layers, reserve, budget, n + 1), half)
  }

  // A layer's writes start at `first` and end before `next`, its standards row
  // being the last of them. None since `from` raised before them.
  ghost predicate LayerStops(w: Critics, from: nat, first: nat, next: nat, half: bool) {
    && from <= first < next && Clear(w, from, first)
    && if half then Clear(w, first, next - 1) && w.writeRaises(next - 1) else !Clear(w, first, next - 1)
  }

  lemma LayerStopsFrom(w: Critics, from: nat, first: nat, next: nat, half: bool)
    requires Clear(w, 0, from) && LayerStops(w, from, first, next, half)
    ensures LayerStops(w, 0, first, next, half)
  {
    ClearOn(w, 0, from, first);
  }

  lemma {:induction false} WritesGrow(w: Critics, layers: seq<LayerRow>, reserve: real, budget: real, a: nat, b: nat)
    requires a <= b
    ensures JoinWrites(w, layers, reserve, budget) <= WritesTo(w, layers, reserve, budget, a)
      <= WritesTo(w, layers, reserve, budget, b)
    ensures a < b ==> WritesTo(w, layers, reserve, budget, a + 1) <= WritesTo(w, layers, reserve, budget, b)
  {
    if a < b {
      WritesGrow(w, layers, reserve, budget, a, b - 1);
      ReachNext(w, b - 1, reserve - ReviewCost(JoinRows(w, layers, reserve, budget)), budget);
    }
  }

  // A stop no later than another leaves no room for the other.
  lemma StopBefore(w: Critics, layers: seq<LayerRow>, reserve: real, budget: real, n: nat, half: bool, m: nat)
    requires StopsAt(w, layers, reserve, budget, InLayer(n, half)) && n < m
    ensures !Clear(w, 0, WritesTo(w, layers, reserve, budget, m))
  {
    var first, next := WritesTo(w, layers, reserve, budget, n), WritesTo(w, layers, reserve, budget, n + 1);
    WritesGrow(w, layers, reserve, budget, n, m);
    ClearOn(w, 0, next, WritesTo(w, layers, reserve, budget, m));
    ClearOn(w, 0, first, next);
    ClearOn(w, first, next - 1, next);
    ClearOne(w, next - 1);
  }

  lemma JoinBefore(w: Critics, layers: seq<LayerRow>, reserve: real, budget: real, m: nat)
    requires StopsAt(w, layers, reserve, budget, AtJoin)
    ensures !Clear(w, 0, WritesTo(w, layers, reserve, budget, m))
  {
    WritesGrow(w, layers, reserve, budget, 0, m);
    ClearOn(w, 0, JoinWrites(w, layers, reserve, budget), WritesTo(w, layers, reserve, budget, m));
  }

  /** The ledger's answers alone fix where a walk ends. */
  lemma StopIsOne(w: Critics, layers: seq<LayerRow>, reserve: real, budget: real, a: EndStop, b: EndStop)
    requires StopsAt(w, layers, reserve, budget, a) && StopsAt(w, layers, reserve, budget, b)
    ensures a == b
  {
    if a.AtJoin? {
      JoinBefore(w, layers, reserve, budget, if b.InLayer? then b.n else |layers|);
    } else if b.AtJoin? {
      JoinBefore(w, layers, reserve, budget, if a.InLayer? then a.n else |layers|);
    } else if a.InLayer? && (b.Finished? || a.n < b.n) {
      StopBefore(w, layers, reserve, budget, a.n, a.half, if b.InLayer? then b.n else |layers|);
    } else if b.InLayer? && (a.Finished? || b.n < a.n) {
      StopBefore(w, layers, reserve, budget, b.n, b.half, if a.InLayer? then a.n else |layers|);
    }
  }

  // ---------------------------------------------------------------------------
  // The walk

  // One `end_reviews` row. A second row for one lens breaks the primary key.
  method RecordRow(w: Critics, rows: seq<EndReviewRow>, writes: nat, row: EndReviewRow)
    returns (rows': seq<EndReviewRow>, writes': nat, raised: bool)
    ensures raised <==> w.writeRaises(writes) || Written(rows, row.task, row.lens)
    ensures rows' == if raised then rows else rows + [row]
    ensures writes' == writes + 1
  {
    writes' := writes + 1;
    raised := w.writeRaises(writes) || Written(rows, row.task, row.lens);
    rows' := if raised then rows else rows + [row];
  }

  // None of a layer's own two lenses has a row.
  ghost predicate Bare(rows: seq<EndReviewRow>, task: nat) {
    !Written(rows, task, SpecLens) && !Written(rows, task, StandardsLens)
  }

  // Before its turn a layer has no row of its own, unless one was filed before
  // the walk.
  lemma BareBefore(w: Critics, rows: seq<EndReviewRow>, layers: seq<LayerRow>, reached: nat, i: nat)
    requires DistinctTasks(layers) && i < |layers| && Bare(rows, layers[i].task)
    ensures Bare(Onto(w, rows, layers, reached, i), layers[i].task)
  {
    OntoCount(w, rows, layers, reached, i, i, SpecLens);
    OntoCount(w, rows, layers, reached, i, i, StandardsLens);
    CountIsMembership(rows, layers[i].task, SpecLens);
    CountIsMembership(rows, layers[i].task, StandardsLens);
    CountIsMembership(Onto(w, rows, layers, reached, i), layers[i].task, SpecLens);
    CountIsMembership(Onto(w, rows, layers, reached, i), layers[i].task, StandardsLens);
  }

  lemma {:induction false} SameOnto(w: Critics, rows: seq<EndReviewRow>, layers: seq<LayerRow>, a: nat, b: nat, n: nat)
    requires n <= |layers| && n <= a && n <= b
    ensures Onto(w, rows, layers, a, n) == Onto(w, rows, layers, b, n)
  {
    if n > 0 { SameOnto(w, rows, layers, a, b, n - 1); }
  }

  // One layer's findings and rows, in lens order, up to the first write that raises.
  method ReviewLayer(w: Critics, ghost rows: seq<EndReviewRow>, written: seq<EndReviewRow>, writes: nat,
                     layers: seq<LayerRow>,
                     i: nat, ghost reached: nat, covered: bool)
    returns (rows': seq<EndReviewRow>, writes': nat, raised: bool, ghost half: bool)
    requires i < |layers| && (covered <==> i < reached)
    requires written == Onto(w, rows, layers, reached, i)
    ensures rows' == if raised then Cut(w, rows, layers, reached, i, half) else Onto(w, rows, layers, reached, i + 1)
    ensures var next := writes + (if covered then 3 else 2);
      if raised then Bare(written, layers[i].task) ==> LayerStops(w, writes, writes, next, half)
      else writes' == next && Clear(w, writes, next)
  {
    var spec := RowOf(w, layers, if covered then i + 1 else i, i, SpecLens);
    var standards := RowOf(w, layers, if covered then i + 1 else i, i, StandardsLens);
    if covered && w.writeRaises(writes) {
      rows', writes', raised, half := written, writes + 1, true, false;
      Raises(w, writes, writes, writes + 2);
    } else {
      ghost var from := if covered then writes + 1 else writes;
      rows', writes', raised, half := FileRows(w, written, if covered then writes + 1 else writes, spec, standards);
      ClearOne(w, writes);
      ClearOn(w, writes, from, from + 2);
      ClearOn(w, writes, from, from + 1);
    }
  }

  lemma Raises(w: Critics, from: nat, at: nat, to: nat)
    requires from <= at < to && w.writeRaises(at)
    ensures !Clear(w, from, to)
  {
    assert !ClearAt(w, from, to, at);
  }

  // A layer's two rows, up to the first that cannot be written.
  method FileRows(w: Critics, written: seq<EndReviewRow>, writes: nat, spec: EndReviewRow, standards: EndReviewRow)
    returns (rows': seq<EndReviewRow>, writes': nat, raised: bool, ghost half: bool)
    requires spec.task == standards.task && spec.lens == SpecLens && standards.lens == StandardsLens
    ensures half ==> raised
    ensures rows' == if !raised then (written + [spec]) + [standards] else if half then written + [spec] else written
    ensures !raised ==> writes' == writes + 2 && Clear(w, writes, writes + 2)
    ensures half ==> Clear(w, writes, writes + 1) && (Bare(written, spec.task) ==> w.writeRaises(writes + 1))
    ensures raised && !half && Bare(written, spec.task) ==> !Clear(w, writes, writes + 1)
  {
    half := false;
    ClearOne(w, writes);
    rows', writes', raised := RecordRow(w, written, writes, spec);
    if !raised {
      ClearOn(w, writes, writes + 1, writes + 2);
      ClearOne(w, writes + 1);
      rows', writes', raised := RecordRow(w, rows', writes', standards);
      half := raised;
    }
  }

  // Where the walk stands before the i-th layer.
  ghost predicate Midway(w: Critics, rows: seq<EndReviewRow>, layers: seq<LayerRow>, reserve: real, budget: real,
                         i: nat, spent: real, written: seq<EndReviewRow>)
  {
    var reached := Reach(w, i, reserve, budget);
    && i <= |layers| && spent == WalkCost(w, reached) && (reached < i ==> reserve - spent < 2.0 * budget)
    && written == Onto(w, rows, layers, reached, i)
  }

  // One layer: reviewed if the reserve still covers it, filed as not reached if
  // not.
  method ReviewNext(w: Critics, ghost rows: seq<EndReviewRow>, written: seq<EndReviewRow>, writes: nat,
                    layers: seq<LayerRow>,
                    reserve: real, budget: real, i: nat, spent: real)
    returns (rows': seq<EndReviewRow>, writes': nat, raised: bool, spent': real, ghost half: bool)
    requires i < |layers| && Midway(w, rows, layers, reserve, budget, i, spent, written)
    ensures !raised ==> Midway(w, rows, layers, reserve, budget, i + 1, spent', rows')
    ensures raised ==> rows' == Cut(w, rows, layers, Reach(w, i + 1, reserve, budget), i, half)
    ensures var next := writes + (if Reach(w, i + 1, reserve, budget) == Reach(w, i, reserve, budget) then 2 else 3);
      if raised then DistinctTasks(layers) && Bare(rows, layers[i].task) ==> LayerStops(w, writes, writes, next, half)
      else writes' == next && Clear(w, writes, next)
  {
    var covered := reserve - spent >= 2.0 * budget;
    spent' := if covered then spent + LayerCost(w.layer(i)) else spent;
    MidwayNext(w, rows, layers, reserve, budget, i, spent, written);
    ghost var reached := Reach(w, i + 1, reserve, budget);
    if DistinctTasks(layers) && Bare(rows, layers[i].task) {
      BareBefore(w, rows, layers, reached, i);
    }
    rows', writes', raised, half := ReviewLayer(w, rows, written, writes, layers, i, reached, covered);
  }

  // What the next layer changes before anything of it is written.
  lemma MidwayNext(w: Critics, rows: seq<EndReviewRow>, layers: seq<LayerRow>, reserve: real, budget: real,
                   i: nat, spent: real, written: seq<EndReviewRow>)
    requires i < |layers| && Midway(w, rows, layers, reserve, budget, i, spent, written)
    ensures var covered, next := reserve - spent >= 2.0 * budget, Reach(w, i + 1, reserve, budget);
      && next == (if covered then i + 1 else Reach(w, i, reserve, budget)) && (covered <==> i < next)
      && (if covered then spent + LayerCost(w.layer(i)) else spent) == WalkCost(w, next)
      && written == Onto(w, rows, layers, next, i)
  {
    ReachNext(w, i, reserve, budget);
    if reserve - spent >= 2.0 * budget {
      SameOnto(w, rows, layers, i, i + 1, i);
    }
  }

  lemma NextWrites(w: Critics, from: nat, left: real, budget: real, i: nat)
    ensures LayerWrites(w, from, left, budget, i + 1)
      == LayerWrites(w, from, left, budget, i)
        + (if Reach(w, i + 1, left, budget) == Reach(w, i, left, budget) then 2 else 3)
  {
    ReachNext(w, i, left, budget);
  }

  // Where the walk stands before the i-th layer, and that no write has raised.
  ghost predicate WalkedTo(w: Critics, rows: seq<EndReviewRow>, layers: seq<LayerRow>, reserve: real, budget: real,
                           start: nat, i: nat, spent: real, written: seq<EndReviewRow>, writes: nat)
  {
    && Midway(w, rows, layers, reserve, budget, i, spent, written)
    && writes == LayerWrites(w, start, reserve, budget, i) && Clear(w, start, writes)
  }

  // Where a walk stopped on a write of the n-th layer.
  ghost predicate StoppedIn(w: Critics, rows: seq<EndReviewRow>, layers: seq<LayerRow>, reserve: real, budget: real,
                            start: nat, n: nat, half: bool, written: seq<EndReviewRow>)
  {
    && n < |layers| && written == Cut(w, rows, layers, Reach(w, n + 1, reserve, budget), n, half)
    && (DistinctTasks(layers) && Bare(rows, layers[n].task) ==>
          LayerStops(w, start, LayerWrites(w, start, reserve, budget, n), LayerWrites(w, start, reserve, budget, n + 1),
                     half))
  }

  method ReviewOn(w: Critics, ghost rows: seq<EndReviewRow>, written: seq<EndReviewRow>, ghost start: nat, writes: nat,
                  layers: seq<LayerRow>, reserve: real, budget: real, i: nat, spent: real)
    returns (rows': seq<EndReviewRow>, writes': nat, raised: bool, spent': real, ghost half: bool)
    requires i < |layers| && WalkedTo(w, rows, layers, reserve, budget, start, i, spent, written, writes)
    ensures if raised then StoppedIn(w, rows, layers, reserve, budget, start, i, half, rows')
            else WalkedTo(w, rows, layers, reserve, budget, start, i + 1, spent', rows', writes')
  {
    rows', writes', raised, spent', half := ReviewNext(w, rows, written, writes, layers, reserve, budget, i, spent);
    NextWrites(w, start, reserve, budget, i);
    if !raised {
      ClearOn(w, start, writes, writes');
    }
  }

  /** One stack's layers, highest position first, inside one reserve: as many as
      it covers, and no more. A write that raises leaves what was written
      before it. */
  method ReviewStack(w: Critics, rows: seq<EndReviewRow>, writes: nat, layers: seq<LayerRow>, reserve: real,
                     budget: real)
    returns (rows': seq<EndReviewRow>, writes': nat, raised: bool, ghost n: nat, ghost half: bool)
    ensures !raised ==> rows' == Onto(w, rows, layers, Reach(w, |layers|, reserve, budget), |layers|) && n == |layers|
    ensures !raised ==> Clear(w, writes, LayerWrites(w, writes, reserve, budget, |layers|))
    ensures raised ==> StoppedIn(w, rows, layers, reserve, budget, writes, n, half, rows')
  {
    rows', writes', raised, n, half := rows, writes, false, 0, false;
    var spent, i := 0.0, 0;
    while i < |layers| && !raised
      invariant n == i <= |layers|
      invariant if raised then StoppedIn(w, rows, layers, reserve, budget, writes, n, half, rows')
                else WalkedTo(w, rows, layers, reserve, budget, writes, i, spent, rows', writes')
      decreases !raised, |layers| - i
    {
      rows', writes', raised, spent, half := ReviewOn(w, rows, rows', writes, writes', layers, reserve, budget, i,
          spent);
      if !raised {
        i, n := i + 1, n + 1;
      }
    }
  }

  // The join's row under the top layer, if the stack has a seam to read.
  function JoinRows(w: Critics, layers: seq<LayerRow>, reserve: real, budget: real): seq<EndReviewRow> {
    if |layers| < 2 then []
    else if reserve < budget then [EndReviewRow(layers[0].task, JoinLens, NOT_REACHED, 0.0)]
    else if w.join.JoinRaised? then [EndReviewRow(layers[0].task, JoinLens, Status.ERROR, 0.0)]
    else [LensRow(layers[0].task, JoinLens, w.join.session)]
  }

  lemma JoinCost(w: Critics, layers: seq<LayerRow>, reserve: real, budget: real)
    ensures ReviewCost(JoinRows(w, layers, reserve, budget))
      == if |layers| >= 2 && reserve >= budget && w.join.JoinCame? then w.join.session.cost else 0.0
  {
    var join := JoinRows(w, layers, reserve, budget);
    if join != [] {
      assert join == [] + [join[0]];
      ReviewCostAdd([], join[0]);
    }
  }

  /** The join lens over the whole stack, when it has a seam to read and the
      reserve covers it. */
  method ReviewJoins(w: Critics, rows: seq<EndReviewRow>, layers: seq<LayerRow>, reserve: real, budget: real)
    returns (rows': seq<EndReviewRow>, writes: nat, raised: bool, cost: real)
    requires Within(w, budget)
    ensures rows' == rows + (if raised then [] else JoinRows(w, layers, reserve, budget))
    ensures ReviewCost(rows') == ReviewCost(rows) + (if raised then 0.0 else cost)
    ensures cost == ReviewCost(JoinRows(w, layers, reserve, budget))
    ensures 0.0 <= cost && (cost > 0.0 ==> cost <= reserve)
    ensures !raised ==> writes == JoinWrites(w, layers, reserve, budget) && Clear(w, 0, writes)
    ensures raised && (layers != [] ==> !Written(rows, layers[0].task, JoinLens)) ==>
      !Clear(w, 0, JoinWrites(w, layers, reserve, budget))
  {
    rows', writes, raised, cost := rows, 0, false, 0.0;
    JoinCost(w, layers, reserve, budget);
    if |layers| < 2 {
      return;
    }
    ClearOne(w, 0);
    var row := EndReviewRow(layers[0].task, JoinLens, NOT_REACHED, 0.0);
    if reserve >= budget {
      row := row.(status := Status.ERROR);
      if w.join.JoinCame? {
        row := LensRow(layers[0].task, JoinLens, w.join.session);
        writes, cost := 1, row.cost;
        ClearOn(w, 0, 1, 2);
        ClearOne(w, 1);
        if w.writeRaises(0) {
          raised := true;
          return;
        }
      }
    }
    rows', writes, raised := RecordRow(w, rows, writes, row);
    if !raised {
      ReviewCostAdd(rows, row);
    }
  }

  // The lenses a layer still lacks, filed as errors at no cost: the first write
  // that raises ends every later write.
  method FileErrors(w: Critics, rows: seq<EndReviewRow>, writes: nat, layers: seq<LayerRow>)
    returns (rows': seq<EndReviewRow>, failed: bool)
    ensures ReviewCost(rows') == ReviewCost(rows)
    ensures forall task, lens :: Count(rows', task, lens) <= Max1(Count(rows, task, lens))
    ensures forall task, lens :: Count(rows', task, lens) >= Count(rows, task, lens)
    ensures !failed ==> forall l, lens :: l in layers && lens != JoinLens ==> Count(rows', l.task, lens) >= 1
  {
    var at := writes;
    rows', failed := rows, false;
    for i := 0 to |layers|
      invariant ReviewCost(rows') == ReviewCost(rows)
      invariant forall task, lens ::
        Count(rows, task, lens) <= Count(rows', task, lens) <= Max1(Count(rows, task, lens))
      invariant !failed ==> forall j, lens :: 0 <= j < i && lens != JoinLens ==> Count(rows', layers[j].task, lens) >= 1
    {
      ghost var before := rows';
      rows', at, failed := FileError(w, rows', at, failed, layers[i].task, SpecLens);
      rows', at, failed := FileError(w, rows', at, failed, layers[i].task, StandardsLens);
    }
  }

  function Max1(n: nat): nat { if n < 1 then 1 else n }

  method FileError(w: Critics, rows: seq<EndReviewRow>, writes: nat, failed: bool, task: nat, lens: Lens)
    returns (rows': seq<EndReviewRow>, writes': nat, failed': bool)
    ensures ReviewCost(rows') == ReviewCost(rows)
    ensures forall t, l :: Count(rows, t, l) <= Count(rows', t, l) <= Max1(Count(rows, t, l))
    ensures !failed' ==> Count(rows', task, lens) >= 1
    ensures failed ==> failed'
  {
    rows', writes', failed' := rows, writes, failed;
    CountIsMembership(rows, task, lens);
    if !failed && !Written(rows, task, lens) {
      rows', writes', failed' := RecordRow(w, rows, writes, EndReviewRow(task, lens, Status.ERROR, 0.0));
      var row := EndReviewRow(task, lens, Status.ERROR, 0.0);
      forall t, l ensures Count(rows + [row], t, l)
        == Count(rows, t, l) + (if row.task == t && row.lens == l then 1 else 0) {
        CountAdd(rows, row, t, l);
      }
      ReviewCostAdd(rows, row);
    }
  }

  // Nothing filed yet under a layer's lenses.
  ghost predicate Unfiled(rows: seq<EndReviewRow>, layers: seq<LayerRow>) {
    forall l, lens :: l in layers ==> Count(rows, l.task, lens) == 0
  }

  // Each layer has at most one row for each of its two lenses.
  ghost predicate AtMostOnce(rows: seq<EndReviewRow>, layers: seq<LayerRow>) {
    forall l, lens :: l in layers && lens != JoinLens ==> Count(rows, l.task, lens) <= 1
  }

  ghost predicate ExactlyOnce(rows: seq<EndReviewRow>, layers: seq<LayerRow>) {
    forall l, lens :: l in layers && lens != JoinLens ==> Count(rows, l.task, lens) == 1
  }

  // Whatever of a walk was recorded, a layer's lens is recorded at most once,
  // and exactly once when the walk finished.
  lemma WalkRecordsOnce(w: Critics, before: seq<EndReviewRow>, join: seq<EndReviewRow>, layers: seq<LayerRow>,
                        reached: nat, n: nat, half: bool)
    requires DistinctTasks(layers) && Unfiled(before, layers)
    requires (join == [] || (|join| == 1 && join[0].lens == JoinLens)) && n <= |layers| && (half ==> n < |layers|)
    ensures AtMostOnce(Cut(w, before + join, layers, reached, n, half), layers)
    ensures n == |layers| ==> ExactlyOnce(Cut(w, before + join, layers, reached, n, half), layers)
  {
    forall l, lens | l in layers && lens != JoinLens
      ensures Count(Cut(w, before + join, layers, reached, n, half), l.task, lens) <= 1
      ensures n == |layers| ==> Count(Cut(w, before + join, layers, reached, n, half), l.task, lens) == 1
    {
      var k :| 0 <= k < |layers| && layers[k] == l;
      CutCount(w, before + join, layers, reached, n, half, k, lens);
      if join == [] { assert before + join == before; } else {
        assert join == [join[0]];
        CountAdd(before, join[0], l.task, lens);
      }
    }
  }

  // How far the walk had come when it ended.
  function Walked(layers: seq<LayerRow>, stop: EndStop): nat {
    match stop
    case Finished => |layers|
    case AtJoin => 0
    case InLayer(n, _) => n + 1
  }

  // Whether the join's session is asked for.
  predicate JoinRead(layers: seq<LayerRow>, reserve: real, budget: real) {
    |layers| >= 2 && reserve >= budget
  }

  function JoinSlip(w: Critics, layers: seq<LayerRow>, reserve: real, budget: real): real {
    if JoinRead(layers, reserve, budget) && w.join.JoinRaised? then w.join.paid else 0.0
  }

  function JoinPaid(w: Critics, layers: seq<LayerRow>, reserve: real, budget: real): real {
    if !JoinRead(layers, reserve, budget) then 0.0
    else if w.join.JoinRaised? then w.join.paid else w.join.session.cost
  }

  // How many layers had a cell opened for them.
  function ReachedAt(w: Critics, layers: seq<LayerRow>, reserve: real, budget: real, stop: EndStop): nat {
    Reach(w, Walked(layers, stop), reserve - ReviewCost(JoinRows(w, layers, reserve, budget)), budget)
  }

  // What the join and the layers reached cost.
  function PaidCost(w: Critics, layers: seq<LayerRow>, reserve: real, budget: real, stop: EndStop): real {
    JoinPaid(w, layers, reserve, budget) + PaidTo(w, ReachedAt(w, layers, reserve, budget, stop))
  }

  // What of it the reserve is counted down by, recorded or not.
  function CountedCost(w: Critics, layers: seq<LayerRow>, reserve: real, budget: real, stop: EndStop): real {
    ReviewCost(JoinRows(w, layers, reserve, budget)) + WalkCost(w, ReachedAt(w, layers, reserve, budget, stop))
  }

  // What of it is counted as nothing: all that reviews which raised had paid.
  function SlippedCost(w: Critics, layers: seq<LayerRow>, reserve: real, budget: real, stop: EndStop): real {
    JoinSlip(w, layers, reserve, budget) + SlipTo(w, ReachedAt(w, layers, reserve, budget, stop))
  }

  // What of the counted cost no row records: the join's session when its own write
  // raised, or the sessions a layer had paid for and not yet filed.
  function LostCost(w: Critics, layers: seq<LayerRow>, reserve: real, budget: real, stop: EndStop): real {
    var join := ReviewCost(JoinRows(w, layers, reserve, budget));
    match stop
    case Finished => 0.0
    case AtJoin => join
    case InLayer(n, half) =>
      if Reach(w, n + 1, reserve - join, budget) <= n || w.layer(n).LayerRaised? then 0.0
      else w.layer(n).standards.cost + (if half then 0.0 else w.layer(n).spec.cost)
  }

  /** What the review cost is what it was counted as and what slipped. */
  lemma PaidSplits(w: Critics, layers: seq<LayerRow>, reserve: real, budget: real, stop: EndStop)
    requires Within(w, budget)
    ensures PaidCost(w, layers, reserve, budget, stop)
      == CountedCost(w, layers, reserve, budget, stop) + SlippedCost(w, layers, reserve, budget, stop)
    ensures 0.0 <= SlippedCost(w, layers, reserve, budget, stop)
  {
    JoinCost(w, layers, reserve, budget);
    PaidIsCounted(w, ReachedAt(w, layers, reserve, budget, stop));
    SlipIsNone(w, ReachedAt(w, layers, reserve, budget, stop), budget);
  }

  // No review asked for raised with anything paid.
  ghost predicate NothingSlips(w: Critics, layers: seq<LayerRow>, reserve: real, budget: real, stop: EndStop) {
    && (JoinRead(layers, reserve, budget) && w.join.JoinRaised? ==> w.join.paid == 0.0)
    && forall k: nat :: FreeAt(w, ReachedAt(w, layers, reserve, budget, stop), k)
  }

  // The write a walk stopped on had no session that cost anything under it.
  predicate NothingUnder(w: Critics, layers: seq<LayerRow>, reserve: real, budget: real, stop: EndStop) {
    match stop
    case Finished => true
    case AtJoin => JoinRead(layers, reserve, budget) && w.join.JoinCame? ==> w.join.session.cost == 0.0
    case InLayer(n, half) =>
      n < ReachedAt(w, layers, reserve, budget, stop) && w.layer(n).LayerCame? ==>
        w.layer(n).standards.cost == 0.0 && (half || w.layer(n).spec.cost == 0.0)
  }

  /** All of it is counted and recorded exactly when no review that raised had paid
      anything and no write raised under a session that cost something. */
  lemma AllRecordedIff(w: Critics, layers: seq<LayerRow>, reserve: real, budget: real, stop: EndStop)
    requires Within(w, budget)
    ensures LostCost(w, layers, reserve, budget, stop) + SlippedCost(w, layers, reserve, budget, stop) == 0.0
      <==> NothingUnder(w, layers, reserve, budget, stop) && NothingSlips(w, layers, reserve, budget, stop)
  {
    JoinCost(w, layers, reserve, budget);
    SlipIsNone(w, ReachedAt(w, layers, reserve, budget, stop), budget);
    LostWithin(w, layers, reserve, budget, stop);
    if stop.InLayer? {
      assert LayerWithin(w, budget, stop.n);
    }
  }

  lemma CountedWithin(w: Critics, layers: seq<LayerRow>, reserve: real, budget: real, stop: EndStop)
    requires Within(w, budget) && budget >= 0.0
    ensures 0.0 <= CountedCost(w, layers, reserve, budget, stop) <= Max(0.0, reserve)
  {
    JoinCost(w, layers, reserve, budget);
    var join := ReviewCost(JoinRows(w, layers, reserve, budget));
    ReachIsCovered(w, Walked(layers, stop), reserve - join, budget);
    WalkCostWithin(w, Reach(w, Walked(layers, stop), reserve - join, budget), reserve - join, budget);
  }

  lemma LostWithin(w: Critics, layers: seq<LayerRow>, reserve: real, budget: real, stop: EndStop)
    requires Within(w, budget)
    ensures 0.0 <= LostCost(w, layers, reserve, budget, stop) <= CountedCost(w, layers, reserve, budget, stop)
  {
    JoinCost(w, layers, reserve, budget);
    var left := reserve - ReviewCost(JoinRows(w, layers, reserve, budget));
    if stop.InLayer? {
      LayerLostWithin(w, stop.n, left, budget, stop.half);
    } else {
      WalkCostGrows(w, 0, Reach(w, Walked(layers, stop), left, budget), budget);
    }
  }

  // What a layer loses to a write is part of what the layers were counted as.
  lemma LayerLostWithin(w: Critics, n: nat, left: real, budget: real, half: bool)
    requires Within(w, budget)
    ensures var reached := Reach(w, n + 1, left, budget);
      0.0 <= (if reached <= n || w.layer(n).LayerRaised? then 0.0
              else w.layer(n).standards.cost + (if half then 0.0 else w.layer(n).spec.cost)) <= WalkCost(w, reached)
  {
    var before, reached := Reach(w, n, left, budget), Reach(w, n + 1, left, budget);
    ReachNext(w, n, left, budget);
    WalkCostGrows(w, 0, before, budget);
    WalkCostGrows(w, before, reached, budget);
    assert LayerWithin(w, budget, n);
  }

  // What a walk cut inside the n-th layer recorded of what it cost.
  lemma CutLoses(w: Critics, rows: seq<EndReviewRow>, layers: seq<LayerRow>, reserve: real, budget: real, n: nat,
                 half: bool)
    requires n < |layers|
    ensures var reached := Reach(w, n + 1, reserve, budget);
      ReviewCost(Cut(w, rows, layers, reached, n, half)) == ReviewCost(rows) + WalkCost(w, reached)
        - (if reached <= n || w.layer(n).LayerRaised? then 0.0
           else w.layer(n).standards.cost + (if half then 0.0 else w.layer(n).spec.cost))
  {
    CutCost(w, rows, layers, Reach(w, n + 1, reserve, budget), n, half);
  }

  // Every row of a walk that ended, the join's before the layers'.
  function AllRows(w: Critics, rows: seq<EndReviewRow>, layers: seq<LayerRow>, reserve: real,
                   budget: real): seq<EndReviewRow> {
    var join := JoinRows(w, layers, reserve, budget);
    Onto(w, rows + join, layers, Reach(w, |layers|, reserve - ReviewCost(join), budget), |layers|)
  }

  // What a walk leaves, however it ends.
  function RowsAt(w: Critics, rows: seq<EndReviewRow>, layers: seq<LayerRow>, reserve: real, budget: real,
                  stop: EndStop): seq<EndReviewRow>
    requires stop.InLayer? ==> stop.n < |layers|
  {
    match stop
    case Finished => AllRows(w, rows, layers, reserve, budget)
    case AtJoin => rows
    case InLayer(n, half) =>
      var join := JoinRows(w, layers, reserve, budget);
      Cut(w, rows + join, layers, Reach(w, n + 1, reserve - ReviewCost(join), budget), n, half)
  }

  /** What a walk records is what its sessions cost, less what it lost. */
  lemma RowsCost(w: Critics, rows: seq<EndReviewRow>, layers: seq<LayerRow>, reserve: real, budget: real, stop: EndStop)
    requires Within(w, budget) && (stop.InLayer? ==> stop.n < |layers|)
    ensures ReviewCost(RowsAt(w, rows, layers, reserve, budget, stop))
      == ReviewCost(rows) + CountedCost(w, layers, reserve, budget, stop) - LostCost(w, layers, reserve, budget, stop)
  {
    JoinAdds(w, rows, layers, reserve, budget);
    var join := JoinRows(w, layers, reserve, budget);
    match stop {
      case Finished =>
        OntoCost(w, rows + join, layers, Reach(w, |layers|, reserve - ReviewCost(join), budget), |layers|);
      case AtJoin =>
      case InLayer(n, half) => CutLoses(w, rows + join, layers, reserve - ReviewCost(join), budget, n, half);
    }
  }

  lemma RowsOnce(w: Critics, rows: seq<EndReviewRow>, layers: seq<LayerRow>, reserve: real, budget: real, stop: EndStop)
    requires DistinctTasks(layers) && Unfiled(rows, layers) && (stop.InLayer? ==> stop.n < |layers|)
    ensures var rows' := RowsAt(w, rows, layers, reserve, budget, stop);
      AtMostOnce(rows', layers) && (stop.Finished? ==> ExactlyOnce(rows', layers))
  {
    var join := JoinRows(w, layers, reserve, budget);
    var reached := Reach(w, Walked(layers, stop), reserve - ReviewCost(join), budget);
    match stop {
      case Finished =>
        WalkRecordsOnce(w, rows, join, layers, reached, |layers|, false);
        Uncut(w, rows + join, layers, reached, |layers|);
      case AtJoin =>
      case InLayer(n, half) => WalkRecordsOnce(w, rows, join, layers, reached, n, half);
    }
  }

  lemma Uncut(w: Critics, rows: seq<EndReviewRow>, layers: seq<LayerRow>, reached: nat, n: nat)
    requires n <= |layers|
    ensures Cut(w, rows, layers, reached, n, false) == Onto(w, rows, layers, reached, n)
  {
  }

  lemma JoinAdds(w: Critics, rows: seq<EndReviewRow>, layers: seq<LayerRow>, reserve: real, budget: real)
    requires Within(w, budget)
    ensures var join := JoinRows(w, layers, reserve, budget);
      ReviewCost(rows + join) == ReviewCost(rows) + ReviewCost(join) && ReviewCost(join) >= 0.0
  {
    JoinCost(w, layers, reserve, budget);
    var join := JoinRows(w, layers, reserve, budget);
    if join == [] {
      assert rows + join == rows;
    } else {
      assert join == [] + [join[0]];
      ReviewCostAdd(rows, join[0]);
      ReviewCostAdd([], join[0]);
    }
  }

  // No layer has a row under any lens, nor two layers one task.
  ghost predicate Unreviewed(rows: seq<EndReviewRow>, layers: seq<LayerRow>) {
    DistinctTasks(layers) && Unfiled(rows, layers)
  }

  lemma UnreviewedAt(w: Critics, rows: seq<EndReviewRow>, layers: seq<LayerRow>, reserve: real, budget: real, n: nat)
    requires Unreviewed(rows, layers) && n < |layers|
    ensures !Written(rows, layers[n].task, JoinLens)
    ensures Bare(rows + JoinRows(w, layers, reserve, budget), layers[n].task)
  {
    assert layers[n] in layers;
    CountIsMembership(rows, layers[n].task, JoinLens);
    CountIsMembership(rows, layers[n].task, SpecLens);
    CountIsMembership(rows, layers[n].task, StandardsLens);
  }

  // The join first, then the layers on what it left, up to the first write that
  // raises.
  method ReviewWhole(w: Critics, rows: seq<EndReviewRow>, layers: seq<LayerRow>, reserve: real, budget: real)
    returns (rows': seq<EndReviewRow>, writes: nat, raised: bool, ghost stop: EndStop)
    requires Within(w, budget) && budget >= 0.0
    ensures raised <==> !stop.Finished?
    ensures (stop.InLayer? ==> stop.n < |layers|) && rows' == RowsAt(w, rows, layers, reserve, budget, stop)
    ensures Unreviewed(rows, layers) ==> StopsAt(w, layers, reserve, budget, stop)
  {
    var joinCost;
    if Unreviewed(rows, layers) && layers != [] {
      UnreviewedAt(w, rows, layers, reserve, budget, 0);
    }
    rows', writes, raised, joinCost := ReviewJoins(w, rows, layers, reserve, budget);
    if raised {
      stop := AtJoin;
      assert rows' == rows;
    } else {
      rows', writes, raised, stop := ReviewRest(w, rows, rows', writes, layers, reserve, joinCost, budget);
    }
  }

  // The layers, once the join's row is filed.
  method ReviewRest(w: Critics, ghost rows: seq<EndReviewRow>, joined: seq<EndReviewRow>, writes: nat,
                    layers: seq<LayerRow>,
                    reserve: real, joinCost: real, budget: real)
    returns (rows': seq<EndReviewRow>, writes': nat, raised: bool, ghost stop: EndStop)
    requires joined == rows + JoinRows(w, layers, reserve, budget)
    requires joinCost == ReviewCost(JoinRows(w, layers, reserve, budget))
    requires writes == JoinWrites(w, layers, reserve, budget) && Clear(w, 0, writes)
    ensures !stop.AtJoin? && (raised <==> !stop.Finished?)
    ensures (stop.InLayer? ==> stop.n < |layers|) && rows' == RowsAt(w, rows, layers, reserve, budget, stop)
    ensures Unreviewed(rows, layers) ==> StopsAt(w, layers, reserve, budget, stop)
  {
    ghost var n, half;
    rows', writes', raised, n, half := ReviewStack(w, joined, writes, layers, reserve - joinCost, budget);
    stop := if raised then InLayer(n, half) else Finished;
    if !raised {
      WritesGrow(w, layers, reserve, budget, 0, n);
      ClearOn(w, 0, writes, WritesTo(w, layers, reserve, budget, n));
    } else if Unreviewed(rows, layers) {
      UnreviewedAt(w, rows, layers, reserve, budget, n);
      LayerStopsFrom(w, writes, WritesTo(w, layers, reserve, budget, n), WritesTo(w, layers, reserve, budget, n + 1),
                     half);
    }
  }

  /** A whole stack's end review behind its guard: a raise is completed with an
      error for every lens that has no row. The rows gain what the review cost,
      less what was lost to the write it stopped on and what slipped past the count
      because a session, or its cell, raised. What was counted stays inside the
      reserve, and what it cost past that is what slipped. Unless filing the errors
      fails as well each lens of each layer has exactly one row. */
  method RunEndReview(w: Critics, rows: seq<EndReviewRow>, layers: seq<LayerRow>, reserve: real, budget: real)
    returns (rows': seq<EndReviewRow>, raised: bool, failed: bool, ghost stop: EndStop)
    requires Within(w, budget) && budget >= 0.0
    ensures raised <==> !stop.Finished?
    ensures !raised ==> !failed && rows' == AllRows(w, rows, layers, reserve, budget)
    ensures Unreviewed(rows, layers) ==> StopsAt(w, layers, reserve, budget, stop)
    ensures Billed(w, rows, rows', layers, reserve, budget, stop)
    ensures ReviewCost(rows') == ReviewCost(rows) + PaidCost(w, layers, reserve, budget, stop)
      <==> NothingUnder(w, layers, reserve, budget, stop) && NothingSlips(w, layers, reserve, budget, stop)
    ensures Unreviewed(rows, layers) ==> AtMostOnce(rows', layers) && (!failed ==> ExactlyOnce(rows', layers))
  {
    var writes;
    rows', writes, raised, stop := ReviewWhole(w, rows, layers, reserve, budget);
    RowsCost(w, rows, layers, reserve, budget, stop);
    IsBilled(w, rows, rows', layers, reserve, budget, stop);
    if Unreviewed(rows, layers) {
      RowsOnce(w, rows, layers, reserve, budget, stop);
    }
    failed := false;
    if raised {
      rows', failed := FileErrors(w, rows', writes, layers);
    }
  }

  // What the rows gained of what the review cost.
  ghost predicate Billed(w: Critics, rows: seq<EndReviewRow>, rows': seq<EndReviewRow>, layers: seq<LayerRow>,
                         reserve: real, budget: real, stop: EndStop)
  {
    var paid, counted := PaidCost(w, layers, reserve, budget, stop), CountedCost(w, layers, reserve, budget, stop);
    var lost, slipped := LostCost(w, layers, reserve, budget, stop), SlippedCost(w, layers, reserve, budget, stop);
    && ReviewCost(rows') == ReviewCost(rows) + paid - lost - slipped
    && paid == counted + slipped && 0.0 <= slipped && 0.0 <= lost <= counted <= Max(0.0, reserve)
  }

  lemma IsBilled(w: Critics, rows: seq<EndReviewRow>, rows': seq<EndReviewRow>, layers: seq<LayerRow>,
                 reserve: real, budget: real, stop: EndStop)
    requires Within(w, budget) && budget >= 0.0
    requires ReviewCost(rows')
      == ReviewCost(rows) + CountedCost(w, layers, reserve, budget, stop) - LostCost(w, layers, reserve, budget, stop)
    ensures Billed(w, rows, rows', layers, reserve, budget, stop)
    ensures ReviewCost(rows') == ReviewCost(rows) + PaidCost(w, layers, reserve, budget, stop)
      <==> NothingUnder(w, layers, reserve, budget, stop) && NothingSlips(w, layers, reserve, budget, stop)
  {
    PaidSplits(w, layers, reserve, budget, stop);
    CountedWithin(w, layers, reserve, budget, stop);
    LostWithin(w, layers, reserve, budget, stop);
    AllRecordedIff(w, layers, reserve, budget, stop);
  }

  // ---------------------------------------------------------------------------
  // Sessions paid for and charged to nothing

  /** A covered layer whose findings the ledger would not take is filed as two
      errors that cost nothing, whatever its sessions cost. */
  method LosesALayer(w: Critics, layer: LayerRow, reserve: real, budget: real)
    returns (rows: seq<EndReviewRow>, ghost stop: EndStop)
    requires Within(w, budget) && 0.0 <= 2.0 * budget <= reserve && w.layer(0).LayerCame? && w.writeRaises(0)
    ensures ReviewCost(rows) == 0.0 && PaidCost(w, [layer], reserve, budget, stop) == LayerCost(w.layer(0))
  {
    var raised, failed;
    rows, raised, failed, stop := RunEndReview(w, [], [layer], reserve, budget);
    Raises(w, 0, 0, 2);
    ReachNext(w, 0, reserve, budget);
    StopIsOne(w, [layer], reserve, budget, stop, InLayer(0, false));
    PaidNext(w, 0);
  }

  lemma PaidNext(w: Critics, n: nat)
    ensures PaidTo(w, n + 1) == PaidTo(w, n) + LayerPaid(w.layer(n))
  {
  }

  /** Such a ledger and such sessions: three dollars are spent, and none is
      recorded. */
  method LosesThreeDollars(layer: LayerRow) returns (rows: seq<EndReviewRow>, spent: real)
    ensures ReviewCost(rows) == 0.0 && spent == 3.0
  {
    var answer := LayerCame(Session(1.0, false), Session(2.0, false));
    var w := Critics(JoinRaised(0.0), _ => answer, n => n == 0);
    assert Within(w, 5.0) by { forall k ensures LayerWithin(w, 5.0, k) { } }
    ghost var stop;
    rows, stop := LosesALayer(w, layer, 10.0, 5.0);
    spent := LayerCost(w.layer(0));
  }

  // Every layer's review raises.
  ghost predicate AllBreak(w: Critics) {
    forall k :: w.layer(k).LayerRaised?
  }

  lemma {:induction false} BreaksReachAll(w: Critics, n: nat, reserve: real, budget: real)
    requires AllBreak(w) && reserve >= 2.0 * budget
    ensures Reach(w, n, reserve, budget) == n && WalkCost(w, n) == 0.0
  {
    if n > 0 { BreaksReachAll(w, n - 1, reserve, budget); }
  }

  /** Reviews that raise are counted as nothing, so a reserve that covers one layer
      has a cell opened for every one, whatever the others came to cost: no multiple
      of the reserve bounds it, and none of it is recorded. */
  method PaysPastReserve(w: Critics, layers: seq<LayerRow>, reserve: real, budget: real)
    returns (rows: seq<EndReviewRow>, ghost stop: EndStop)
    requires Within(w, budget) && AllBreak(w) && w.join == JoinRaised(0.0) && DistinctTasks(layers)
    requires 0.0 <= 2.0 * budget <= reserve && forall n :: !w.writeRaises(n)
    ensures ReviewCost(rows) == 0.0 && PaidCost(w, layers, reserve, budget, stop) == PaidTo(w, |layers|)
  {
    var raised, failed;
    rows, raised, failed, stop := RunEndReview(w, [], layers, reserve, budget);
    JoinCost(w, layers, reserve, budget);
    BreaksReachAll(w, Walked(layers, stop), reserve, budget);
    forall n ensures ClearAt(w, 0, WritesTo(w, layers, reserve, budget, |layers|), n) { }
    StopIsOne(w, layers, reserve, budget, stop, Finished);
    PaidIsCounted(w, |layers|);
  }

  lemma {:induction false} OneDollarPaid(w: Critics, n: nat)
    requires forall k :: w.layer(k) == LayerRaised(AtStandards(Session(1.0, false), 0.0))
    ensures PaidTo(w, n) == n as real
  {
    if n > 0 { OneDollarPaid(w, n - 1); }
  }

  /** Ten layers whose Standards session raises once the Spec session has cost a
      dollar: ten dollars are spent out of a reserve of four, and none is recorded,
      though no write to the ledger raised. */
  method PaysTenOfFour(layers: seq<LayerRow>) returns (rows: seq<EndReviewRow>, ghost spent: real)
    requires |layers| == 10 && DistinctTasks(layers)
    ensures ReviewCost(rows) == 0.0 && spent == 10.0
  {
    var w := Critics(JoinRaised(0.0), _ => LayerRaised(AtStandards(Session(1.0, false), 0.0)), _ => false);
    assert Within(w, 1.0) by { forall k ensures LayerWithin(w, 1.0, k) { } }
    ghost var stop;
    rows, stop := PaysPastReserve(w, layers, 4.0, 1.0);
    OneDollarPaid(w, 10);
    spent := PaidCost(w, layers, 4.0, 1.0, stop);
  }
}
