/** What `saffron queue --stack` prints of a queue's own cost, of saffron/cli.py:
    the budget each candidate needs to be admitted by the night driver, and the
    budget the whole order needs. Amounts are real, and a share is exact. */
module Admission {
  import opened Wrappers
  import opened Graph
  import opened Scheduler
  import opened SpendBook
  import Plans

  // The shares of a budget held back for the end review and for the writer.
  const RESERVE_SHARE := 0.25
  const WRITER_SHARE := 0.25

  function Shares(budget: real): (held: (real, real))
    ensures 0.0 <= budget ==> 0.0 <= held.0 && 0.0 <= held.1 && held.0 + held.1 <= budget
  {
    (budget * RESERVE_SHARE, budget * WRITER_SHARE)
  }

  // The part of a budget admission compares against.
  const DENOMINATOR := 1.0 - Shares(1.0).0 - Shares(1.0).1

  /** The fractions taken at a budget of one and the dollars held back of any
      other agree: what is left of a budget is the denominator's part of it. */
  lemma SharesAgree(budget: real, need: real)
    ensures budget - Shares(budget).0 - Shares(budget).1 == budget * DENOMINATOR
    ensures need / DENOMINATOR == 2.0 * need
    ensures budget * DENOMINATOR >= need <==> budget >= need / DENOMINATOR
  {
    assert DENOMINATOR == 0.5;
  }

  function Ceil(x: real): (n: int)
    ensures n as real - 1.0 < x <= n as real
  {
    -(-x).Floor
  }

  /** A threshold sits at most a cent above the amount it was computed from, and
      at most the tolerance below it. */
  function CeilCents(amount: real): (cents: real)
    ensures amount - 0.00000000001 <= cents < amount + 0.01
  {
    Ceil(amount * 100.0 - 0.000000001) as real / 100.0
  }

  lemma CeilRises(x: real, y: real)
    requires x <= y
    ensures Ceil(x) <= Ceil(y)
  {
    assert (Ceil(x) - 1) as real < Ceil(y) as real;
  }

  lemma CeilCentsRises(x: real, y: real)
    requires x <= y
    ensures CeilCents(x) <= CeilCents(y)
  {
    CeilRises(x * 100.0 - 0.000000001, y * 100.0 - 0.000000001);
  }

  // What the rounding is given is more than the tolerance above a whole cent.
  predicate PastTolerance(amount: real) {
    var over := amount * 100.0 - (amount * 100.0).Floor as real;
    over == 0.0 || over > 0.000000001
  }

  /** A printed threshold sits below its amount exactly when the amount passes a
      whole cent by no more than the tolerance. */
  lemma NeverBelowIff(amount: real)
    ensures CeilCents(amount) >= amount <==> PastTolerance(amount)
  {
    var whole := (amount * 100.0).Floor;
    var cents := Ceil(amount * 100.0 - 0.000000001);
    if amount * 100.0 - whole as real > 0.000000001 {
      assert cents > whole;
    } else {
      assert cents <= whole;
    }
  }

  /** So one can: an amount half a billionth of a cent over a dollar is printed as
      the dollar. */
  lemma OneSitsBelow()
    ensures CeilCents(1.000000000005) < 1.000000000005
  {
    NeverBelowIff(1.000000000005);
  }

  // ---------------------------------------------------------------------------
  // The thresholds

  // What the first `k` candidates have spent: their budgets and a review each.
  function SpentByEarlier(order: seq<Candidate>, k: nat): real
    requires k <= |order|
  {
    if k == 0 then 0.0 else SpentByEarlier(order, k - 1) + order[k - 1].budget + SPEC_REVIEW_SESSION_USD
  }

  // What candidate `k` needs, before it is rounded.
  function Exact(order: seq<Candidate>, k: nat): real
    requires k < |order|
  {
    (order[k].budget + SpentByEarlier(order, k)) / DENOMINATOR
  }

  // What the whole order needs, before it is rounded.
  function ExactTotal(order: seq<Candidate>): real {
    SpentByEarlier(order, |order|) / DENOMINATOR
  }

  ghost predicate Budgeted(order: seq<Candidate>) {
    forall c :: c in order ==> c.budget > 0.0
  }

  /** A later candidate never needs less than an earlier one. */
  lemma {:induction false} ThresholdsRise(order: seq<Candidate>, i: nat, j: nat)
    requires Budgeted(order) && i <= j < |order|
    ensures Exact(order, i) <= Exact(order, j) <= ExactTotal(order)
    ensures CeilCents(Exact(order, i)) <= CeilCents(Exact(order, j)) <= CeilCents(ExactTotal(order))
  {
    assert order[j] in order;
    SharesAgree(0.0, order[i].budget + SpentByEarlier(order, i));
    SharesAgree(0.0, order[j].budget + SpentByEarlier(order, j));
    SharesAgree(0.0, SpentByEarlier(order, |order|));
    SpentRises(order, j + 1, |order|);
    if i < j { SpentRises(order, i + 1, j); }
    CeilCentsRises(Exact(order, i), Exact(order, j));
    CeilCentsRises(Exact(order, j), ExactTotal(order));
  }

  lemma {:induction false} SpentRises(order: seq<Candidate>, i: nat, j: nat)
    requires Budgeted(order) && i <= j <= |order|
    ensures SpentByEarlier(order, i) <= SpentByEarlier(order, j)
  {
    if i < j {
      assert order[j - 1] in order;
      SpentRises(order, i, j - 1);
    }
  }

  predicate WholeCents(amount: real) {
    amount * 100.0 == (amount * 100.0).Floor as real
  }

  lemma AddCents(a: real, b: real)
    requires WholeCents(a) && WholeCents(b)
    ensures WholeCents(a + b)
  {
    var x, y := (a * 100.0).Floor, (b * 100.0).Floor;
    assert (a + b) * 100.0 == (x + y) as real;
  }

  lemma {:induction false} SpentInCents(order: seq<Candidate>, k: nat)
    requires k <= |order| && forall c :: c in order ==> WholeCents(c.budget)
    ensures WholeCents(SpentByEarlier(order, k))
  {
    if k > 0 {
      SpentInCents(order, k - 1);
      assert order[k - 1] in order;
      AddCents(SpentByEarlier(order, k - 1), order[k - 1].budget);
      AddCents(SpentByEarlier(order, k - 1) + order[k - 1].budget, SPEC_REVIEW_SESSION_USD);
    }
  }

  /** On budgets given in cents no threshold is rounded at all. */
  lemma CentsAreExact(order: seq<Candidate>, k: nat)
    requires k < |order| && forall c :: c in order ==> WholeCents(c.budget)
    ensures CeilCents(Exact(order, k)) == Exact(order, k)
    ensures CeilCents(ExactTotal(order)) == ExactTotal(order)
  {
    SpentInCents(order, k);
    SpentInCents(order, |order|);
    assert order[k] in order;
    AddCents(order[k].budget, SpentByEarlier(order, k));
    DoubledIsExact(order[k].budget + SpentByEarlier(order, k));
    DoubledIsExact(SpentByEarlier(order, |order|));
  }

  lemma CeilOfWhole(cents: int)
    ensures Ceil(cents as real - 0.000000001) == cents
  {
    var up := Ceil(cents as real - 0.000000001);
    assert (up - 1) as real < cents as real && (cents - 1) as real < up as real;
  }

  lemma DoubledIsExact(need: real)
    requires WholeCents(need)
    ensures CeilCents(need / DENOMINATOR) == need / DENOMINATOR
  {
    SharesAgree(0.0, need);
    AddCents(need, need);
    CeilOfWhole(((need + need) * 100.0).Floor);
    assert need / DENOMINATOR == need + need;
  }

  // ---------------------------------------------------------------------------
  // What the driver makes of them

  // `_drive`'s comparison of a candidate with a budget less its two shares.
  predicate Passes(book: Book, c: Candidate, budget: real) {
    c.budget <= budget - Shares(budget).0 - book.WriterLeft(Shares(budget).1) - book.BatchSpend()
  }

  /** It is the comparison the driver's own loop refuses with BUDGET on. */
  lemma PassesIsPriceable(book: Book, c: Candidate, budget: real)
    requires book.Complete() && c.budget > 0.0 && 0.0 <= budget
    ensures Passes(book, c, budget) <==> Plans.Priceable(book, c, budget - Shares(budget).0, Shares(budget).1)
  {
    assert book.BatchSpend() == book.Total();
    assert book.WriterLeft(Shares(budget).1) == Max(0.0, Shares(budget).1 - book.Written());
  }

  // One earlier candidate's own charges: a review, its cell, and no revision.
  ghost predicate Frugal(spent: seq<Charge>, c: Candidate) {
    && Charged(spent, Some(SPEC_REVIEW)) <= SPEC_REVIEW_SESSION_USD
    && Charged(spent, Some(CELL)) <= c.budget
    && Charged(spent, Some(SPEC_WRITING)) == 0.0
  }

  ghost function Joined(spent: seq<seq<Charge>>): seq<Charge> {
    if spent == [] then [] else Joined(spent[..|spent| - 1]) + spent[|spent| - 1]
  }

  lemma ChargedJoins(a: seq<Charge>, b: seq<Charge>, phase: Option<Phase>)
    ensures Charged(a + b, phase) == Charged(a, phase) + Charged(b, phase)
  {
    ChargedJoinsTo(a, b, |b|, phase);
  }

  lemma {:induction false} ChargedJoinsTo(a: seq<Charge>, b: seq<Charge>, n: nat, phase: Option<Phase>)
    requires n <= |b|
    ensures ChargedTo(a + b, |a| + n, phase) == Charged(a, phase) + ChargedTo(b, n, phase)
  {
    if n == 0 {
      ChargedBefore(a, b, |a|, phase);
    } else {
      ChargedJoinsTo(a, b, n - 1, phase);
    }
  }

  lemma PhasesAddUp(spent: seq<Charge>)
    ensures Charged(spent, None)
      == Charged(spent, Some(SPEC_REVIEW)) + Charged(spent, Some(SPEC_WRITING)) + Charged(spent, Some(CELL))
  {
    PhasesAddUpTo(spent, |spent|);
  }

  lemma {:induction false} PhasesAddUpTo(spent: seq<Charge>, n: nat)
    requires n <= |spent|
    ensures ChargedTo(spent, n, None)
      == ChargedTo(spent, n, Some(SPEC_REVIEW)) + ChargedTo(spent, n, Some(SPEC_WRITING))
        + ChargedTo(spent, n, Some(CELL))
  {
    if n > 0 {
      PhasesAddUpTo(spent, n - 1);
    }
  }

  lemma {:induction false} FrugalSpend(order: seq<Candidate>, spent: seq<seq<Charge>>)
    requires |spent| <= |order| && forall i :: 0 <= i < |spent| ==> Frugal(spent[i], order[i])
    ensures Charged(Joined(spent), None) <= SpentByEarlier(order, |spent|)
    ensures Charged(Joined(spent), Some(SPEC_WRITING)) == 0.0
  {
    if spent != [] {
      var k := |spent| - 1;
      assert Frugal(spent[k], order[k]);
      FrugalSpend(order, spent[..k]);
      PhasesAddUp(spent[k]);
      ChargedJoins(Joined(spent[..k]), spent[k], None);
      ChargedJoins(Joined(spent[..k]), spent[k], Some(SPEC_WRITING));
    }
  }

  // The ledger of a night whose candidates so far each kept to a budget and one
  // review.
  ghost predicate FrugalBook(book: Book, order: seq<Candidate>, spent: seq<seq<Charge>>) {
    && |spent| <= |order| && (forall i :: 0 <= i < |spent| ==> Frugal(spent[i], order[i]))
    && book.Complete() && book.charges == Joined(spent) && book.endReviews == []
  }

  lemma FrugalTotal(book: Book, order: seq<Candidate>, spent: seq<seq<Charge>>)
    requires FrugalBook(book, order, spent)
    ensures book.Total() <= SpentByEarlier(order, |spent|) && book.Written() == 0.0
  {
    FrugalSpend(order, spent);
  }

  lemma PassesWithin(book: Book, c: Candidate, most: real, budget: real)
    requires book.Complete() && book.Written() == 0.0 && 0.0 <= budget
    requires book.Total() <= most && c.budget + most <= budget * DENOMINATOR
    ensures Passes(book, c, budget)
  {
    SharesAgree(budget, c.budget + most);
  }

  /** A night whose earlier candidates each kept to a budget and one review
      admits the next on any budget at or above its exact threshold. */
  lemma ThresholdAdmits(book: Book, order: seq<Candidate>, spent: seq<seq<Charge>>, budget: real)
    requires FrugalBook(book, order, spent) && |spent| < |order|
    requires 0.0 <= budget && budget >= Exact(order, |spent|)
    ensures Passes(book, order[|spent|], budget)
  {
    FrugalTotal(book, order, spent);
    SharesAgree(budget, order[|spent|].budget + SpentByEarlier(order, |spent|));
    PassesWithin(book, order[|spent|], SpentByEarlier(order, |spent|), budget);
  }

  /** After the whole order, any budget at or above the total still holds both
      shares whole. */
  lemma TotalKeepsShares(book: Book, order: seq<Candidate>, spent: seq<seq<Charge>>, budget: real)
    requires FrugalBook(book, order, spent) && |spent| == |order|
    requires 0.0 <= budget && budget >= ExactTotal(order)
    ensures book.BatchSpend() + Shares(budget).0 + Shares(budget).1 <= budget
    ensures book.WriterLeft(Shares(budget).1) == Shares(budget).1
  {
    FrugalTotal(book, order, spent);
    SharesAgree(budget, SpentByEarlier(order, |order|));
  }

  /** The threshold is the least such budget: where every earlier candidate spent
      all it could, the comparison passes exactly from it on. */
  lemma ThresholdIsLeast(order: seq<Candidate>, book: Book, k: nat, budget: real)
    requires k < |order| && 0.0 <= budget
    requires book.Complete() && book.Written() == 0.0 && book.Total() == SpentByEarlier(order, k)
    ensures Passes(book, order[k], budget) <==> budget >= Exact(order, k)
  {
    SharesAgree(budget, order[k].budget + SpentByEarlier(order, k));
  }

  datatype Line = Line(id: SpecId, budget: real, threshold: real)

  // The lines printed for a queue, and the total, or nothing for an empty one.
  method PrintStackAdmission(candidates: seq<Candidate>) returns (lines: seq<Line>, total: Option<real>)
    ensures |lines| == |candidates| && (total.None? <==> candidates == [])
    ensures forall k ::
      0 <= k < |lines| ==> lines[k] == Line(candidates[k].id, candidates[k].budget, CeilCents(Exact(candidates, k)))
    ensures total.Some? ==> total.value == CeilCents(ExactTotal(candidates))
    ensures Budgeted(candidates) ==>
      forall i, j :: 0 <= i <= j < |lines| ==> lines[i].threshold <= lines[j].threshold <= total.value
  {
    lines, total := [], None;
    if candidates == [] {
      return;
    }
    var shares := Shares(1.0);
    var denominator := 1.0 - shares.0 - shares.1;
    var spentByEarlier := 0.0;
    for k := 0 to |candidates|
      invariant |lines| == k && spentByEarlier == SpentByEarlier(candidates, k)
      invariant forall i ::
        0 <= i < k ==> lines[i] == Line(candidates[i].id, candidates[i].budget, CeilCents(Exact(candidates, i)))
    {
      var threshold := CeilCents((candidates[k].budget + spentByEarlier) / denominator);
      lines := lines + [Line(candidates[k].id, candidates[k].budget, threshold)];
      spentByEarlier := spentByEarlier + candidates[k].budget + SPEC_REVIEW_SESSION_USD;
    }
    total := Some(CeilCents(spentByEarlier / denominator));
    if Budgeted(candidates) {
      forall i, j | 0 <= i <= j < |lines| ensures lines[i].threshold <= lines[j].threshold <= total.value {
        ThresholdsRise(candidates, i, j);
      }
    }
  }
}
