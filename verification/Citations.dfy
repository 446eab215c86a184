/** Moving a spec's `file:line` citations onto the constructs they name, as
    saffron/spec_citations.py does. Which lines open a construct for a name, and
    which hold a name as a word, are given. */
module Citations {
  import opened Wrappers
  import opened Lists
  import opened Text

  type Name = string

  // Lines as an editor counts them, both ends included.
  datatype Span = Span(first: nat, last: nat)

  // `_holds`: the range inside the construct, or holding it whole.
  predicate Holds(span: Span, start: nat, end: nat) {
    (span.first <= start && end <= span.last) || (start <= span.first && span.last <= end)
  }

  // ---------------------------------------------------------------------------
  // Constructs

  // How far a line is indented, and whether it is blank or opens with a closing
  // bracket, is all the walk asks.
  datatype Line = Line(blank: bool, indent: nat, closes: bool)

  predicate Inside(line: Line, indent: nat) {
    line.indent > indent || (line.indent == indent && line.closes)
  }

  // The first line from `from` on that is not blank, if any is left.
  function NextMark(lines: seq<Line>, from: nat): (n: nat)
    requires from <= |lines|
    ensures from <= n <= |lines| && (n < |lines| ==> !lines[n].blank)
    decreases |lines| - from
  {
    if from == |lines| || !lines[from].blank then from else NextMark(lines, from + 1)
  }

  // The construct opening at `at` runs over blank lines and lines inside it, ends
  // on one of those, and the next line that is not blank is outside it.
  ghost predicate IsConstruct(lines: seq<Line>, at: nat, span: Span) {
    && at < |lines| && span.first == at + 1 && at + 1 <= span.last <= |lines|
    && (forall i :: at < i < span.last ==> lines[i].blank || Inside(lines[i], lines[at].indent))
    && (span.last > at + 1 ==> !lines[span.last - 1].blank)
    && var next := NextMark(lines, span.last); next == |lines| || !Inside(lines[next], lines[at].indent)
  }

  /** The construct a line opens: to the last later line indented past it, or
      level with it and closing, with blank lines not ending it. */
  method ConstructSpan(lines: seq<Line>, at: nat) returns (span: Span)
    requires at < |lines|
    ensures IsConstruct(lines, at, span)
  {
    var indent, last, i := lines[at].indent, at, at + 1;
    while i < |lines|
      invariant at <= last < i <= |lines|
      invariant forall k :: at < k <= last ==> lines[k].blank || Inside(lines[k], indent)
      invariant NextMark(lines, last + 1) == NextMark(lines, i)
      invariant last > at ==> !lines[last].blank
      invariant forall k :: last < k < i ==> lines[k].blank
    {
      if !lines[i].blank {
        if !Inside(lines[i], indent) {
          break;
        }
        last := i;
      }
      i := i + 1;
    }
    span := Span(at + 1, last + 1);
  }

  lemma {:induction false} NextMarkBefore(lines: seq<Line>, from: nat, i: nat)
    requires from <= i < |lines| && !lines[i].blank
    ensures NextMark(lines, from) <= i
    decreases i - from
  {
    if from < i { NextMarkBefore(lines, from + 1, i); }
  }

  lemma NoLonger(lines: seq<Line>, at: nat, a: Span, b: Span)
    requires IsConstruct(lines, at, a) && IsConstruct(lines, at, b)
    ensures b.last <= a.last
  {
    if a.last < b.last { NextMarkBefore(lines, a.last, b.last - 1); }
  }

  /** There is one such construct: the walk finds the only span that fits. */
  lemma ConstructIsUnique(lines: seq<Line>, at: nat, a: Span, b: Span)
    requires IsConstruct(lines, at, a) && IsConstruct(lines, at, b)
    ensures a == b
  {
    NoLonger(lines, at, a, b);
    NoLonger(lines, at, b, a);
  }

  // ---------------------------------------------------------------------------
  // The check and the holder

  // Each name's own constructs.
  type Spans = map<Name, seq<Span>>

  ghost predicate Opens(spans: Spans, span: Span) {
    exists name :: name in spans && span in spans[name]
  }

  // Whether a line a citation cites, outside every construct found, still quotes
  // one of its names.
  ghost predicate QuotedOutside(spans: Spans, start: nat, end: nat, quotes: set<nat>) {
    exists n :: start <= n <= end && n in quotes && !(exists s :: Opens(spans, s) && s.first <= n <= s.last)
  }

  // `_construct_defect`: names that open constructs, none of which the citation
  // holds or sits in, and no line of it outside them quoting a name.
  ghost predicate ConstructDefect(spans: Spans, start: nat, end: nat, quotes: set<nat>) {
    && (exists s :: Opens(spans, s))
    && !(exists s :: Opens(spans, s) && Holds(s, start, end))
    && !QuotedOutside(spans, start, end, quotes)
  }

  predicate Nested(inner: Span, outer: Span) {
    outer.first <= inner.first && inner.last <= outer.last
  }

  function Length(s: Span): int { s.last - s.first }

  // The one holder inside every other and shorter than each.
  ghost predicate Innermost(holders: seq<(Name, Span)>, name: Name) {
    exists i :: 0 <= i < |holders| && holders[i].0 == name && InnermostAt(holders, i)
  }

  ghost predicate InnermostAt(holders: seq<(Name, Span)>, i: nat)
    requires i < |holders|
  {
    forall j :: 0 <= j < |holders| && holders[j].0 != holders[i].0 ==>
      Nested(holders[i].1, holders[j].1) && Length(holders[i].1) < Length(holders[j].1)
  }

  ghost predicate DistinctNames(holders: seq<(Name, Span)>) {
    forall i, j :: 0 <= i < j < |holders| ==> holders[i].0 != holders[j].0
  }

  method NestedInAll(holders: seq<(Name, Span)>, i: nat) returns (ok: bool)
    requires i < |holders|
    ensures ok == InnermostAt(holders, i)
  {
    for k := 0 to |holders|
      invariant forall j :: 0 <= j < k && holders[j].0 != holders[i].0 ==>
        Nested(holders[i].1, holders[j].1) && Length(holders[i].1) < Length(holders[j].1)
    {
      var nested := Nested(holders[i].1, holders[k].1) && Length(holders[i].1) < Length(holders[k].1);
      if holders[k].0 != holders[i].0 && !nested {
        return false;
      }
    }
    ok := true;
  }

  /** The sole holder is the innermost one, and there is never a second. */
  method SoleHolder(holders: seq<(Name, Span)>) returns (best: Option<Name>)
    requires DistinctNames(holders)
    ensures forall name :: best == Some(name) <==> Innermost(holders, name)
  {
    best := None;
    ghost var at := 0;
    for k := 0 to |holders|
      invariant best.None? ==> forall i :: 0 <= i < k ==> !InnermostAt(holders, i)
      invariant best.Some? ==> at < k && holders[at].0 == best.value && InnermostAt(holders, at)
      invariant best.Some? ==> forall i :: 0 <= i < k && i != at ==> !InnermostAt(holders, i)
    {
      var qualifies := NestedInAll(holders, k);
      if qualifies {
        if best.Some? {
          assert false;
          return None;
        }
        best, at := Some(holders[k].0), k;
      } else if best.Some? {
        assert !InnermostAt(holders, k);
      }
    }
  }

  // ---------------------------------------------------------------------------
  // A citation as it is written

  // `path:n` or `path:n-m`, as `_range` prints it.
  function PrintRange(s: Span): string {
    if s.first == s.last then Decimal(s.first) else Decimal(s.first) + ("-" + Decimal(s.last))
  }

  function PrintCite(path: string, s: Span): string {
    path + (":" + PrintRange(s))
  }

  predicate PathChar(c: char) {
    c != ':' && c != '`' && c != ' ' && c != '\t' && c != '\n' && c != '\r'
  }

  function LeadingPath(text: string): (p: string)
    ensures |p| <= |text| && p == text[..|p|]
  {
    if text == [] || !PathChar(text[0]) then [] else
      assert text[1..][..|LeadingPath(text[1..])|] == LeadingPath(text[1..]);
      [text[0]] + LeadingPath(text[1..])
  }

  // A number, or a number, a dash and another, and nothing more.
  function ParseRange(text: string): Option<Span> {
    var first := Leading(text);
    if first == [] then None
    else if |first| == |text| then Some(Span(Value(first), Value(first)))
    else if text[|first|] != '-' then None
    else
      var rest := text[|first| + 1..];
      var second := Leading(rest);
      if second != [] && |second| == |rest| then Some(Span(Value(first), Value(second))) else None
  }

  // What the text between two backticks cites, if it cites anything.
  function ParseCite(content: string): Option<(string, Span)> {
    var path := LeadingPath(content);
    if |path| < |content| && content[|path|] == ':' && ParseRange(content[|path| + 1..]).Some?
    then Some((path, ParseRange(content[|path| + 1..]).value)) else None
  }

  lemma RangeReads(s: Span)
    ensures ParseRange(PrintRange(s)) == Some(s)
  {
    if s.first == s.last {
      DecimalReads(s.first, "");
      assert Decimal(s.first) + "" == Decimal(s.first);
    } else {
      DecimalReads(s.first, "-" + Decimal(s.last));
      DecimalReads(s.last, "");
      assert Decimal(s.last) + "" == Decimal(s.last);
      assert PrintRange(s)[|Decimal(s.first)| + 1..] == Decimal(s.last);
    }
  }

  lemma {:induction false} LeadingPathOf(path: string, rest: string)
    requires (forall i :: 0 <= i < |path| ==> PathChar(path[i])) && (rest != [] ==> !PathChar(rest[0]))
    ensures LeadingPath(path + rest) == path
  {
    if path == [] {
      assert path + rest == rest;
    } else {
      LeadingPathOf(path[1..], rest);
      assert (path + rest)[1..] == path[1..] + rest;
    }
  }

  /** A citation printed with a range reads back as that range. */
  lemma CiteReads(path: string, s: Span)
    requires forall i :: 0 <= i < |path| ==> PathChar(path[i])
    ensures ParseCite(PrintCite(path, s)) == Some((path, s))
  {
    LeadingPathOf(path, ":" + PrintRange(s));
    RangeReads(s);
    assert PrintCite(path, s)[|path| + 1..] == PrintRange(s);
  }

  // ---------------------------------------------------------------------------
  // The splices

  // One range of the text, and what goes in its place.
  datatype Edit = Edit(from: nat, to: nat, text: string, path: Option<string>)

  // In text order, one after another, inside the text.
  ghost predicate Apart(edits: seq<Edit>, at: nat, length: nat) {
    if edits == [] then at <= length
    else at <= edits[0].from && edits[0].from < edits[0].to && Apart(edits[1..], edits[0].to, length)
  }

  // Every edit made at once: the text between them kept, each range replaced.
  function Replaced(text: string, edits: seq<Edit>, at: nat): string
    requires Apart(edits, at, |text|)
  {
    if edits == [] then text[at..]
    else
      ApartInside(edits, at, |text|);
      text[at..edits[0].from] + edits[0].text + Replaced(text, edits[1..], edits[0].to)
  }

  lemma {:induction false} ApartInside(edits: seq<Edit>, at: nat, length: nat)
    requires Apart(edits, at, length)
    ensures at <= length && (edits != [] ==> edits[0].to <= length)
  {
    if edits != [] { ApartInside(edits[1..], edits[0].to, length); }
  }

  function Splice(text: string, e: Edit): string
    requires e.from <= e.to <= |text|
  {
    text[..e.from] + e.text + text[e.to..]
  }

  lemma {:induction false} ApartInit(edits: seq<Edit>, at: nat, length: nat)
    requires edits != [] && Apart(edits, at, length)
    ensures var init, last := edits[..|edits| - 1], edits[|edits| - 1];
      Apart(init, at, last.from) && at <= last.from < last.to <= length
  {
    ApartInside(edits, at, length);
    if |edits| > 1 {
      ApartInit(edits[1..], edits[0].to, length);
      assert edits[1..][..|edits| - 2] == edits[..|edits| - 1][1..];
    } else {
      assert edits[1..] == [];
    }
  }

  // Making every edit but the last, and then the last, is making them all.
  lemma {:induction false} ReplacedInit(text: string, edits: seq<Edit>, at: nat)
    requires edits != [] && Apart(edits, at, |text|)
    ensures var init, last := edits[..|edits| - 1], edits[|edits| - 1];
      && Apart(init, at, last.from) && last.from < last.to <= |text|
      && Replaced(text, edits, at) == Replaced(text[..last.from], init, at) + last.text + text[last.to..]
  {
    var init, last := edits[..|edits| - 1], edits[|edits| - 1];
    ApartInit(edits, at, |text|);
    if |edits| == 1 {
      assert edits[1..] == [] && init == [];
      assert text[at..last.from] == text[..last.from][at..];
    } else {
      ApartInside(edits, at, |text|);
      ReplacedInit(text, edits[1..], edits[0].to);
      assert edits[1..][..|edits| - 2] == init[1..] && edits[1..][|edits| - 2] == last;
      ReplacedHead(text, text[..last.from], edits, init, at);
      Regroup(text[at..edits[0].from] + edits[0].text, Replaced(text[..last.from], init[1..], edits[0].to), last.text,
              text[last.to..]);
    }
  }

  // The first range is replaced alike in a text cut short past it.
  lemma ReplacedHead(text: string, cut: string, edits: seq<Edit>, init: seq<Edit>, at: nat)
    requires edits != [] && init != [] && edits[0] == init[0] && cut <= text
    requires Apart(edits, at, |text|) && Apart(init, at, |cut|)
    ensures edits[0].from <= |text|
    ensures Replaced(text, edits, at)
      == (text[at..edits[0].from] + edits[0].text) + Replaced(text, edits[1..], edits[0].to)
    ensures Replaced(cut, init, at) == (text[at..edits[0].from] + edits[0].text) + Replaced(cut, init[1..], edits[0].to)
  {
    ApartInside(edits, at, |text|);
    ApartInside(init, at, |cut|);
    assert cut[at..edits[0].from] == text[at..edits[0].from];
  }

  lemma Regroup(a: string, b: string, c: string, d: string)
    ensures a + (b + c + d) == (a + b) + c + d
  {
  }

  // What stands before every edit does not depend on what follows them.
  lemma {:induction false} ReplacedTail(text: string, edits: seq<Edit>, at: nat, tail: string)
    requires Apart(edits, at, |text|)
    ensures Apart(edits, at, |text + tail|) && Replaced(text + tail, edits, at) == Replaced(text, edits, at) + tail
  {
    if edits == [] {
      assert (text + tail)[at..] == text[at..] + tail;
    } else {
      ApartInside(edits, at, |text|);
      ReplacedTail(text, edits[1..], edits[0].to, tail);
      assert (text + tail)[at..edits[0].from] == text[at..edits[0].from];
      Associates(text[at..edits[0].from] + edits[0].text, Replaced(text, edits[1..], edits[0].to), tail);
    }
  }

  // The edits left of one made already, on the text it left.
  lemma SpliceThenRest(text: string, edits: seq<Edit>)
    requires edits != [] && Apart(edits, 0, |text|)
    ensures var init, last := edits[..|edits| - 1], edits[|edits| - 1];
      && last.from <= last.to <= |text| && Apart(init, 0, |Splice(text, last)|)
      && Replaced(Splice(text, last), init, 0) == Replaced(text, edits, 0)
  {
    var init, last := edits[..|edits| - 1], edits[|edits| - 1];
    ReplacedInit(text, edits, 0);
    ReplacedTail(text[..last.from], init, 0, last.text + text[last.to..]);
    Associates(text[..last.from], last.text, text[last.to..]);
    Associates(Replaced(text[..last.from], init, 0), last.text, text[last.to..]);
  }

  /** Splicing from the right, one edit at a time, is replacing every range at
      once: no splice moves a range still to be replaced. */
  method SpliceFromRight(text: string, edits: seq<Edit>) returns (out: string)
    requires Apart(edits, 0, |text|)
    ensures out == Replaced(text, edits, 0)
  {
    out := text;
    var n: nat := |edits|;
    TakeAll(edits);
    while n > 0
      invariant n <= |edits| && Apart(edits[..n], 0, |out|) && Replaced(out, edits[..n], 0) == Replaced(text, edits, 0)
    {
      SpliceThenRest(out, edits[..n]);
      assert edits[..n][..n - 1] == edits[..n - 1];
      n := n - 1;
      out := Splice(out, edits[n]);
    }
    assert out[0..] == out;
  }

  // ---------------------------------------------------------------------------
  // The rewrite

  datatype Defect = Defect(path: Option<string>, offset: nat, replace: Option<(nat, nat)>, spans: Option<Spans>)

  datatype Rewrite = Rewrite(path: Option<string>, was: string, becomes: string)

  // Where a defect moves: onto the one construct its held name opens now.
  function Moves(d: Defect, held: map<nat, Name>): Option<Span> {
    if d.offset in held && d.spans.Some? && held[d.offset] in d.spans.value
       && |d.spans.value[held[d.offset]]| == 1 && d.replace.Some?
    then Some(d.spans.value[held[d.offset]][0]) else None
  }

  function EditsOf(defects: seq<Defect>, held: map<nat, Name>): seq<Edit> {
    if defects == [] then [] else
      var last := defects[|defects| - 1];
      EditsOf(defects[..|defects| - 1], held)
        + (if Moves(last, held).Some? then [Edit(last.replace.value.0, last.replace.value.1,
                                                 PrintRange(Moves(last, held).value), last.path)] else [])
  }

  function LeftOf(defects: seq<Defect>, held: map<nat, Name>): (left: seq<Defect>)
    ensures |left| + |EditsOf(defects, held)| == |defects|
  {
    if defects == [] then [] else
      var last := defects[|defects| - 1];
      LeftOf(defects[..|defects| - 1], held) + (if Moves(last, held).Some? then [] else [last])
  }

  function InsertEdit(edits: seq<Edit>, e: Edit): (r: seq<Edit>)
    ensures |r| == |edits| + 1
  {
    if edits == [] then [e]
    else if e.from < edits[0].from then [e] + edits
    else [edits[0]] + InsertEdit(edits[1..], e)
  }

  // `sorted(edits, key=start)`.
  function InOrder(edits: seq<Edit>): (r: seq<Edit>)
    ensures |r| == |edits|
  {
    if edits == [] then [] else InsertEdit(InOrder(edits[..|edits| - 1]), edits[|edits| - 1])
  }

  predicate Disjoint(a: Edit, b: Edit) {
    a.to <= b.from || b.to <= a.from
  }

  // Ranges of the text, none empty and no two overlapping, in any order.
  ghost predicate Scattered(edits: seq<Edit>, length: nat) {
    edits == [] ||
    (var init, last := edits[..|edits| - 1], edits[|edits| - 1];
     Scattered(init, length) && last.from < last.to <= length && forall e :: e in init ==> Disjoint(e, last))
  }

  lemma {:induction false} InsertApart(edits: seq<Edit>, e: Edit, at: nat, length: nat)
    requires Apart(edits, at, length) && at <= e.from < e.to <= length
    requires forall x :: x in edits ==> Disjoint(x, e)
    ensures Apart(InsertEdit(edits, e), at, length)
    ensures multiset(InsertEdit(edits, e)) == multiset(edits) + multiset{e}
  {
    if edits == [] {
    } else if e.from < edits[0].from {
      assert Disjoint(edits[0], e);
      assert ([e] + edits)[1..] == edits;
    } else {
      assert Disjoint(edits[0], e);
      InsertApart(edits[1..], e, edits[0].to, length);
      assert InsertEdit(edits, e)[1..] == InsertEdit(edits[1..], e);
      assert edits == [edits[0]] + edits[1..];
    }
  }

  lemma InsertInto(ordered: seq<Edit>, init: seq<Edit>, last: Edit, length: nat)
    requires Apart(ordered, 0, length) && multiset(ordered) == multiset(init)
    requires last.from < last.to <= length && forall e :: e in init ==> Disjoint(e, last)
    ensures Apart(InsertEdit(ordered, last), 0, length)
    ensures multiset(InsertEdit(ordered, last)) == multiset(init) + multiset{last}
  {
    forall x | x in ordered ensures Disjoint(x, last) { assert x in multiset(ordered); }
    InsertApart(ordered, last, 0, length);
  }

  /** Ranges that do not overlap are, once sorted, one after another. */
  lemma {:induction false} InOrderApart(edits: seq<Edit>, length: nat)
    requires Scattered(edits, length)
    ensures Apart(InOrder(edits), 0, length) && multiset(InOrder(edits)) == multiset(edits)
  {
    if edits != [] {
      var init, last := edits[..|edits| - 1], edits[|edits| - 1];
      InOrderApart(init, length);
      InsertInto(InOrder(init), init, last, length);
      BagOfLast(edits);
    }
  }

  function RewritesOf(text: string, edits: seq<Edit>): seq<Rewrite> {
    if edits == [] then [] else
      var last := edits[|edits| - 1];
      RewritesOf(text, edits[..|edits| - 1])
        + [Rewrite(last.path, if last.from <= last.to <= |text| then text[last.from..last.to] else [], last.text)]
  }

  /** Every defect is moved or left as it stands, the moves made as if all at
      once: every character outside their ranges is kept. */
  method RewriteMovedCitations(text: string, defects: seq<Defect>, held: map<nat, Name>)
    returns (newText: string, rewrites: seq<Rewrite>, left: seq<Defect>)
    requires Scattered(EditsOf(defects, held), |text|)
    ensures Apart(InOrder(EditsOf(defects, held)), 0, |text|)
    ensures newText == Replaced(text, InOrder(EditsOf(defects, held)), 0)
    ensures rewrites == RewritesOf(text, InOrder(EditsOf(defects, held)))
    ensures left == LeftOf(defects, held) && |left| + |EditsOf(defects, held)| == |defects|
  {
    var edits := [];
    left := [];
    for i := 0 to |defects|
      invariant edits == EditsOf(defects[..i], held) && left == LeftOf(defects[..i], held)
    {
      TakeNext(defects, i);
      InitLast(defects[..i], defects[i]);
      var moved := Moves(defects[i], held);
      if moved.Some? {
        edits := edits + [Edit(defects[i].replace.value.0, defects[i].replace.value.1, PrintRange(moved.value),
                               defects[i].path)];
      } else {
        left := left + [defects[i]];
      }
    }
    TakeAll(defects);
    InOrderApart(edits, |text|);
    newText := SpliceFromRight(text, InOrder(edits));
    rewrites := RewritesOf(text, InOrder(edits));
  }

  lemma {:induction false} LeftIffStays(defects: seq<Defect>, held: map<nat, Name>, d: Defect)
    ensures d in LeftOf(defects, held) <==> d in defects && Moves(d, held).None?
  {
    if defects != [] {
      LeftIffStays(defects[..|defects| - 1], held, d);
      assert defects == defects[..|defects| - 1] + [defects[|defects| - 1]];
    }
  }

  // ---------------------------------------------------------------------------
  // A moved citation, read where it lands

  // Where the k-th edit's text lands when every edit is made, from `at` on.
  function Place(edits: seq<Edit>, at: nat, length: nat, k: nat): nat
    requires Apart(edits, at, length) && k < |edits|
  {
    if k == 0 then edits[0].from - at
    else (edits[0].from - at) + |edits[0].text| + Place(edits[1..], edits[0].to, length, k - 1)
  }

  // What is kept before the k-th edit starts at the edit before it, and what is
  // kept after it ends at the next.
  function KeptFrom(edits: seq<Edit>, at: nat, k: nat): nat
    requires k < |edits|
  {
    if k == 0 then at else edits[k - 1].to
  }

  function KeptTo(edits: seq<Edit>, length: nat, k: nat): nat
    requires k < |edits|
  {
    if k + 1 < |edits| then edits[k + 1].from else length
  }

  ghost predicate CopiedAt(text: string, from: nat, to: nat, out: string, at: int, i: nat) {
    from <= i < to ==> i < |text| && 0 <= at + (i - from) < |out| && out[at + (i - from)] == text[i]
  }

  // The text between two places, found again at `at`.
  ghost predicate Copied(text: string, from: nat, to: nat, out: string, at: int) {
    forall i :: CopiedAt(text, from, to, out, at, i)
  }

  // The k-th edit's text at its place, between the text kept on either side.
  ghost predicate LandsAt(text: string, edits: seq<Edit>, at: nat, out: string, p: nat, k: nat)
    requires k < |edits|
  {
    var e, from, to := edits[k], KeptFrom(edits, at, k), KeptTo(edits, |text|, k);
    && Copied(text, from, e.from, out, p - (e.from - from))
    && Copied(e.text, 0, |e.text|, out, p)
    && Copied(text, e.to, to, out, p + |e.text|)
  }

  lemma CopiedLater(text: string, from: nat, to: nat, head: string, rest: string, at: int)
    requires Copied(text, from, to, rest, at)
    ensures Copied(text, from, to, head + rest, |head| + at)
  {
    var out, later := head + rest, |head| + at;
    forall i: nat ensures CopiedAt(text, from, to, out, later, i) {
      assert CopiedAt(text, from, to, rest, at, i);
    }
  }

  // What follows an edit stands first in the rest.
  lemma RestStarts(text: string, edits: seq<Edit>, at: nat)
    requires Apart(edits, at, |text|)
    ensures Copied(text, at, if edits == [] then |text| else edits[0].from, Replaced(text, edits, at), 0)
  {
    ApartInside(edits, at, |text|);
  }

  lemma HeadCopied(text: string, at: nat, e: Edit, rest: string)
    requires at <= e.from <= |text|
    ensures var out := (text[at..e.from] + e.text) + rest;
      Copied(text, at, e.from, out, 0) && Copied(e.text, 0, |e.text|, out, e.from - at)
  {
  }

  lemma ReplacedOne(text: string, edits: seq<Edit>, at: nat)
    requires edits != [] && Apart(edits, at, |text|)
    ensures Apart(edits[1..], edits[0].to, |text|) && at <= edits[0].from <= |text|
    ensures Replaced(text, edits, at)
      == (text[at..edits[0].from] + edits[0].text) + Replaced(text, edits[1..], edits[0].to)
  {
    ApartInside(edits, at, |text|);
  }

  lemma FirstLands(text: string, edits: seq<Edit>, at: nat, head: string, rest: string)
    requires edits != [] && at <= edits[0].from <= |text| && head == text[at..edits[0].from] + edits[0].text
    requires Copied(text, edits[0].to, KeptTo(edits, |text|, 0), rest, 0)
    ensures LandsAt(text, edits, at, head + rest, edits[0].from - at, 0)
  {
    HeadCopied(text, at, edits[0], rest);
    CopiedLater(text, edits[0].to, KeptTo(edits, |text|, 0), head, rest, 0);
  }

  lemma LandsLater(text: string, edits: seq<Edit>, at: nat, head: string, rest: string, p: nat, k: nat)
    requires 0 < k < |edits| && LandsAt(text, edits[1..], edits[0].to, rest, p, k - 1)
    ensures LandsAt(text, edits, at, head + rest, |head| + p, k)
  {
    var e, from, to := edits[k], KeptFrom(edits, at, k), KeptTo(edits, |text|, k);
    assert edits[1..][k - 1] == e;
    CopiedLater(text, from, e.from, head, rest, p - (e.from - from));
    CopiedLater(e.text, 0, |e.text|, head, rest, p);
    CopiedLater(text, e.to, to, head, rest, p + |e.text|);
  }

  /** Each edit's text stands where it lands, with the text before it and after it
      kept, however long the other edits are. */
  lemma {:induction false} Lands(text: string, edits: seq<Edit>, at: nat, k: nat)
    requires Apart(edits, at, |text|) && k < |edits|
    ensures LandsAt(text, edits, at, Replaced(text, edits, at), Place(edits, at, |text|, k), k)
  {
    ReplacedOne(text, edits, at);
    var head, rest := text[at..edits[0].from] + edits[0].text, Replaced(text, edits[1..], edits[0].to);
    if k == 0 {
      RestStarts(text, edits[1..], edits[0].to);
      FirstLands(text, edits, at, head, rest);
    } else {
      Lands(text, edits[1..], edits[0].to, k - 1);
      LandsLater(text, edits, at, head, rest, Place(edits[1..], edits[0].to, |text|, k - 1), k);
    }
  }

  // A range of the text as a citation carries it: between the colon after its
  // path, which starts the backticked content, and the closing backtick.
  ghost predicate Stands(text: string, start: nat, from: nat, to: nat) {
    && start < from < to < |text| && text[from - 1] == ':' && text[to] == '`'
    && (forall i :: start <= i < from - 1 ==> PathChar(text[i])) && IsDigit(text[from])
  }

  ghost predicate StandsAsCitation(text: string, d: Defect) {
    d.replace.Some? && Stands(text, d.offset, d.replace.value.0, d.replace.value.1)
  }

  // Every defect that moves is a citation of this text.
  ghost predicate Cited(text: string, defects: seq<Defect>, held: map<nat, Name>) {
    forall d :: d in defects && Moves(d, held).Some? ==> StandsAsCitation(text, d)
  }

  ghost predicate InCitation(text: string, e: Edit) {
    exists start :: Stands(text, start, e.from, e.to)
  }

  lemma {:induction false} EditsAreInCitations(text: string, defects: seq<Defect>, held: map<nat, Name>)
    requires Cited(text, defects, held)
    ensures forall e :: e in EditsOf(defects, held) ==> InCitation(text, e)
  {
    if defects != [] {
      var init, last := defects[..|defects| - 1], defects[|defects| - 1];
      assert defects == init + [last];
      EditsAreInCitations(text, init, held);
      if Moves(last, held).Some? {
        assert Stands(text, last.offset, last.replace.value.0, last.replace.value.1);
      }
    }
  }

  // The citation before ends before this one's content starts.
  lemma CitationsApart(text: string, start: nat, e: Edit, before: Edit)
    requires Stands(text, start, e.from, e.to) && InCitation(text, before) && before.to <= e.from
    ensures before.to < start
  {
    var other :| Stands(text, other, before.from, before.to);
    assert text[before.to] == '`' && text[e.from] != '`' && text[e.from - 1] != '`';
  }

  lemma {:induction false} ApartAt(edits: seq<Edit>, at: nat, length: nat, k: nat)
    requires Apart(edits, at, length) && 0 < k < |edits|
    ensures edits[k - 1].to <= edits[k].from
  {
    if k > 1 { ApartAt(edits[1..], edits[0].to, length, k - 1); }
  }

  // The content a moved citation has now.
  function Content(text: string, d: Defect, s: Span): string
    requires StandsAsCitation(text, d)
  {
    PrintCite(text[d.offset..d.replace.value.0 - 1], s)
  }

  // The content stands at `at`, closed by its backtick and opened as it was.
  ghost predicate ReadsAt(text: string, newText: string, d: Defect, s: Span, at: int)
    requires StandsAsCitation(text, d)
  {
    var content := Content(text, d, s);
    && 0 <= at && at + |content| < |newText| && newText[at..at + |content|] == content && newText[at + |content|] == '`'
    && (0 < d.offset && text[d.offset - 1] == '`' ==> 0 < at && newText[at - 1] == '`')
  }

  // Two copies side by side, and the character after them.
  lemma TwoCopies(text: string, start: nat, from: nat, more: string, out: string, p: nat)
    requires start <= from <= |text| && Copied(text, start, from, out, p - (from - start)) && start < from
    requires Copied(more, 0, |more|, out, p) && p + |more| < |out|
    ensures 0 <= p - (from - start) && out[p - (from - start)..p + |more|] == text[start..from] + more
  {
    var at := p - (from - start);
    assert CopiedAt(text, start, from, out, at, start);
    forall i | 0 <= i < (from - start) + |more| ensures out[at..p + |more|][i] == (text[start..from] + more)[i] {
      if i < from - start {
        assert CopiedAt(text, start, from, out, at, start + i);
      } else {
        assert CopiedAt(more, 0, |more|, out, p, i - (from - start));
      }
    }
  }

  lemma CopiedPart(text: string, from: nat, to: nat, out: string, at: int, start: nat)
    requires Copied(text, from, to, out, at) && from <= start
    ensures Copied(text, start, to, out, at + (start - from))
  {
    var later := at + (start - from);
    forall i: nat ensures CopiedAt(text, start, to, out, later, i) {
      assert CopiedAt(text, from, to, out, at, i);
    }
  }

  lemma LandsAsContent(text: string, edits: seq<Edit>, out: string, p: nat, k: nat, d: Defect, s: Span)
    requires k < |edits| && LandsAt(text, edits, 0, out, p, k) && StandsAsCitation(text, d)
    requires edits[k].from == d.replace.value.0 && edits[k].to == d.replace.value.1 && edits[k].text == PrintRange(s)
    requires KeptFrom(edits, 0, k) <= (if d.offset == 0 then 0 else d.offset - 1)
    requires edits[k].to < KeptTo(edits, |text|, k)
    ensures ReadsAt(text, out, d, s, p - (edits[k].from - d.offset))
  {
    var e, from, to := edits[k], KeptFrom(edits, 0, k), KeptTo(edits, |text|, k);
    var at := p - (e.from - d.offset);
    assert CopiedAt(text, e.to, to, out, p + |e.text|, e.to);
    CopiedPart(text, from, e.from, out, p - (e.from - from), d.offset);
    TwoCopies(text, d.offset, e.from, e.text, out, p);
    ContentSplits(text, d, s);
    if 0 < d.offset {
      assert CopiedAt(text, from, e.from, out, p - (e.from - from), d.offset - 1);
    }
  }

  lemma ContentSplits(text: string, d: Defect, s: Span)
    requires StandsAsCitation(text, d)
    ensures Content(text, d, s) == text[d.offset..d.replace.value.0] + PrintRange(s)
  {
    assert text[d.offset..d.replace.value.0] == text[d.offset..d.replace.value.0 - 1] + ":";
  }

  // One edit of a text's citations, found where it lands.
  lemma EditReads(text: string, edits: seq<Edit>, k: nat, d: Defect, s: Span) returns (at: int)
    requires Apart(edits, 0, |text|) && k < |edits| && StandsAsCitation(text, d)
    requires edits[k] == Edit(d.replace.value.0, d.replace.value.1, PrintRange(s), d.path)
    requires forall x :: x in edits ==> InCitation(text, x)
    ensures ReadsAt(text, Replaced(text, edits, 0), d, s, at)
  {
    Lands(text, edits, 0, k);
    KeptAround(text, edits, k, d.offset);
    at := Place(edits, 0, |text|, k) - (edits[k].from - d.offset);
    LandsAsContent(text, edits, Replaced(text, edits, 0), Place(edits, 0, |text|, k), k, d, s);
  }

  // What is kept around a citation's range reaches over its content, the
  // backticks included.
  lemma KeptAround(text: string, edits: seq<Edit>, k: nat, start: nat)
    requires Apart(edits, 0, |text|) && k < |edits| && Stands(text, start, edits[k].from, edits[k].to)
    requires forall x :: x in edits ==> InCitation(text, x)
    ensures KeptFrom(edits, 0, k) <= (if start == 0 then 0 else start - 1) && edits[k].to < KeptTo(edits, |text|, k)
  {
    if k > 0 {
      ApartAt(edits, 0, |text|, k);
      CitationsApart(text, start, edits[k], edits[k - 1]);
    }
    if k + 1 < |edits| {
      ApartAt(edits, 0, |text|, k + 1);
      assert InCitation(text, edits[k + 1]);
      var next :| Stands(text, next, edits[k + 1].from, edits[k + 1].to);
      CitationsApart(text, next, edits[k + 1], edits[k]);
    }
  }

  // A defect that moves has its edit among those made.
  lemma EditIndex(text: string, defects: seq<Defect>, held: map<nat, Name>, d: Defect) returns (k: nat)
    requires Scattered(EditsOf(defects, held), |text|) && d in defects && Moves(d, held).Some?
    ensures var edits := InOrder(EditsOf(defects, held));
      k < |edits| && edits[k] == Edit(d.replace.value.0, d.replace.value.1, PrintRange(Moves(d, held).value), d.path)
  {
    var e := Edit(d.replace.value.0, d.replace.value.1, PrintRange(Moves(d, held).value), d.path);
    MovesIsEdit(defects, held, d);
    InOrderApart(EditsOf(defects, held), |text|);
    assert e in multiset(InOrder(EditsOf(defects, held)));
    k :| k < |InOrder(EditsOf(defects, held))| && InOrder(EditsOf(defects, held))[k] == e;
  }

  lemma {:induction false} MovesIsEdit(defects: seq<Defect>, held: map<nat, Name>, d: Defect)
    requires d in defects && Moves(d, held).Some?
    ensures Edit(d.replace.value.0, d.replace.value.1, PrintRange(Moves(d, held).value), d.path)
      in EditsOf(defects, held)
  {
    var init, last := defects[..|defects| - 1], defects[|defects| - 1];
    assert defects == init + [last];
    if d in init {
      MovesIsEdit(init, held, d);
    }
  }

  // A name's one construct is held by a citation of exactly its lines.
  lemma HeldConstructHolds(spans: Spans, name: Name, quotes: set<nat>)
    requires name in spans && |spans[name]| == 1
    ensures !ConstructDefect(spans, spans[name][0].first, spans[name][0].last, quotes)
  {
    var s := spans[name][0];
    assert s in spans[name];
    assert Opens(spans, s) && Holds(s, s.first, s.last);
  }

  lemma ContentReads(text: string, d: Defect, s: Span)
    requires StandsAsCitation(text, d)
    ensures ParseCite(Content(text, d, s)) == Some((text[d.offset..d.replace.value.0 - 1], s))
  {
    CiteReads(text[d.offset..d.replace.value.0 - 1], s);
  }

  // A moved citation stands at `at`, reads as the path written there and the range
  // it was moved to, and is no construct defect.
  ghost predicate ReadsAsMoved(text: string, newText: string, d: Defect, moved: Span, at: int, quotes: set<nat>)
    requires StandsAsCitation(text, d) && d.spans.Some?
  {
    && ReadsAt(text, newText, d, moved, at)
    && ParseCite(Content(text, d, moved)) == Some((text[d.offset..d.replace.value.0 - 1], moved))
    && !ConstructDefect(d.spans.value, moved.first, moved.last, quotes)
  }

  lemma EditReadsAsMoved(text: string, edits: seq<Edit>, k: nat, d: Defect, held: map<nat, Name>, quotes: set<nat>)
    returns (at: int)
    requires Apart(edits, 0, |text|) && k < |edits| && StandsAsCitation(text, d) && Moves(d, held).Some?
    requires edits[k] == Edit(d.replace.value.0, d.replace.value.1, PrintRange(Moves(d, held).value), d.path)
    requires forall x :: x in edits ==> InCitation(text, x)
    ensures ReadsAsMoved(text, Replaced(text, edits, 0), d, Moves(d, held).value, at, quotes)
  {
    at := EditReads(text, edits, k, d, Moves(d, held).value);
    ContentReads(text, d, Moves(d, held).value);
    HeldConstructHolds(d.spans.value, held[d.offset], quotes);
  }

  lemma OrderedInCitations(text: string, defects: seq<Defect>, held: map<nat, Name>)
    requires Scattered(EditsOf(defects, held), |text|) && Cited(text, defects, held)
    ensures Apart(InOrder(EditsOf(defects, held)), 0, |text|)
    ensures forall x :: x in InOrder(EditsOf(defects, held)) ==> InCitation(text, x)
  {
    InOrderApart(EditsOf(defects, held), |text|);
    EditsAreInCitations(text, defects, held);
    forall x | x in InOrder(EditsOf(defects, held)) ensures InCitation(text, x) {
      assert x in multiset(InOrder(EditsOf(defects, held)));
    }
  }

  /** A moved citation is found again in the rewritten text, between backticks,
      wherever the other moves have put it: it reads as the path written there and
      the construct's own range, and checked again over the same lines and names
      it is no construct defect. */
  lemma MovedReads(text: string, defects: seq<Defect>, held: map<nat, Name>, d: Defect, quotes: set<nat>)
    returns (at: int)
    requires Scattered(EditsOf(defects, held), |text|) && Cited(text, defects, held)
    requires d in defects && Moves(d, held).Some?
    ensures StandsAsCitation(text, d) && Apart(InOrder(EditsOf(defects, held)), 0, |text|)
    ensures ReadsAsMoved(text, Replaced(text, InOrder(EditsOf(defects, held)), 0), d, Moves(d, held).value, at, quotes)
  {
    OrderedInCitations(text, defects, held);
    var k := EditIndex(text, defects, held, d);
    at := EditReadsAsMoved(text, InOrder(EditsOf(defects, held)), k, d, held, quotes);
  }

  // ---------------------------------------------------------------------------
  // Sentences

  // Spans tile a text of this length: each starts where the one before it ends.
  ghost predicate Tiles(spans: seq<(nat, nat)>, at: nat, length: nat) {
    if spans == [] then at == length
    else spans[0].0 == at && spans[0].0 < spans[0].1 && Tiles(spans[1..], spans[0].1, length)
  }

  ghost predicate Ascends(boundaries: seq<nat>, length: nat) {
    boundaries == [] ||
    (&& boundaries[0] <= length && (|boundaries| > 1 ==> boundaries[0] < boundaries[1])
     && Ascends(boundaries[1..], length))
  }

  // `_sentence_spans`: each boundary to the next, or to the end.
  function SentenceSpans(boundaries: seq<nat>, length: nat): seq<(nat, nat)> {
    if boundaries == [] then [] else
      var end := if |boundaries| > 1 then boundaries[1] else length;
      (if end > boundaries[0] then [(boundaries[0], end)] else []) + SentenceSpans(boundaries[1..], length)
  }

  lemma {:induction false} SentencesTile(boundaries: seq<nat>, length: nat)
    requires boundaries != [] && Ascends(boundaries, length)
    ensures Tiles(SentenceSpans(boundaries, length), boundaries[0], length)
  {
    if |boundaries| > 1 {
      SentencesTile(boundaries[1..], length);
      assert SentenceSpans(boundaries, length)[1..] == SentenceSpans(boundaries[1..], length);
    } else {
      assert boundaries[1..] == [];
      if length > boundaries[0] { assert SentenceSpans(boundaries, length)[1..] == []; }
    }
  }

  ghost predicate InSpan(spans: seq<(nat, nat)>, i: nat, p: nat)
    requires i < |spans|
  {
    spans[i].0 <= p < spans[i].1
  }

  /** Every place in a text is in exactly one of its sentences. */
  lemma {:induction false} OneSentence(spans: seq<(nat, nat)>, at: nat, length: nat, p: nat)
    requires Tiles(spans, at, length) && at <= p < length
    ensures exists i ::
      0 <= i < |spans| && InSpan(spans, i, p) && forall j :: 0 <= j < |spans| && j != i ==> !InSpan(spans, j, p)
  {
    SpansPast(spans[1..], spans[0].1, length, p);
    if p < spans[0].1 {
      assert InSpan(spans, 0, p);
      forall j | 0 <= j < |spans| && j != 0 ensures !InSpan(spans, j, p) {
        assert spans[j] == spans[1..][j - 1];
        assert !InSpan(spans[1..], j - 1, p);
      }
    } else {
      OneSentence(spans[1..], spans[0].1, length, p);
      var i :| 0 <= i < |spans[1..]| && InSpan(spans[1..], i, p)
        && forall j :: 0 <= j < |spans[1..]| && j != i ==> !InSpan(spans[1..], j, p);
      assert InSpan(spans, i + 1, p);
      forall j | 0 <= j < |spans| && j != i + 1 ensures !InSpan(spans, j, p) {
        if j > 0 { assert spans[j] == spans[1..][j - 1]; assert !InSpan(spans[1..], j - 1, p); }
      }
    }
  }

  lemma {:induction false} SpansPast(spans: seq<(nat, nat)>, at: nat, length: nat, p: nat)
    requires Tiles(spans, at, length)
    ensures p < at ==> forall j :: 0 <= j < |spans| ==> !InSpan(spans, j, p)
  {
    if spans != [] {
      SpansPast(spans[1..], spans[0].1, length, p);
      if p < at {
        forall j | 0 <= j < |spans| ensures !InSpan(spans, j, p) {
          if j > 0 { assert spans[j] == spans[1..][j - 1]; assert !InSpan(spans[1..], j - 1, p); }
        }
      }
    }
  }
}
