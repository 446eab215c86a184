/** Joining hard-wrapped prose so that a term is found across a line break, as
    `normalize` of hooks/retired_vocabulary.py does, with the line each character
    came from. */
module Vocabulary {
  import opened Lists

  predicate IsSpace(c: char) {
    c == ' ' || c == '\t' || c == '\r' || c == '\n'
  }

  // A text is characters and maximal runs of whitespace between them.
  datatype Token = Mark(c: char) | Run(space: string)

  // The whitespace a text begins with.
  function Leading(text: string): (run: string)
    ensures |run| <= |text| && run == text[..|run|] && (forall i :: 0 <= i < |run| ==> IsSpace(run[i]))
    ensures |run| < |text| ==> !IsSpace(text[|run|])
  {
    if text == [] || !IsSpace(text[0]) then [] else
      assert text[1..][..|Leading(text[1..])|] == Leading(text[1..]);
      [text[0]] + Leading(text[1..])
  }

  function Tokens(text: string): seq<Token> {
    if text == [] then []
    else if !IsSpace(text[0]) then [Mark(text[0])] + Tokens(text[1..])
    else [Run(Leading(text))] + Tokens(text[|Leading(text)|..])
  }

  function Render(ts: seq<Token>): string {
    if ts == [] then [] else (if ts[0].Mark? then [ts[0].c] else ts[0].space) + Render(ts[1..])
  }

  function Newlines(s: string): nat {
    if s == [] then 0 else (if s[0] == '\n' then 1 else 0) + Newlines(s[1..])
  }

  // Runs are whitespace, not empty, and never side by side.
  ghost predicate Alternating(ts: seq<Token>) {
    ts == [] ||
    (&& (ts[0].Mark? ==> !IsSpace(ts[0].c))
     && (ts[0].Run? ==> ts[0].space != [] && (forall i :: 0 <= i < |ts[0].space| ==> IsSpace(ts[0].space[i]))
                        && (|ts| > 1 ==> ts[1].Mark?))
     && Alternating(ts[1..]))
  }

  lemma {:induction false} TokensRender(text: string)
    ensures Render(Tokens(text)) == text
    decreases |text|
  {
    if text != [] {
      var n := if IsSpace(text[0]) then |Leading(text)| else 1;
      TokensRender(text[n..]);
      Split(text, n);
      if n == 1 { assert text[..1] == [text[0]]; }
    }
  }

  lemma {:induction false} TokensAlternate(text: string)
    ensures Alternating(Tokens(text))
    ensures text != [] && !IsSpace(text[0]) ==> Tokens(text) != [] && Tokens(text)[0].Mark?
    decreases |text|
  {
    if text != [] {
      TokensAlternate(text[if IsSpace(text[0]) then |Leading(text)| else 1..]);
    }
  }

  lemma {:induction false} LeadingOf(run: string, rest: string)
    requires forall i :: 0 <= i < |run| ==> IsSpace(run[i])
    requires rest != [] ==> !IsSpace(rest[0])
    ensures Leading(run + rest) == run
  {
    if run == [] {
      assert run + rest == rest;
    } else {
      LeadingOf(run[1..], rest);
      assert (run + rest)[1..] == run[1..] + rest;
    }
  }

  lemma RenderStarts(ts: seq<Token>)
    requires Alternating(ts) && ts != [] && ts[0].Mark?
    ensures Render(ts) != [] && Render(ts)[0] == ts[0].c && !IsSpace(Render(ts)[0])
  {
  }

  /** Tokens survive being rendered: a text is its tokens. */
  lemma {:induction false} TokensOfRender(ts: seq<Token>)
    requires Alternating(ts)
    ensures Tokens(Render(ts)) == ts
  {
    if ts != [] {
      TokensOfRender(ts[1..]);
      if ts[0].Mark? {
        assert Render(ts)[1..] == Render(ts[1..]);
      } else {
        if |ts| > 1 { RenderStarts(ts[1..]); } else { assert Render(ts[1..]) == []; }
        LeadingOf(ts[0].space, Render(ts[1..]));
        assert Render(ts)[|ts[0].space|..] == Render(ts[1..]);
      }
    }
  }

  // ---------------------------------------------------------------------------
  // What normalising makes of the tokens

  // A run with one line break joins: to nothing after a hyphen, else to a space.
  function Joined(ts: seq<Token>, hyphen: bool): seq<Token> {
    if ts == [] then []
    else if ts[0].Mark? then [ts[0]] + Joined(ts[1..], ts[0].c == '-')
    else if Newlines(ts[0].space) != 1 then [ts[0]] + Joined(ts[1..], false)
    else if hyphen then Joined(ts[1..], hyphen)
    else [Run(" ")] + Joined(ts[1..], false)
  }

  // No run is left with exactly one line break.
  ghost predicate Clean(ts: seq<Token>) {
    ts == [] || ((ts[0].Run? ==> Newlines(ts[0].space) != 1) && Clean(ts[1..]))
  }

  // The paragraph breaks, in order.
  function Breaks(ts: seq<Token>): seq<string> {
    if ts == [] then [] else
      (if ts[0].Run? && Newlines(ts[0].space) >= 2 then [ts[0].space] else []) + Breaks(ts[1..])
  }

  // The characters that are no whitespace, in order.
  function Marks(ts: seq<Token>): string {
    if ts == [] then [] else (if ts[0].Mark? then [ts[0].c] else []) + Marks(ts[1..])
  }

  lemma NewlinesOne()
    ensures Newlines(" ") == 0
  {
    assert " "[1..] == "";
  }

  lemma {:induction false} JoinedKeeps(ts: seq<Token>, hyphen: bool)
    requires Alternating(ts)
    ensures Alternating(Joined(ts, hyphen)) && Clean(Joined(ts, hyphen))
    ensures Breaks(Joined(ts, hyphen)) == Breaks(ts) && Marks(Joined(ts, hyphen)) == Marks(ts)
    ensures ts != [] && ts[0].Mark? ==> Joined(ts, hyphen) != [] && Joined(ts, hyphen)[0] == ts[0]
  {
    if ts != [] {
      NewlinesOne();
      JoinedKeeps(ts[1..], if ts[0].Mark? then ts[0].c == '-' else Newlines(ts[0].space) == 1 && hyphen);
      var j := Joined(ts, hyphen);
      if ts[0].Mark? || Newlines(ts[0].space) != 1 || !hyphen {
        var rest := Joined(ts[1..], if ts[0].Mark? then ts[0].c == '-' else false);
        assert j[1..] == rest;
        if ts[0].Run? && |ts| == 1 { assert rest == []; }
      }
    }
  }

  lemma {:induction false} CleanStays(ts: seq<Token>, hyphen: bool)
    requires Clean(ts)
    ensures Joined(ts, hyphen) == ts
  {
    if ts != [] {
      CleanStays(ts[1..], if ts[0].Mark? then ts[0].c == '-' else false);
      assert ts == [ts[0]] + ts[1..];
    }
  }

  // The text normalising a text comes to.
  function Normal(text: string): string {
    Render(Joined(Tokens(text), false))
  }

  /** Normalising keeps the meaning: the characters in their order and the
      paragraph breaks as they were, and no line break left alone. */
  lemma NormalKeepsMeaning(text: string)
    ensures Tokens(Normal(text)) == Joined(Tokens(text), false)
    ensures Marks(Tokens(Normal(text))) == Marks(Tokens(text))
    ensures Breaks(Tokens(Normal(text))) == Breaks(Tokens(text))
    ensures Clean(Tokens(Normal(text)))
  {
    TokensAlternate(text);
    JoinedKeeps(Tokens(text), false);
    TokensOfRender(Joined(Tokens(text), false));
  }

  /** Normalising twice is normalising once. */
  lemma NormalIsIdempotent(text: string)
    ensures Normal(Normal(text)) == Normal(text)
  {
    NormalKeepsMeaning(text);
    CleanStays(Joined(Tokens(text), false), false);
  }

  // ---------------------------------------------------------------------------
  // The line each character came from

  function Repeat(line: nat, n: nat): (r: seq<nat>)
    ensures |r| == n
  {
    if n == 0 then [] else [line] + Repeat(line, n - 1)
  }

  // The lines of a run copied through.
  function RunLines(run: string, line: nat): (r: seq<nat>)
    ensures |r| == |run|
  {
    if run == [] then [] else [line] + RunLines(run[1..], line + (if run[0] == '\n' then 1 else 0))
  }

  // The line of each character of the joined text.
  function JoinedLines(ts: seq<Token>, hyphen: bool, line: nat): seq<nat> {
    if ts == [] then []
    else if ts[0].Mark? then [line] + JoinedLines(ts[1..], ts[0].c == '-', line)
    else
      var n := Newlines(ts[0].space);
      if n == 0 then Repeat(line, |ts[0].space|) + JoinedLines(ts[1..], false, line)
      else if n > 1 then RunLines(ts[0].space, line) + JoinedLines(ts[1..], false, line + n)
      else if hyphen then JoinedLines(ts[1..], hyphen, line + 1)
      else [line] + JoinedLines(ts[1..], false, line + 1)
  }

  // The characters that are no whitespace, each with the line given for it.
  function Placed(text: string, lines: seq<nat>): seq<(char, nat)>
    requires |text| == |lines|
  {
    if text == [] then [] else (if IsSpace(text[0]) then [] else [(text[0], lines[0])]) + Placed(text[1..], lines[1..])
  }

  // The same with the line each stands on.
  function Standing(text: string, line: nat): seq<(char, nat)> {
    if text == [] then [] else
      (if IsSpace(text[0]) then [] else [(text[0], line)])
        + Standing(text[1..], line + (if text[0] == '\n' then 1 else 0))
  }

  lemma {:induction false} PlacedSpaces(run: string, lines: seq<nat>, rest: string, restLines: seq<nat>)
    requires |run| == |lines| && |rest| == |restLines| && forall i :: 0 <= i < |run| ==> IsSpace(run[i])
    ensures Placed(run + rest, lines + restLines) == Placed(rest, restLines)
  {
    if run == [] {
      assert run + rest == rest && lines + restLines == restLines;
    } else {
      PlacedSpaces(run[1..], lines[1..], rest, restLines);
      assert (run + rest)[1..] == run[1..] + rest && (lines + restLines)[1..] == lines[1..] + restLines;
    }
  }

  lemma {:induction false} StandingSpaces(run: string, rest: string, line: nat)
    requires forall i :: 0 <= i < |run| ==> IsSpace(run[i])
    ensures Standing(run + rest, line) == Standing(rest, line + Newlines(run))
  {
    if run == [] {
      assert run + rest == rest;
    } else {
      StandingSpaces(run[1..], rest, line + (if run[0] == '\n' then 1 else 0));
      assert (run + rest)[1..] == run[1..] + rest;
    }
  }

  lemma {:induction false} LinesMatch(ts: seq<Token>, hyphen: bool, line: nat)
    requires Alternating(ts)
    ensures |Render(Joined(ts, hyphen))| == |JoinedLines(ts, hyphen, line)|
    ensures Placed(Render(Joined(ts, hyphen)), JoinedLines(ts, hyphen, line)) == Standing(Render(ts), line)
    decreases |ts|, 1
  {
    if ts != [] {
      if ts[0].Mark? {
        LinesMatch(ts[1..], ts[0].c == '-', line);
        MarkMatches(ts, hyphen, line);
      } else {
        RunMatches(ts, hyphen, line);
      }
    }
  }

  lemma MarkMatches(ts: seq<Token>, hyphen: bool, line: nat)
    requires Alternating(ts) && ts != [] && ts[0].Mark?
    requires |Render(Joined(ts[1..], ts[0].c == '-'))| == |JoinedLines(ts[1..], ts[0].c == '-', line)|
    requires Placed(Render(Joined(ts[1..], ts[0].c == '-')), JoinedLines(ts[1..], ts[0].c == '-', line))
      == Standing(Render(ts[1..]), line)
    ensures |Render(Joined(ts, hyphen))| == |JoinedLines(ts, hyphen, line)|
    ensures Placed(Render(Joined(ts, hyphen)), JoinedLines(ts, hyphen, line)) == Standing(Render(ts), line)
  {
    var rest := Joined(ts[1..], ts[0].c == '-');
    assert Joined(ts, hyphen)[1..] == rest;
    assert Render(Joined(ts, hyphen))[1..] == Render(rest);
    assert JoinedLines(ts, hyphen, line)[1..] == JoinedLines(ts[1..], ts[0].c == '-', line);
    assert Render(ts)[1..] == Render(ts[1..]);
  }

  lemma RunMatches(ts: seq<Token>, hyphen: bool, line: nat)
    requires Alternating(ts) && ts != [] && ts[0].Run?
    ensures |Render(Joined(ts, hyphen))| == |JoinedLines(ts, hyphen, line)|
    ensures Placed(Render(Joined(ts, hyphen)), JoinedLines(ts, hyphen, line)) == Standing(Render(ts), line)
    decreases |ts|, 0
  {
    StandingSpaces(ts[0].space, Render(ts[1..]), line);
    var n, run := Newlines(ts[0].space), ts[0].space;
    var next := n == 1 && hyphen;
    LinesMatch(ts[1..], next, line + n);
    var rest, lines := Joined(ts[1..], next), JoinedLines(ts[1..], next, line + n);
    if !next {
      assert Joined(ts, hyphen)[1..] == rest;
      PlacedSpaces(if n == 1 then " " else run,
                   if n == 0 then Repeat(line, |run|) else if n == 1 then [line] else RunLines(run, line), Render(rest),
                   lines);
    }
  }

  /** Each character keeps the line it stood on, and the characters their order. */
  lemma NormalKeepsLines(text: string)
    ensures |Normal(text)| == |JoinedLines(Tokens(text), false, 1)|
    ensures Placed(Normal(text), JoinedLines(Tokens(text), false, 1)) == Standing(text, 1)
  {
    TokensAlternate(text);
    TokensRender(text);
    LinesMatch(Tokens(text), false, 1);
  }

  // Whether what is written so far ends in a hyphen once `copied` is behind it.
  predicate HyphenAfter(hyphen: bool, copied: string) {
    if copied == [] then hyphen else EndsInHyphen(copied)
  }

  // One turn of the loop: the next character, or the whole next run.
  method TakeToken(rest: string, hyphen: bool, line: nat)
    returns (copied: string, lines: seq<nat>, after: nat, next: nat)
    requires rest != []
    ensures 0 < after <= |rest|
    ensures Render(Joined(Tokens(rest), hyphen))
      == copied + Render(Joined(Tokens(rest[after..]), HyphenAfter(hyphen, copied)))
    ensures JoinedLines(Tokens(rest), hyphen, line)
      == lines + JoinedLines(Tokens(rest[after..]), HyphenAfter(hyphen, copied), next)
  {
    var run := Leading(rest);
    if run == [] {
      MarkTaken(rest, hyphen, line);
      return [rest[0]], [line], 1, line;
    }
    RunTaken(rest, hyphen, line);
    var newlines := Newlines(run);
    after, next := |run|, line + newlines;
    if newlines == 0 {
      copied, lines := run, Repeat(line, |run|);
    } else if newlines > 1 {
      copied, lines := run, RunLines(run, line);
    } else if !hyphen {
      copied, lines := " ", [line];
    } else {
      copied, lines := [], [];
    }
  }

  lemma MarkTaken(rest: string, hyphen: bool, line: nat)
    requires rest != [] && !IsSpace(rest[0])
    ensures Render(Joined(Tokens(rest), hyphen)) == [rest[0]] + Render(Joined(Tokens(rest[1..]), rest[0] == '-'))
    ensures JoinedLines(Tokens(rest), hyphen, line) == [line] + JoinedLines(Tokens(rest[1..]), rest[0] == '-', line)
  {
    var ts := Tokens(rest);
    assert ts[0] == Mark(rest[0]) && ts[1..] == Tokens(rest[1..]);
    assert Joined(ts, hyphen)[1..] == Joined(ts[1..], rest[0] == '-');
  }

  lemma RunTaken(rest: string, hyphen: bool, line: nat)
    requires rest != [] && IsSpace(rest[0])
    ensures var run := Leading(rest); var n, after := Newlines(run), Tokens(rest[|run|..]);
      && run != [] && !EndsInHyphen(run)
      && Render(Joined(Tokens(rest), hyphen)) ==
        (if n != 1 then run + Render(Joined(after, false))
         else if hyphen then Render(Joined(after, true)) else " " + Render(Joined(after, false)))
      && JoinedLines(Tokens(rest), hyphen, line) ==
        (if n == 0 then Repeat(line, |run|) + JoinedLines(after, false, line)
         else if n > 1 then RunLines(run, line) + JoinedLines(after, false, line + n)
         else if hyphen then JoinedLines(after, true, line + 1)
         else [line] + JoinedLines(after, false, line + 1))
  {
    RunFirst(rest);
    RunRendered(Tokens(rest), Leading(rest), hyphen);
    RunLined(Tokens(rest), Leading(rest), hyphen, line);
  }

  // A text that starts with whitespace starts with that run.
  lemma RunFirst(rest: string)
    requires rest != [] && IsSpace(rest[0])
    ensures var run := Leading(rest);
      && Tokens(rest) == [Run(run)] + Tokens(rest[|run|..]) && run != [] && !EndsInHyphen(run)
  {
    var run := Leading(rest);
    assert run[|run| - 1] != '-';
  }

  lemma RunRendered(ts: seq<Token>, run: string, hyphen: bool)
    requires ts != [] && ts[0] == Run(run)
    ensures Render(Joined(ts, hyphen)) ==
      (if Newlines(run) != 1 then run + Render(Joined(ts[1..], false))
       else if hyphen then Render(Joined(ts[1..], true)) else " " + Render(Joined(ts[1..], false)))
  {
    if Newlines(run) != 1 || !hyphen { assert Joined(ts, hyphen)[1..] == Joined(ts[1..], false); }
  }

  lemma RunLined(ts: seq<Token>, run: string, hyphen: bool, line: nat)
    requires ts != [] && ts[0] == Run(run)
    ensures JoinedLines(ts, hyphen, line) ==
      (if Newlines(run) == 0 then Repeat(line, |run|) + JoinedLines(ts[1..], false, line)
       else if Newlines(run) > 1 then RunLines(run, line) + JoinedLines(ts[1..], false, line + Newlines(run))
       else if hyphen then JoinedLines(ts[1..], true, line + 1)
       else [line] + JoinedLines(ts[1..], false, line + 1))
  {
  }

  // What is written, and what the rest of the text comes to, are the whole.
  ghost predicate Midway(text: string, out: string, lineOf: seq<nat>, rest: string, line: nat) {
    && Normal(text) == out + Render(Joined(Tokens(rest), EndsInHyphen(out)))
    && JoinedLines(Tokens(text), false, 1) == lineOf + JoinedLines(Tokens(rest), EndsInHyphen(out), line)
  }

  lemma MidwayNext(text: string, out: string, lineOf: seq<nat>, rest: string, line: nat, copied: string,
                   lines: seq<nat>, rest': string, line': nat)
    requires Midway(text, out, lineOf, rest, line)
    requires Render(Joined(Tokens(rest), EndsInHyphen(out)))
      == copied + Render(Joined(Tokens(rest'), HyphenAfter(EndsInHyphen(out), copied)))
    requires JoinedLines(Tokens(rest), EndsInHyphen(out), line)
      == lines + JoinedLines(Tokens(rest'), HyphenAfter(EndsInHyphen(out), copied), line')
    ensures Midway(text, out + copied, lineOf + lines, rest', line')
  {
    var hyphen := EndsInHyphen(out + copied);
    assert hyphen == HyphenAfter(EndsInHyphen(out), copied) by { if copied == [] { assert out + copied == out; } }
    Associates(out, copied, Render(Joined(Tokens(rest'), hyphen)));
    Associates(lineOf, lines, JoinedLines(Tokens(rest'), hyphen, line'));
  }

  /** Joins line-wrapped whitespace, leaving paragraph breaks alone, with the
      line each character came from. */
  method Normalize(text: string) returns (out: string, lineOf: seq<nat>)
    ensures out == Normal(text) && lineOf == JoinedLines(Tokens(text), false, 1)
    ensures |out| == |lineOf| && Placed(out, lineOf) == Standing(text, 1)
  {
    out, lineOf := [], [];
    var line, pos := 1, 0;
    assert text[0..] == text;
    while pos < |text|
      invariant pos <= |text| && Midway(text, out, lineOf, text[pos..], line)
    {
      var copied, lines, after, next := TakeToken(text[pos..], EndsInHyphen(out), line);
      assert text[pos..][after..] == text[pos + after..];
      MidwayNext(text, out, lineOf, text[pos..], line, copied, lines, text[pos + after..], next);
      out, lineOf, pos, line := out + copied, lineOf + lines, pos + after, next;
    }
    NormalKeepsLines(text);
  }

  predicate EndsInHyphen(out: string) {
    out != [] && out[|out| - 1] == '-'
  }

  lemma {:induction false} PlacedHolds(text: string, lines: seq<nat>, i: nat)
    requires |text| == |lines| && i < |text| && !IsSpace(text[i])
    ensures (text[i], lines[i]) in Placed(text, lines)
  {
    if i > 0 { PlacedHolds(text[1..], lines[1..], i - 1); }
  }

  // Every place a pattern is found starts on a character of a word.
  ghost predicate StartOnMarks(out: string, starts: seq<nat>) {
    forall k :: 0 <= k < |starts| ==> starts[k] < |out| && !IsSpace(out[starts[k]])
  }

  /** The lines a retired term starts on: each is the line, in the text as it was
      written, of a character a match starts with, and no match is left out. */
  method FindHits(text: string, matches: string -> seq<nat>) returns (hits: set<nat>)
    requires StartOnMarks(Normal(text), matches(Normal(text)))
    ensures |JoinedLines(Tokens(text), false, 1)| == |Normal(text)|
    ensures forall k ::
      0 <= k < |matches(Normal(text))| ==> JoinedLines(Tokens(text), false, 1)[matches(Normal(text))[k]] in hits
    ensures forall l ::
      l in hits ==>
        exists k :: 0 <= k < |matches(Normal(text))| && (Normal(text)[matches(Normal(text))[k]], l) in Standing(text, 1)
  {
    var out, lineOf := Normalize(text);
    hits := Collect(out, lineOf, matches(out));
  }

  method Collect(out: string, lineOf: seq<nat>, starts: seq<nat>) returns (hits: set<nat>)
    requires |out| == |lineOf| && StartOnMarks(out, starts)
    ensures forall k :: 0 <= k < |starts| ==> lineOf[starts[k]] in hits
    ensures forall l :: l in hits ==> exists k :: 0 <= k < |starts| && (out[starts[k]], l) in Placed(out, lineOf)
  {
    hits := {};
    for n := 0 to |starts|
      invariant forall k :: 0 <= k < n ==> lineOf[starts[k]] in hits
      invariant forall l :: l in hits ==> exists k :: 0 <= k < |starts| && (out[starts[k]], l) in Placed(out, lineOf)
    {
      PlacedHolds(out, lineOf, starts[n]);
      hits := hits + {lineOf[starts[n]]};
    }
  }
}
