/** What a finding is anchored against: the new-side lines and the changed words
    of a unified diff, as `parse_diff` of saffron/agents/findings.py reads them,
    and the printer it inverts. */
module DiffFacts {
  import opened Wrappers
  import opened Lists
  import opened Text

  // Line numbers covered by a hunk, per new-side path, and every word of an
  // added, removed or renamed line.
  datatype Facts = Facts(lines: map<string, set<nat>>, words: set<string>)

  // ---------------------------------------------------------------------------
  // The hunk header

  datatype Header = Header(oldCount: nat, start: nat, count: nat)

  // A number, and what follows it.
  function TakeNumber(text: string): Option<(nat, string)> {
    var digits := Leading(text);
    if digits == [] then None else Some((Value(digits), text[|digits|..]))
  }

  // A count after a comma, or the one that was left out.
  function TakeCount(text: string): (nat, string) {
    if StartsWith(text, ",") && TakeNumber(text[1..]).Some? then TakeNumber(text[1..]).value else (1, text)
  }

  function TakePrefix(text: string, prefix: string): Option<string> {
    if StartsWith(text, prefix) then Some(text[|prefix|..]) else None
  }

  // One side of a header: its start, and its count.
  function TakeSide(text: string): Option<(nat, nat, string)> {
    match TakeNumber(text)
    case None => None
    case Some((start, rest)) => var counted := TakeCount(rest); Some((start, counted.0, counted.1))
  }

  function MatchHunk(line: string): Option<Header> {
    match TakePrefix(line, "@@ -")
    case None => None
    case Some(afterMark) =>
      match TakeSide(afterMark)
      case None => None
      case Some((_, oldCount, afterOld)) =>
        match TakePrefix(afterOld, " +")
        case None => None
        case Some(beforeNew) =>
          match TakeSide(beforeNew)
          case None => None
          case Some((start, count, afterNew)) =>
            if StartsWith(afterNew, " @@") then Some(Header(oldCount, start, count)) else None
  }

  // A count as printed, or left out when it is one.
  datatype Count = Counted(n: nat) | LeftOut

  function CountOf(c: Count): nat { if c.Counted? then c.n else 1 }

  function PrintCount(c: Count): string {
    if c.Counted? then "," + Decimal(c.n) else ""
  }

  function PrintSide(start: nat, c: Count): string {
    Decimal(start) + PrintCount(c)
  }

  lemma NumberReads(n: nat, rest: string)
    requires rest != [] && !IsDigit(rest[0])
    ensures TakeNumber(Decimal(n) + rest) == Some((n, rest))
  {
    DecimalReads(n, rest);
    StartsAfter(Decimal(n), rest);
  }

  lemma CountReads(c: Count, rest: string)
    requires rest != [] && !IsDigit(rest[0]) && rest[0] != ','
    ensures TakeCount(PrintCount(c) + rest) == (CountOf(c), rest)
  {
    if c.Counted? {
      NumberReads(c.n, rest);
      Associates(",", Decimal(c.n), rest);
      StartsAfter(",", Decimal(c.n) + rest);
    } else {
      assert PrintCount(c) + rest == rest;
    }
  }

  lemma SideReads(start: nat, c: Count, rest: string)
    requires rest != [] && !IsDigit(rest[0]) && rest[0] != ','
    ensures TakeSide(PrintSide(start, c) + rest) == Some((start, CountOf(c), rest))
  {
    Associates(Decimal(start), PrintCount(c), rest);
    NumberReads(start, PrintCount(c) + rest);
    CountReads(c, rest);
  }

  // A header up to its second mark.
  function Stem(oldStart: nat, before: Count, start: nat, count: Count): string {
    "@@ -" + (PrintSide(oldStart, before) + (" +" + (PrintSide(start, count) + " @@")))
  }

  function PrintHeader(oldStart: nat, before: Count, start: nat, count: Count, heading: string): string {
    Stem(oldStart, before, start, count) + heading
  }

  lemma StemEnds(oldStart: nat, before: Count, start: nat, count: Count)
    ensures var stem := Stem(oldStart, before, start, count); stem != [] && stem[0] == '@' && stem[|stem| - 1] == '@'
  {
    var inner := PrintSide(start, count) + " @@";
    LastOf(PrintSide(start, count), " @@");
    LastOf(" +", inner);
    LastOf(PrintSide(oldStart, before), " +" + inner);
    LastOf("@@ -", PrintSide(oldStart, before) + (" +" + inner));
  }

  /** A printed header reads back, whatever heading git puts after it. */
  lemma HeaderReads(oldStart: nat, before: Count, start: nat, count: Count, heading: string)
    ensures MatchHunk(PrintHeader(oldStart, before, start, count, heading))
      == Some(Header(CountOf(before), start, CountOf(count)))
  {
    var afterNew := " @@" + heading;
    var beforeNew := PrintSide(start, count) + afterNew;
    var afterOld := " +" + beforeNew;
    Associates("@@ -", PrintSide(oldStart, before) + (" +" + (PrintSide(start, count) + " @@")), heading);
    Associates(PrintSide(oldStart, before), " +" + (PrintSide(start, count) + " @@"), heading);
    Associates(" +", PrintSide(start, count) + " @@", heading);
    Associates(PrintSide(start, count), " @@", heading);
    StartsAfter("@@ -", PrintSide(oldStart, before) + afterOld);
    SideReads(oldStart, before, afterOld);
    StartsAfter(" +", beforeNew);
    SideReads(start, count, afterNew);
    StartsAfter(" @@", heading);
  }

  // ---------------------------------------------------------------------------
  // The walk

  // One hunk's body by its declared counts: what is left of the lines, and the
  // words collected.
  function Consume(lines: seq<string>, oldLeft: int, newLeft: int, words: set<string>,
                   word: char -> bool): (r: (seq<string>, set<string>))
    ensures |r.0| <= |lines|
  {
    if lines == [] || (oldLeft <= 0 && newLeft <= 0) then (lines, words)
    else
      var body := lines[0];
      if StartsWith(body, "\\") then Consume(lines[1..], oldLeft, newLeft, words, word)
      else if StartsWith(body, "+") then Consume(lines[1..], oldLeft, newLeft - 1, words + Words(body[1..], word), word)
      else if StartsWith(body, "-") then Consume(lines[1..], oldLeft - 1, newLeft, words + Words(body[1..], word), word)
      else Consume(lines[1..], oldLeft - 1, newLeft - 1, words, word)
  }

  function RemovePrefix(text: string, prefix: string): string {
    if StartsWith(text, prefix) then text[|prefix|..] else text
  }

  predicate IsRename(line: string) {
    StartsWith(line, "rename from ") || StartsWith(line, "rename to ")
  }

  // What follows the second space, `line.split(" ", 2)[2]`.
  function Renamed(line: string): string
    requires IsRename(line)
  {
    if StartsWith(line, "rename from ") then line[12..] else line[10..]
  }

  function Range(start: nat, count: nat): set<nat> {
    if count == 0 then {} else Range(start, count - 1) + {start + count - 1}
  }

  lemma {:induction false} RangeHolds(start: nat, count: nat, n: nat)
    ensures n in Range(start, count) <==> start <= n < start + count
  {
    if count > 0 { RangeHolds(start, count - 1, n); }
  }

  function AddLines(m: map<string, set<nat>>, path: string, start: nat, count: nat): map<string, set<nat>> {
    if count == 0 then m
    else m[path := (if path in m then m[path] else {}) + Range(start, count)]
  }

  // The whole walk from one line on, `path` being the file named last.
  function Walk(lines: seq<string>, path: string, facts: Facts, word: char -> bool): Facts
    decreases |lines|
  {
    if lines == [] then facts else
      var line, rest := lines[0], lines[1..];
      if StartsWith(line, "+++ ") then Walk(rest, RemovePrefix(line[4..], "b/"), facts, word)
      else if IsRename(line) then Walk(rest, path, facts.(words := facts.words + Words(Renamed(line), word)), word)
      else match MatchHunk(line)
        case None => Walk(rest, path, facts, word)
        case Some(h) =>
          var (after, words) := Consume(rest, h.oldCount, h.count, facts.words, word);
          Walk(after, path, Facts(AddLines(facts.lines, path, h.start, h.count), words), word)
  }

  /** Walks one hunk body by its declared counts, collecting changed words. */
  method ConsumeHunk(lines: seq<string>, from: nat, oldCount: nat, newCount: nat, words: set<string>,
                     word: char -> bool)
    returns (index: nat, collected: set<string>)
    requires from <= |lines|
    ensures from <= index <= |lines|
    ensures Consume(lines[from..], oldCount, newCount, words, word) == (lines[index..], collected)
  {
    index, collected := from, words;
    var oldLeft: int, newLeft: int := oldCount, newCount;
    while index < |lines| && (oldLeft > 0 || newLeft > 0)
      invariant from <= index <= |lines|
      invariant Consume(lines[from..], oldCount, newCount, words, word)
        == Consume(lines[index..], oldLeft, newLeft, collected, word)
    {
      var body := lines[index];
      DropNext(lines, index);
      index := index + 1;
      if StartsWith(body, "\\") {
        continue;
      }
      if StartsWith(body, "+") {
        newLeft := newLeft - 1;
      } else if StartsWith(body, "-") {
        oldLeft := oldLeft - 1;
      } else {
        oldLeft, newLeft := oldLeft - 1, newLeft - 1;
        continue;
      }
      collected := collected + Words(body[1..], word);
    }
  }

  /** Parses a unified diff into the two facts anchoring needs. */
  method ParseDiff(diff: string, word: char -> bool) returns (facts: Facts)
    ensures facts == Walk(SplitLines(diff), "", Facts(map[], {}), word)
  {
    var lines := SplitLines(diff);
    var covered: map<string, set<nat>>, words: set<string>, path := map[], {}, "";
    var index := 0;
    assert lines[0..] == lines;
    while index < |lines|
      invariant index <= |lines|
      invariant Walk(lines, "", Facts(map[], {}), word) == Walk(lines[index..], path, Facts(covered, words), word)
    {
      var line := lines[index];
      DropNext(lines, index);
      index := index + 1;
      if StartsWith(line, "+++ ") {
        path := RemovePrefix(line[4..], "b/");
      } else if IsRename(line) {
        words := words + Words(Renamed(line), word);
      } else {
        var header := MatchHunk(line);
        if header.Some? {
          covered := AddLines(covered, path, header.value.start, header.value.count);
          index, words := ConsumeHunk(lines, index, header.value.oldCount, header.value.count, words, word);
        }
      }
    }
    facts := Facts(covered, words);
  }

  // ---------------------------------------------------------------------------
  // The printer

  datatype BodyLine = Added(text: string) | Removed(text: string) | Context(text: string) | Blank | Mark(text: string)

  // A line of a diff outside its hunks, or a whole hunk. A mark after a hunk's
  // last line is an inert line of its own.
  datatype Item =
    | Inert(line: string)
    | NewFile(path: string)
    | NoNewFile
    | RenameFrom(path: string)
    | RenameTo(path: string)
    | Hunk(oldStart: nat, before: Count, start: nat, count: Count, heading: string, body: seq<BodyLine>)

  function PrintLine(b: BodyLine): string {
    match b
    case Added(text) => "+" + text
    case Removed(text) => "-" + text
    case Context(text) => " " + text
    case Blank => ""
    case Mark(text) => "\\" + text
  }

  function PrintBody(body: seq<BodyLine>): (lines: seq<string>)
    ensures |lines| == |body|
  {
    if body == [] then [] else [PrintLine(body[0])] + PrintBody(body[1..])
  }

  // A file name on a `+++` line: git ends one that holds a space with a tab, and
  // the parser keeps it.
  function Shown(path: string): string {
    if ' ' in path then path + "\t" else path
  }

  function Print(item: Item): seq<string> {
    match item
    case Inert(line) => [line]
    case NewFile(path) => ["+++ b/" + Shown(path)]
    case NoNewFile => ["+++ /dev/null"]
    case RenameFrom(path) => ["rename from " + path]
    case RenameTo(path) => ["rename to " + path]
    case Hunk(oldStart, before, start, count, heading, body) =>
      [PrintHeader(oldStart, before, start, count, heading)] + PrintBody(body)
  }

  function PrintAll(items: seq<Item>): seq<string> {
    if items == [] then [] else Print(items[0]) + PrintAll(items[1..])
  }

  predicate OnOld(b: BodyLine) { b.Removed? || b.Context? || b.Blank? }
  predicate OnNew(b: BodyLine) { b.Added? || b.Context? || b.Blank? }

  function OldLines(body: seq<BodyLine>): nat {
    if body == [] then 0 else (if OnOld(body[0]) then 1 else 0) + OldLines(body[1..])
  }

  function NewLines(body: seq<BodyLine>): nat {
    if body == [] then 0 else (if OnNew(body[0]) then 1 else 0) + NewLines(body[1..])
  }

  // A line the format gives no meaning outside a hunk.
  predicate Meaningless(line: string) {
    !StartsWith(line, "+++ ") && !IsRename(line) && MatchHunk(line).None?
  }

  // A file name git quotes for no character.
  predicate Plain(path: string) {
    NL !in path && (path == [] || path[|path| - 1] != CR)
  }

  // An item as the format has it: a header's counts are its body's.
  ghost predicate WellFormed(item: Item) {
    match item
    case Inert(line) => NL !in line && Meaningless(Stripped(line))
    case NewFile(path) => Plain(path)
    case NoNewFile => true
    case RenameFrom(path) => Plain(path)
    case RenameTo(path) => Plain(path)
    case Hunk(_, before, _, count, heading, body) =>
      && NL !in heading && (forall b :: b in body ==> b.Blank? || NL !in b.text)
      && CountOf(before) == OldLines(body) && CountOf(count) == NewLines(body)
      && (body != [] ==> !body[|body| - 1].Mark?)
  }

  ghost predicate AllWellFormed(items: seq<Item>) {
    items == [] || (WellFormed(items[0]) && AllWellFormed(items[1..]))
  }

  // ---------------------------------------------------------------------------
  // What a diff says

  function ChangedWords(body: seq<BodyLine>, word: char -> bool): set<string> {
    if body == [] then {}
    else if body[0].Added? || body[0].Removed? then Words(body[0].text, word) + ChangedWords(body[1..], word)
    else ChangedWords(body[1..], word)
  }

  function PathAfter(item: Item, path: string): string {
    match item
    case NewFile(named) => Shown(named)
    case NoNewFile => "/dev/null"
    case _ => path
  }

  // What one item adds under the path named last.
  function Says(item: Item, path: string, facts: Facts, word: char -> bool): Facts {
    match item
    case RenameFrom(named) => facts.(words := facts.words + Words(named, word))
    case RenameTo(named) => facts.(words := facts.words + Words(named, word))
    case Hunk(_, _, start, count, _, body) =>
      Facts(AddLines(facts.lines, path, start, NewLines(body)), facts.words + ChangedWords(body, word))
    case _ => facts
  }

  function SaysAll(items: seq<Item>, path: string, facts: Facts, word: char -> bool): Facts {
    if items == [] then facts else
      SaysAll(items[1..], PathAfter(items[0], path), Says(items[0], path, facts, word), word)
  }

  // ---------------------------------------------------------------------------
  // The parser inverts the printer

  lemma StrippedAfter(prefix: string, text: string)
    requires prefix != [] && prefix[|prefix| - 1] != CR
    ensures Stripped(prefix + text) == prefix + Stripped(text)
  {
    if text != [] {
      assert (prefix + text)[|prefix + text| - 1] == text[|text| - 1];
      assert (prefix + text)[..|prefix + text| - 1] == prefix + text[..|text| - 1];
    } else {
      assert prefix + text == prefix;
    }
  }

  lemma {:induction false} CountedLineLeft(body: seq<BodyLine>)
    requires body != [] && !body[|body| - 1].Mark?
    ensures OldLines(body) + NewLines(body) > 0
  {
    if |body| > 1 { CountedLineLeft(body[1..]); }
  }

  // `all` is the body's printed lines, and then `lines`.
  ghost predicate Printed(body: seq<BodyLine>, all: seq<string>, lines: seq<string>) {
    if body == [] then all == lines
    else all != [] && all[0] == Stripped(PrintLine(body[0])) && Printed(body[1..], all[1..], lines)
  }

  lemma {:induction false} PrintedConcat(body: seq<BodyLine>, lines: seq<string>)
    ensures Printed(body, StrippedAll(PrintBody(body)) + lines, lines)
  {
    if body == [] {
      assert StrippedAll(PrintBody(body)) + lines == lines;
    } else {
      HunkLines(PrintLine(body[0]), PrintBody(body[1..]), lines);
      PrintedConcat(body[1..], lines);
    }
  }

  // Counting stops exactly where the body does, whatever its lines look like.
  lemma {:induction false} ConsumeBody(body: seq<BodyLine>, all: seq<string>, lines: seq<string>, words: set<string>,
                                       word: char -> bool)
    requires body != [] ==> !body[|body| - 1].Mark?
    requires Printed(body, all, lines) && !word(CR)
    ensures Consume(all, OldLines(body), NewLines(body), words, word) == (lines, words + ChangedWords(body, word))
  {
    if body == [] {
      assert words + {} == words;
    } else {
      ConsumeFirst(body, all, words, word);
      CountsLeft(body);
      ConsumeBody(body[1..], all[1..], lines, Gained(body[0], words, word), word);
      WordsLeft(body, words, word);
    }
  }

  lemma ConsumeFirst(body: seq<BodyLine>, all: seq<string>, words: set<string>, word: char -> bool)
    requires body != [] && !body[|body| - 1].Mark? && !word(CR)
    requires all != [] && all[0] == Stripped(PrintLine(body[0]))
    ensures Consume(all, OldLines(body), NewLines(body), words, word)
      == Consume(all[1..], OldLines(body[1..]), NewLines(body[1..]), Gained(body[0], words, word), word)
  {
    CountedLineLeft(body);
    CountsLeft(body);
    ConsumeOne(body[0], all, OldLines(body), NewLines(body), OldLines(body[1..]), NewLines(body[1..]), words, word);
  }

  // What a hunk's first line leaves of its counts and of its words.
  lemma CountsLeft(body: seq<BodyLine>)
    requires body != []
    ensures OldLines(body) - (if OnOld(body[0]) then 1 else 0) == OldLines(body[1..])
    ensures NewLines(body) - (if OnNew(body[0]) then 1 else 0) == NewLines(body[1..])
    ensures body[1..] != [] ==> body[1..][|body[1..]| - 1] == body[|body| - 1]
  {
  }

  lemma WordsLeft(body: seq<BodyLine>, words: set<string>, word: char -> bool)
    requires body != []
    ensures Gained(body[0], words, word) + ChangedWords(body[1..], word) == words + ChangedWords(body, word)
  {
    if body[0].Added? || body[0].Removed? {
      Union3(words, Words(body[0].text, word), ChangedWords(body[1..], word));
    }
  }

  lemma Union3(a: set<string>, b: set<string>, c: set<string>)
    ensures (a + b) + c == a + (b + c)
  {
  }

  function Gained(b: BodyLine, words: set<string>, word: char -> bool): set<string> {
    if b.Added? || b.Removed? then words + Words(b.text, word) else words
  }

  lemma ConsumeOne(b: BodyLine, all: seq<string>, oldLeft: nat, newLeft: nat, oldNext: nat, newNext: nat,
                   words: set<string>, word: char -> bool)
    requires all != [] && all[0] == Stripped(PrintLine(b)) && oldLeft + newLeft > 0 && !word(CR)
    requires oldLeft == oldNext + (if OnOld(b) then 1 else 0) && newLeft == newNext + (if OnNew(b) then 1 else 0)
    ensures Consume(all, oldLeft, newLeft, words, word)
      == Consume(all[1..], oldNext, newNext, Gained(b, words, word), word)
  {
    BodyLineReads(b, word);
  }

  lemma BodyLineReads(b: BodyLine, word: char -> bool)
    requires !word(CR)
    ensures var line := Stripped(PrintLine(b));
      && (b.Mark? <==> StartsWith(line, "\\"))
      && (b.Added? <==> StartsWith(line, "+")) && (b.Removed? <==> StartsWith(line, "-"))
      && (b.Added? || b.Removed? ==> Words(line[1..], word) == Words(b.text, word))
  {
    if !b.Blank? {
      var prefix := match b case Added(_) => "+" case Removed(_) => "-" case Context(_) => " " case _ => "\\";
      StrippedAfter(prefix, b.text);
      StartsAfter(prefix, Stripped(b.text));
      WordsStripped(b.text, [], word);
    }
  }

  lemma PlainKeeps(prefix: string, path: string)
    requires prefix != [] && prefix[|prefix| - 1] != CR && Plain(path)
    ensures Stripped(prefix + path) == prefix + path
  {
    StrippedAfter(prefix, path);
  }

  // A printed header still reads, and is taken for nothing else.
  lemma HunkLineReads(oldStart: nat, before: Count, start: nat, count: Count, heading: string)
    ensures var line := Stripped(PrintHeader(oldStart, before, start, count, heading));
      && MatchHunk(line) == Some(Header(CountOf(before), start, CountOf(count)))
      && !StartsWith(line, "+++ ") && !IsRename(line)
  {
    var stem := Stem(oldStart, before, start, count);
    StemEnds(oldStart, before, start, count);
    StrippedAfter(stem, heading);
    HeaderReads(oldStart, before, start, count, Stripped(heading));
    NoStart(stem + Stripped(heading), "+++ ");
    NoStart(stem + Stripped(heading), "rename from ");
    NoStart(stem + Stripped(heading), "rename to ");
  }

  lemma NewFileReads(path: string)
    requires Plain(path)
    ensures var line := Stripped("+++ b/" + path); StartsWith(line, "+++ ") && RemovePrefix(line[4..], "b/") == path
  {
    PlainKeeps("+++ b/", path);
    assert "+++ b/" + path == "+++ " + ("b/" + path);
    StartsAfter("+++ ", "b/" + path);
    StartsAfter("b/", path);
  }

  lemma RenameFromReads(path: string)
    requires Plain(path)
    ensures var line := Stripped("rename from " + path);
      !StartsWith(line, "+++ ") && IsRename(line) && Renamed(line) == path
  {
    PlainKeeps("rename from ", path);
    StartsAfter("rename from ", path);
    NoStart("rename from " + path, "+++ ");
  }

  lemma RenameToReads(path: string)
    requires Plain(path)
    ensures var line := Stripped("rename to " + path);
      !StartsWith(line, "+++ ") && IsRename(line) && Renamed(line) == path
  {
    PlainKeeps("rename to ", path);
    StartsAfter("rename to ", path);
    NoStart("rename to " + path, "+++ ");
  }

  lemma NoNewFileReads()
    ensures var line := Stripped("+++ /dev/null");
      StartsWith(line, "+++ ") && RemovePrefix(line[4..], "b/") == "/dev/null"
  {
    assert "+++ /dev/null" == "+++ " + "/dev/null";
    PlainKeeps("+++ ", "/dev/null");
    StartsAfter("+++ ", "/dev/null");
    NoStart("/dev/null", "b/");
  }

  lemma OneLine(line: string, lines: seq<string>)
    ensures (StrippedAll([line]) + lines)[0] == Stripped(line) && (StrippedAll([line]) + lines)[1..] == lines
  {
  }

  lemma HunkLines(header: string, body: seq<string>, lines: seq<string>)
    ensures var all := StrippedAll([header] + body) + lines;
      all[0] == Stripped(header) && all[1..] == StrippedAll(body) + lines
  {
  }

  lemma HunkReads(item: Item, lines: seq<string>, path: string, facts: Facts, word: char -> bool)
    requires item.Hunk? && WellFormed(item) && !word(CR)
    ensures Walk(StrippedAll(Print(item)) + lines, path, facts, word)
      == Walk(lines, path, Says(item, path, facts, word), word)
  {
    var header := PrintHeader(item.oldStart, item.before, item.start, item.count, item.heading);
    HunkLineReads(item.oldStart, item.before, item.start, item.count, item.heading);
    HunkLines(header, PrintBody(item.body), lines);
    PrintedConcat(item.body, lines);
    ConsumeBody(item.body, StrippedAll(PrintBody(item.body)) + lines, lines, facts.words, word);
  }

  // One item read off the front of a diff.
  lemma ItemReads(item: Item, lines: seq<string>, path: string, facts: Facts, word: char -> bool)
    requires WellFormed(item) && !word(CR)
    ensures Walk(StrippedAll(Print(item)) + lines, path, facts, word)
      == Walk(lines, PathAfter(item, path), Says(item, path, facts, word), word)
  {
    match item {
      case Inert(line) => OneLine(line, lines);
      case NewFile(named) => OneLine("+++ b/" + Shown(named), lines); NewFileReads(Shown(named));
      case NoNewFile => OneLine("+++ /dev/null", lines); NoNewFileReads();
      case RenameFrom(named) => OneLine("rename from " + named, lines); RenameFromReads(named);
      case RenameTo(named) => OneLine("rename to " + named, lines); RenameToReads(named);
      case Hunk(_, _, _, _, _, _) => HunkReads(item, lines, path, facts, word);
    }
  }

  lemma {:induction false} AllRead(items: seq<Item>, path: string, facts: Facts, word: char -> bool)
    requires AllWellFormed(items) && !word(CR)
    ensures Walk(StrippedAll(PrintAll(items)), path, facts, word) == SaysAll(items, path, facts, word)
  {
    if items != [] {
      StrippedConcat(Print(items[0]), PrintAll(items[1..]));
      ItemReads(items[0], StrippedAll(PrintAll(items[1..])), path, facts, word);
      AllRead(items[1..], PathAfter(items[0], path), Says(items[0], path, facts, word), word);
    }
  }

  // ---------------------------------------------------------------------------
  // No printed line holds a newline

  lemma {:induction false} DecimalUnbroken(n: nat)
    ensures NL !in Decimal(n)
  {
    forall c | c in Decimal(n) ensures c != NL {
      var i :| 0 <= i < |Decimal(n)| && Decimal(n)[i] == c;
      assert IsDigit(Decimal(n)[i]);
    }
  }

  lemma SideUnbroken(start: nat, c: Count)
    ensures NL !in PrintSide(start, c)
  {
    DecimalUnbroken(start);
    if c.Counted? { DecimalUnbroken(c.n); }
  }

  lemma HeaderUnbroken(oldStart: nat, before: Count, start: nat, count: Count, heading: string)
    requires NL !in heading
    ensures NL !in PrintHeader(oldStart, before, start, count, heading)
  {
    SideUnbroken(oldStart, before);
    SideUnbroken(start, count);
    var inner := PrintSide(start, count) + " @@";
    assert NL !in inner;
    assert NL !in " +" + inner;
    assert NL !in PrintSide(oldStart, before) + (" +" + inner);
    assert NL !in Stem(oldStart, before, start, count);
  }

  lemma {:induction false} BodyUnbroken(body: seq<BodyLine>)
    requires forall b :: b in body ==> b.Blank? || NL !in b.text
    ensures AllUnbroken(PrintBody(body))
  {
    if body != [] {
      assert body[0] in body;
      BodyUnbroken(body[1..]);
    }
  }

  lemma {:induction false} PrintUnbroken(items: seq<Item>)
    requires AllWellFormed(items)
    ensures AllUnbroken(PrintAll(items))
  {
    if items != [] {
      PrintUnbroken(items[1..]);
      ItemUnbroken(items[0]);
      UnbrokenConcat(Print(items[0]), PrintAll(items[1..]));
    }
  }

  lemma ItemUnbroken(item: Item)
    requires WellFormed(item)
    ensures AllUnbroken(Print(item))
  {
    if item.Hunk? {
      HeaderUnbroken(item.oldStart, item.before, item.start, item.count, item.heading);
      BodyUnbroken(item.body);
      UnbrokenConcat([PrintHeader(item.oldStart, item.before, item.start, item.count, item.heading)],
                     PrintBody(item.body));
    }
  }

  /** The parser inverts the printer: whatever the body lines look like, a
      well-formed diff parses to exactly what its items say. */
  lemma ParseInvertsPrint(items: seq<Item>, word: char -> bool)
    requires AllWellFormed(items) && !word(CR)
    ensures Walk(SplitLines(Join(PrintAll(items))), "", Facts(map[], {}), word)
      == SaysAll(items, "", Facts(map[], {}), word)
  {
    PrintUnbroken(items);
    SplitLinesJoin(PrintAll(items));
    AllRead(items, "", Facts(map[], {}), word);
    if PrintAll(items) == [] { assert StrippedAll([]) == []; }
  }

  // ---------------------------------------------------------------------------
  // What that comes to, hunk by hunk and word by word

  // Some hunk under `named` covers new-side line n.
  predicate Covers(items: seq<Item>, path: string, named: string, n: nat) {
    items != [] &&
    (|| (items[0].Hunk? && path == named && items[0].start <= n < items[0].start + NewLines(items[0].body))
     || Covers(items[1..], PathAfter(items[0], path), named, n))
  }

  // Some added, removed or renamed line holds the word.
  predicate Mentions(items: seq<Item>, w: string, word: char -> bool) {
    items != [] &&
    (|| (items[0].Hunk? && w in ChangedWords(items[0].body, word))
     || ((items[0].RenameFrom? || items[0].RenameTo?) && w in Words(items[0].path, word))
     || Mentions(items[1..], w, word))
  }

  predicate At(m: map<string, set<nat>>, path: string, n: nat) {
    path in m && n in m[path]
  }

  /** A line of a file is a hunk line exactly when some hunk of that file covers
      it, and a word is a token exactly when a changed or renamed line holds it. */
  lemma {:induction false} FactsMean(items: seq<Item>, path: string, facts: Facts, word: char -> bool, named: string,
                                     n: nat, w: string)
    ensures At(SaysAll(items, path, facts, word).lines, named, n) <==>
      At(facts.lines, named, n) || Covers(items, path, named, n)
    ensures w in SaysAll(items, path, facts, word).words <==> w in facts.words || Mentions(items, w, word)
  {
    if items != [] {
      FactsMean(items[1..], PathAfter(items[0], path), Says(items[0], path, facts, word), word, named, n, w);
      if items[0].Hunk? { RangeHolds(items[0].start, NewLines(items[0].body), n); }
    }
  }
}
