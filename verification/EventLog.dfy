/** One task's event log, read whole and polled from a byte offset, as
    saffron/events.py and saffron/watch.py do. What a line parses to is given. */
module EventLog {
  import opened Wrappers
  import opened Lists

  newtype byte = x: int | 0 <= x < 256

  const NEWLINE: byte := 10

  type Parser<!E> = seq<byte> -> Option<E>

  // The lines a newline ends, and the part after the last of them.
  datatype Cut = Cut(lines: seq<seq<byte>>, partial: seq<byte>)

  function CutOf(chunk: seq<byte>): Cut {
    if chunk == [] then Cut([], [])
    else
      var rest := CutOf(chunk[1..]);
      if chunk[0] == NEWLINE then Cut([[]] + rest.lines, rest.partial)
      else if rest.lines == [] then Cut([], [chunk[0]] + rest.partial)
      else Cut([[chunk[0]] + rest.lines[0]] + rest.lines[1..], rest.partial)
  }

  function Lines(chunk: seq<byte>): seq<seq<byte>> {
    CutOf(chunk).lines
  }

  function Partial(chunk: seq<byte>): seq<byte> {
    CutOf(chunk).partial
  }

  // Parts with a newline between each two.
  function JoinedBy(parts: seq<seq<byte>>): seq<byte>
    requires parts != []
  {
    if |parts| == 1 then parts[0] else parts[0] + ([NEWLINE] + JoinedBy(parts[1..]))
  }

  // `split(b"\n")`: the parts between newlines, which hold none.
  ghost predicate IsSplit(parts: seq<seq<byte>>, chunk: seq<byte>) {
    parts != [] && (forall part :: part in parts ==> NEWLINE !in part) && JoinedBy(parts) == chunk
  }

  function Parsed<E>(parse: Parser<E>, lines: seq<seq<byte>>): seq<E> {
    if lines == [] then [] else
      var event := parse(lines[|lines| - 1]);
      Parsed(parse, lines[..|lines| - 1]) + (if event.Some? then [event.value] else [])
  }

  // The events of a log's complete lines.
  function EventsOf<E>(parse: Parser<E>, file: seq<byte>): seq<E> {
    Parsed(parse, Lines(file))
  }

  // At the very start, or just past a newline.
  predicate Boundary(file: seq<byte>) {
    file == [] || file[|file| - 1] == NEWLINE
  }

  lemma {:induction false} ParsedConcat<E>(parse: Parser<E>, a: seq<seq<byte>>, b: seq<seq<byte>>)
    ensures Parsed(parse, a + b) == Parsed(parse, a) + Parsed(parse, b)
  {
    if b == [] {
      assert a + b == a;
    } else {
      ParsedConcat(parse, a, b[..|b| - 1]);
      assert (a + b)[..|a + b| - 1] == a + b[..|b| - 1];
    }
  }

  // A log cut at a boundary splits into the lines before it and those after.
  lemma {:induction false} LinesConcat(a: seq<byte>, b: seq<byte>)
    requires Boundary(a)
    ensures Lines(a + b) == Lines(a) + Lines(b) && Partial(a + b) == Partial(b)
    ensures a != [] ==> Lines(a) != []
  {
    if a == [] {
      assert a + b == b;
    } else {
      assert (a + b)[0] == a[0] && (a + b)[1..] == a[1..] + b;
      LinesConcat(a[1..], b);
    }
  }

  lemma EventsConcat<E>(parse: Parser<E>, a: seq<byte>, b: seq<byte>)
    requires Boundary(a)
    ensures EventsOf(parse, a + b) == EventsOf(parse, a) + EventsOf(parse, b)
  {
    LinesConcat(a, b);
    ParsedConcat(parse, Lines(a), Lines(b));
  }

  lemma {:induction false} NoNewline(chunk: seq<byte>)
    requires NEWLINE !in chunk
    ensures Lines(chunk) == [] && Partial(chunk) == chunk
  {
    if chunk != [] { NoNewline(chunk[1..]); }
  }

  lemma {:induction false} OneLine(line: seq<byte>)
    requires NEWLINE !in line
    ensures Lines(line + [NEWLINE]) == [line]
  {
    if line == [] {
      assert (line + [NEWLINE])[1..] == [];
      assert [[]] + Lines([]) == [line];
    } else {
      OneLine(line[1..]);
      assert (line + [NEWLINE])[1..] == line[1..] + [NEWLINE];
      assert line == [line[0]] + line[1..];
    }
  }

  // The complete lines and what follows them.
  function Parts(chunk: seq<byte>): seq<seq<byte>> {
    Lines(chunk) + [Partial(chunk)]
  }

  // The parts without their first byte, a newline or the first of the first part.
  lemma SplitTail(parts: seq<seq<byte>>, chunk: seq<byte>) returns (rest: seq<seq<byte>>)
    requires IsSplit(parts, chunk) && chunk != []
    ensures IsSplit(rest, chunk[1..])
    ensures chunk[0] == NEWLINE ==> parts == [[]] + rest
    ensures chunk[0] != NEWLINE ==> parts == [[chunk[0]] + rest[0]] + rest[1..]
  {
    if parts[0] == [] {
      rest := parts[1..];
      assert parts == [[]] + rest;
      assert chunk == [NEWLINE] + JoinedBy(rest);
    } else {
      var head, tail := parts[0], parts[0][1..];
      assert head == [head[0]] + tail && head in parts && head[0] in head;
      rest := [tail] + parts[1..];
      assert parts == [head] + parts[1..] && rest[1..] == parts[1..];
      forall part | part in rest ensures NEWLINE !in part {
        if part == tail { assert forall b :: b in tail ==> b in head; } else { assert part in parts; }
      }
      assert chunk[1..] == JoinedBy(rest);
    }
  }

  /** There is one such split: the complete lines and what follows them. */
  lemma {:induction false} SplitIsParts(parts: seq<seq<byte>>, chunk: seq<byte>)
    requires IsSplit(parts, chunk)
    ensures parts == Parts(chunk)
    decreases |chunk|
  {
    if chunk == [] {
      assert |parts| == 1 && parts == [parts[0]];
    } else {
      var rest := SplitTail(parts, chunk);
      SplitIsParts(rest, chunk[1..]);
      if chunk[0] != NEWLINE && Lines(chunk[1..]) != [] {
        assert rest[1..] == Lines(chunk[1..])[1..] + [Partial(chunk[1..])];
      }
    }
  }

  /** Reading the whole log is reading its complete lines, and whatever a line
      caught mid-write happens to parse to. */
  lemma ReadLogIsLinesAndPartial<E>(parse: Parser<E>, file: seq<byte>, parts: seq<seq<byte>>)
    requires IsSplit(parts, file)
    ensures Parsed(parse, parts)
      == EventsOf(parse, file) + (if parse(Partial(file)).Some? then [parse(Partial(file)).value] else [])
  {
    SplitIsParts(parts, file);
    InitLast(Lines(file), Partial(file));
  }

  /** The first newline from `start` on. */
  method FindNewline(chunk: seq<byte>, start: nat) returns (at: Option<nat>)
    requires start <= |chunk|
    ensures at.None? ==> NEWLINE !in chunk[start..]
    ensures at.Some? ==> start <= at.value < |chunk| && chunk[at.value] == NEWLINE && NEWLINE !in chunk[start..at.value]
  {
    for i := start to |chunk|
      invariant NEWLINE !in chunk[start..i]
    {
      if chunk[i] == NEWLINE {
        return Some(i);
      }
    }
    assert chunk[start..|chunk|] == chunk[start..];
    at := None;
  }

  // The events of a chunk's complete lines, and how far those reach.
  method ReadChunk<E>(parse: Parser<E>, chunk: seq<byte>) returns (events: seq<E>, consumed: nat)
    ensures consumed <= |chunk| && Boundary(chunk[..consumed]) && NEWLINE !in chunk[consumed..]
    ensures events == EventsOf(parse, chunk[..consumed]) == EventsOf(parse, chunk)
  {
    events, consumed := [], 0;
    while true
      invariant consumed <= |chunk| && Boundary(chunk[..consumed])
      invariant events == EventsOf(parse, chunk[..consumed])
      decreases |chunk| - consumed
    {
      var at := FindNewline(chunk, consumed);
      if at.None? {
        break;
      }
      var event := parse(chunk[consumed..at.value]);
      NextLine(parse, chunk, consumed, at.value);
      if event.Some? {
        events := events + [event.value];
      }
      consumed := at.value + 1;
    }
    RestIsPartial(parse, chunk, consumed);
  }

  lemma RestIsPartial<E>(parse: Parser<E>, chunk: seq<byte>, consumed: nat)
    requires consumed <= |chunk| && Boundary(chunk[..consumed]) && NEWLINE !in chunk[consumed..]
    ensures EventsOf(parse, chunk) == EventsOf(parse, chunk[..consumed])
  {
    NoNewline(chunk[consumed..]);
    Split(chunk, consumed);
    EventsConcat(parse, chunk[..consumed], chunk[consumed..]);
  }

  /** The events appended since `offset`, and where to read from next: just past
      the last newline, with a line caught mid-write left for the next call. */
  method ReadLogSince<E>(parse: Parser<E>, file: Option<seq<byte>>, offset: nat) returns (events: seq<E>, offset': nat)
    ensures file.None? || offset > |file.value| ==> events == [] && offset' == offset
    ensures file.Some? && offset <= |file.value| ==>
      && offset <= offset' <= |file.value|
      && Boundary(file.value[offset..offset']) && NEWLINE !in file.value[offset'..]
      && events == EventsOf(parse, file.value[offset..])
  {
    if file.None? {
      return [], offset;
    }
    var chunk, consumed := if offset <= |file.value| then file.value[offset..] else [], 0;
    events, consumed := ReadChunk(parse, chunk);
    offset' := offset + consumed;
    if offset <= |file.value| {
      assert file.value[offset..offset'] == chunk[..consumed];
      assert file.value[offset'..] == chunk[consumed..];
    } else {
      assert consumed == 0 && Lines(chunk) == [];
    }
  }

  lemma NextLine<E>(parse: Parser<E>, chunk: seq<byte>, start: nat, at: nat)
    requires start <= at < |chunk| && chunk[at] == NEWLINE && NEWLINE !in chunk[start..at] && Boundary(chunk[..start])
    ensures Boundary(chunk[..at + 1])
    ensures var event := parse(chunk[start..at]);
      EventsOf(parse, chunk[..at + 1]) == EventsOf(parse, chunk[..start]) + (if event.Some? then [event.value] else [])
  {
    var line := chunk[start..at];
    assert chunk[..at + 1] == chunk[..start] + (line + [NEWLINE]);
    OneLine(line);
    EventsConcat(parse, chunk[..start], line + [NEWLINE]);
    assert [line][..0] == [];
    assert Parsed(parse, [line]) == Parsed(parse, []) + (if parse(line).Some? then [parse(line).value] else []);
  }

  // ---------------------------------------------------------------------------
  // Polling

  function Content(file: Option<seq<byte>>): seq<byte> {
    if file.Some? then file.value else []
  }

  // A log only grows: each look at it finds what the one before found, and more.
  ghost predicate Grows(looks: seq<Option<seq<byte>>>) {
    |looks| <= 1 || (Grows(looks[..|looks| - 1]) && Content(looks[|looks| - 2]) <= Content(looks[|looks| - 1]))
  }

  function Latest(looks: seq<Option<seq<byte>>>): seq<byte> {
    if looks == [] then [] else Content(looks[|looks| - 1])
  }

  // Where polling stands: every complete line read once, none beyond.
  ghost predicate Caught<E>(parse: Parser<E>, file: seq<byte>, offset: nat, events: seq<E>) {
    && offset <= |file| && Boundary(file[..offset]) && NEWLINE !in file[offset..]
    && events == EventsOf(parse, file)
  }

  // One more poll of a log that has only grown.
  lemma PollCatches<E>(parse: Parser<E>, before: seq<byte>, file: seq<byte>, offset: nat, events: seq<E>, offset': nat)
    requires Caught(parse, before, offset, events) && before <= file
    requires offset <= offset' <= |file| && Boundary(file[offset..offset']) && NEWLINE !in file[offset'..]
    ensures Caught(parse, file, offset', events + EventsOf(parse, file[offset..]))
  {
    assert before[..offset] == file[..offset];
    RestIsPartial(parse, before, offset);
    Split(file, offset);
    EventsConcat(parse, file[..offset], file[offset..]);
    BoundaryJoins(file, offset, offset');
  }

  lemma BoundaryJoins(file: seq<byte>, a: nat, b: nat)
    requires a <= b <= |file| && Boundary(file[..a]) && Boundary(file[a..b])
    ensures Boundary(file[..b])
  {
    if b > a { assert file[a..b][b - a - 1] == file[b - 1]; }
  }

  // One poll: what is new goes behind what was read.
  method PollOnce<E>(parse: Parser<E>, ghost before: seq<byte>, look: Option<seq<byte>>, offset: nat,
                     ghost events: seq<E>)
    returns (new_: seq<E>, offset': nat)
    requires Caught(parse, before, offset, events) && before <= Content(look)
    ensures Caught(parse, Content(look), offset', events + new_)
    ensures look.Some? ==> new_ == EventsOf(parse, look.value[offset..])
  {
    new_, offset' := ReadLogSince(parse, look, offset);
    if look.Some? {
      PollCatches(parse, before, look.value, offset, events, offset');
    } else {
      assert events + new_ == events;
    }
  }

  /** Polling refines a whole read: whenever the looks happened, what the polls
      returned, put together, is the events of the log's complete lines as it
      stood last, none lost and none twice. */
  method PollAll<E>(parse: Parser<E>, looks: seq<Option<seq<byte>>>) returns (events: seq<E>, offset: nat)
    requires Grows(looks)
    ensures Caught(parse, Latest(looks), offset, events)
  {
    events, offset := [], 0;
    var i := 0;
    while i < |looks|
      invariant i <= |looks| && Caught(parse, Latest(looks[..i]), offset, events)
    {
      GrowsAt(looks, i);
      var new_;
      new_, offset := PollOnce(parse, Latest(looks[..i]), looks[i], offset, events);
      events := events + new_;
      i := i + 1;
    }
    TakeAll(looks);
  }

  lemma {:induction false} GrowsAt(looks: seq<Option<seq<byte>>>, i: nat)
    requires Grows(looks) && i < |looks|
    ensures Latest(looks[..i]) <= Content(looks[i]) && Latest(looks[..i + 1]) == Content(looks[i])
  {
    TakeNext(looks, i);
    if i == |looks| - 1 {
      if i > 0 { assert looks[..i][|looks[..i]| - 1] == looks[|looks| - 2]; }
    } else {
      GrowsAt(looks[..|looks| - 1], i);
      assert looks[..|looks| - 1][..i] == looks[..i];
    }
  }

  // ---------------------------------------------------------------------------
  // Following

  predicate Any<E>(events: seq<E>, starts: E -> bool) {
    events != [] && (Any(events[..|events| - 1], starts) || starts(events[|events| - 1]))
  }

  // The suffix that starts at the last boundary among the events, or all of
  // them when there is none.
  function SinceNewest<E>(events: seq<E>, starts: E -> bool): (r: seq<E>)
    ensures |r| <= |events| && r == events[|events| - |r|..]
    ensures !Any(events, starts) ==> r == events
  {
    if !Any(events, starts) then events
    else
      var init, last := events[..|events| - 1], events[|events| - 1];
      assert events == init + [last];
      if starts(last) then [last] else SinceNewest(init, starts) + [last]
  }

  /** The cut starts at a boundary and holds no other. */
  lemma {:induction false} SinceNewestIsNewest<E>(events: seq<E>, starts: E -> bool)
    requires Any(events, starts)
    ensures var r := SinceNewest(events, starts); r != [] && starts(r[0]) && !Any(r[1..], starts)
  {
    var init, last := events[..|events| - 1], events[|events| - 1];
    if starts(last) {
      assert [last][1..] == [];
    } else {
      SinceNewestIsNewest(init, starts);
      var r := SinceNewest(init, starts);
      TailAppend(r, last);
      InitLast(r[1..], last);
    }
  }

  // `_since_newest_task`: the index of the last boundary, scanned for.
  method SinceNewestTask<E>(events: seq<E>, starts: E -> bool) returns (r: seq<E>)
    ensures r == SinceNewest(events, starts)
  {
    var newest: Option<nat> := None;
    for i := 0 to |events|
      invariant newest.Some? <==> Any(events[..i], starts)
      invariant newest.Some? ==> newest.value < i && events[newest.value..i] == SinceNewest(events[..i], starts)
    {
      TakeNext(events, i);
      InitLast(events[..i], events[i]);
      if newest.Some? { SliceNext(events, newest.value, i); }
      if starts(events[i]) {
        newest := Some(i);
        SliceNext(events, i, i);
      }
    }
    TakeAll(events);
    r := events;
    if newest.Some? {
      r := events[newest.value..];
      assert events[newest.value..|events|] == events[newest.value..];
    }
  }

  function Rendered<E>(events: seq<E>, render: E -> Option<string>): seq<string> {
    if events == [] then [] else
      var line := render(events[|events| - 1]);
      Rendered(events[..|events| - 1], render) + (if line.Some? then [line.value] else [])
  }

  lemma {:induction false} RenderedConcat<E>(a: seq<E>, b: seq<E>, render: E -> Option<string>)
    ensures Rendered(a + b, render) == Rendered(a, render) + Rendered(b, render)
  {
    if b == [] {
      assert a + b == a;
    } else {
      RenderedConcat(a, b[..|b| - 1], render);
      assert (a + b)[..|a + b| - 1] == a + b[..|b| - 1];
    }
  }

  method RenderEach<E>(events: seq<E>, render: E -> Option<string>) returns (lines: seq<string>)
    ensures lines == Rendered(events, render)
  {
    lines := [];
    for i := 0 to |events|
      invariant lines == Rendered(events[..i], render)
    {
      TakeNext(events, i);
      InitLast(events[..i], events[i]);
      var line := render(events[i]);
      if line.Some? {
        lines := lines + [line.value];
      }
    }
    TakeAll(events);
  }

  // What a follower shows of a log it first saw as `first` and last as `file`.
  ghost function Shown<E>(parse: Parser<E>, starts: E -> bool, wholeLog: bool, first: seq<E>, all: seq<E>): seq<E>
    requires |first| <= |all|
  {
    (if wholeLog then first else SinceNewest(first, starts)) + all[|first|..]
  }

  // The first look, the only one that is cut.
  method FollowFirst<E>(parse: Parser<E>, starts: E -> bool, render: E -> Option<string>, wholeLog: bool,
                        look: Option<seq<byte>>)
    returns (lines: seq<string>, offset: nat, ghost first: seq<E>)
    ensures Caught(parse, Content(look), offset, first)
    ensures lines == Rendered(Shown(parse, starts, wholeLog, first, first), render)
  {
    var new_;
    new_, offset := PollOnce(parse, [], look, 0, []);
    assert [] + new_ == new_;
    var shown := new_;
    if !wholeLog {
      shown := SinceNewestTask(new_, starts);
    }
    lines := RenderEach(shown, render);
    first := new_;
    assert shown + first[|first|..] == shown;
  }

  // Every later look.
  method FollowNext<E>(parse: Parser<E>, starts: E -> bool, render: E -> Option<string>, wholeLog: bool,
                       ghost before: seq<byte>,
                       look: Option<seq<byte>>, offset: nat, ghost first: seq<E>, ghost read: seq<E>)
    returns (lines: seq<string>, offset': nat, ghost read': seq<E>)
    requires Caught(parse, before, offset, read) && before <= Content(look) && first <= read
    ensures Caught(parse, Content(look), offset', read') && first <= read'
    ensures Rendered(Shown(parse, starts, wholeLog, first, read'), render)
      == Rendered(Shown(parse, starts, wholeLog, first, read), render) + lines
  {
    var new_;
    new_, offset' := PollOnce(parse, before, look, offset, read);
    lines := RenderEach(new_, render);
    ShownMore(parse, starts, wholeLog, first, read, new_, render);
    read' := read + new_;
  }

  /** Following a log shows every event of its complete lines in order, with only
      what the first look found cut at the newest task's own start. */
  method Follow<E>(parse: Parser<E>, starts: E -> bool, render: E -> Option<string>, wholeLog: bool,
                   looks: seq<Option<seq<byte>>>)
    returns (lines: seq<string>)
    requires looks != [] && Grows(looks)
    ensures EventsOf(parse, Content(looks[0])) <= EventsOf(parse, Latest(looks))
    ensures lines == Rendered(Shown(parse, starts, wholeLog, EventsOf(parse, Content(looks[0])),
                                    EventsOf(parse, Latest(looks))), render)
  {
    GrowsAt(looks, 0);
    var offset, more;
    ghost var first;
    lines, offset, first := FollowFirst(parse, starts, render, wholeLog, looks[0]);
    ghost var read := first;
    var i := 1;
    while i < |looks|
      invariant 1 <= i <= |looks| && first <= read
      invariant Caught(parse, Latest(looks[..i]), offset, read)
      invariant lines == Rendered(Shown(parse, starts, wholeLog, first, read), render)
    {
      GrowsAt(looks, i);
      more, offset, read := FollowNext(parse, starts, render, wholeLog, Latest(looks[..i]), looks[i], offset, first,
                                       read);
      lines := lines + more;
      i := i + 1;
    }
    TakeAll(looks);
  }

  lemma ShownMore<E>(parse: Parser<E>, starts: E -> bool, wholeLog: bool, first: seq<E>, read: seq<E>, new_: seq<E>,
                     render: E -> Option<string>)
    requires first <= read
    ensures Rendered(Shown(parse, starts, wholeLog, first, read + new_), render)
      == Rendered(Shown(parse, starts, wholeLog, first, read), render) + Rendered(new_, render)
  {
    RenderedConcat(Shown(parse, starts, wholeLog, first, read), new_, render);
    var kept := if wholeLog then first else SinceNewest(first, starts);
    assert (read + new_)[|first|..] == read[|first|..] + new_;
    Associates(kept, read[|first|..], new_);
  }
}
