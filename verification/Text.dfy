/** Text as the line-based readers see it: splitting on the newline, decimal
    numbers, and the words of a line. */
module Text {
  import opened Lists

  const NL: char := '\n'
  const CR: char := '\r'

  // ---------------------------------------------------------------------------
  // Lines

  // `text.split("\n")`.
  function Split(text: string): (parts: seq<string>)
    ensures parts != []
  {
    if text == [] then [[]]
    else if text[0] == NL then [[]] + Split(text[1..])
    else var rest := Split(text[1..]); [[text[0]] + rest[0]] + rest[1..]
  }

  function Join(lines: seq<string>): string {
    if lines == [] then [] else lines[0] + [NL] + Join(lines[1..])
  }

  ghost predicate Unbroken(line: string) {
    NL !in line
  }

  ghost predicate AllUnbroken(lines: seq<string>) {
    forall line :: line in lines ==> Unbroken(line)
  }

  lemma {:induction false} SplitFirst(line: string, rest: string)
    requires Unbroken(line)
    ensures Split(line + [NL] + rest) == [line] + Split(rest)
  {
    if line == [] {
      assert ([] + [NL] + rest)[1..] == rest;
      assert line + [NL] + rest == [NL] + rest;
    } else {
      SplitFirst(line[1..], rest);
      assert (line + [NL] + rest)[1..] == line[1..] + [NL] + rest;
      assert line == [line[0]] + line[1..];
    }
  }

  // Splitting a joined text gives the lines back, and one empty part at the end.
  lemma {:induction false} SplitJoin(lines: seq<string>)
    requires AllUnbroken(lines)
    ensures Split(Join(lines)) == lines + [[]]
  {
    if lines != [] {
      SplitFirst(lines[0], Join(lines[1..]));
      SplitJoin(lines[1..]);
      assert lines == [lines[0]] + lines[1..];
    }
  }

  // A line without the carriage return git leaves on one that ends in CRLF.
  function Stripped(line: string): string {
    if line != [] && line[|line| - 1] == CR then line[..|line| - 1] else line
  }

  function StrippedAll(lines: seq<string>): (r: seq<string>)
    ensures |r| == |lines| && forall i :: 0 <= i < |r| ==> r[i] == Stripped(lines[i])
  {
    seq(|lines|, i requires 0 <= i < |lines| => Stripped(lines[i]))
  }

  lemma StrippedConcat(a: seq<string>, b: seq<string>)
    ensures StrippedAll(a + b) == StrippedAll(a) + StrippedAll(b)
  {
  }

  lemma UnbrokenConcat(a: seq<string>, b: seq<string>)
    requires AllUnbroken(a) && AllUnbroken(b)
    ensures AllUnbroken(a + b)
  {
  }

  // `split_lines`: on the newline alone, never on what else Python calls a line
  // break.
  function SplitLines(text: string): seq<string> {
    var parts := Split(text);
    StrippedAll(if text != [] && text[|text| - 1] == NL then parts[..|parts| - 1] else parts)
  }

  lemma {:induction false} JoinEnds(lines: seq<string>)
    requires lines != []
    ensures Join(lines) != [] && Join(lines)[|Join(lines)| - 1] == NL
  {
    if |lines| > 1 { JoinEnds(lines[1..]); }
  }

  /** A text of whole lines splits back into them, carriage returns aside. */
  lemma SplitLinesJoin(lines: seq<string>)
    requires AllUnbroken(lines)
    ensures SplitLines(Join(lines)) == if lines == [] then [[]] else StrippedAll(lines)
  {
    SplitJoin(lines);
    if lines == [] {
      assert SplitLines([])[0] == [];
    } else {
      JoinEnds(lines);
      InitLast(lines, []);
    }
  }

  // ---------------------------------------------------------------------------
  // Decimals

  predicate IsDigit(c: char) {
    '0' <= c <= '9'
  }

  function DigitOf(n: nat): char
    requires n < 10
    ensures IsDigit(DigitOf(n)) && DigitOf(n) as int - '0' as int == n
  {
    ('0' as int + n) as char
  }

  function Decimal(n: nat): (s: string)
    ensures s != [] && forall i :: 0 <= i < |s| ==> IsDigit(s[i])
  {
    if n < 10 then [DigitOf(n)] else Decimal(n / 10) + [DigitOf(n % 10)]
  }

  // The leading digits of a text.
  function Leading(text: string): (s: string)
    ensures |s| <= |text| && s == text[..|s|] && forall i :: 0 <= i < |s| ==> IsDigit(s[i])
    ensures |s| < |text| ==> !IsDigit(text[|s|])
  {
    if text == [] || !IsDigit(text[0]) then [] else
      assert text[1..][..|Leading(text[1..])|] == Leading(text[1..]);
      [text[0]] + Leading(text[1..])
  }

  function Value(digits: string): nat
    requires forall i :: 0 <= i < |digits| ==> IsDigit(digits[i])
  {
    if digits == [] then 0 else
      assert IsDigit(digits[|digits| - 1]);
      Value(digits[..|digits| - 1]) * 10 + (digits[|digits| - 1] as int - '0' as int)
  }

  lemma {:induction false} ValueOfDecimal(n: nat)
    ensures Value(Decimal(n)) == n
  {
    if n >= 10 {
      ValueOfDecimal(n / 10);
      InitLast(Decimal(n / 10), DigitOf(n % 10));
    } else {
      assert [DigitOf(n)][..0] == [];
    }
  }

  lemma {:induction false} LeadingOf(digits: string, rest: string)
    requires forall i :: 0 <= i < |digits| ==> IsDigit(digits[i])
    requires rest != [] ==> !IsDigit(rest[0])
    ensures Leading(digits + rest) == digits
  {
    if digits == [] {
      assert digits + rest == rest;
    } else {
      LeadingOf(digits[1..], rest);
      assert (digits + rest)[1..] == digits[1..] + rest;
    }
  }

  /** A printed number reads back, whatever other than a digit follows it. */
  lemma DecimalReads(n: nat, rest: string)
    requires rest != [] ==> !IsDigit(rest[0])
    ensures Leading(Decimal(n) + rest) == Decimal(n) && Value(Decimal(n)) == n
  {
    LeadingOf(Decimal(n), rest);
    ValueOfDecimal(n);
  }

  // ---------------------------------------------------------------------------
  // Words

  // The runs of word characters of a text (`\w+`), `word` telling which those are.
  function WordsFrom(text: string, run: string, word: char -> bool): set<string> {
    if text == [] then (if run == [] then {} else {run})
    else if word(text[0]) then WordsFrom(text[1..], run + [text[0]], word)
    else (if run == [] then {} else {run}) + WordsFrom(text[1..], [], word)
  }

  function Words(text: string, word: char -> bool): set<string> {
    WordsFrom(text, [], word)
  }

  lemma {:induction false} WordsStripped(text: string, run: string, word: char -> bool)
    requires !word(CR)
    ensures WordsFrom(Stripped(text), run, word) == WordsFrom(text, run, word)
  {
    if text != [] {
      if |text| == 1 && text[0] == CR {
        assert Stripped(text) == [] && text[1..] == [];
        assert WordsFrom([], [], word) == {};
      } else {
        assert Stripped(text)[1..] == Stripped(text[1..]);
        WordsStripped(text[1..], if word(text[0]) then run + [text[0]] else [], word);
      }
    }
  }

  // ---------------------------------------------------------------------------
  // Prefixes

  predicate StartsWith(text: string, prefix: string) {
    |prefix| <= |text| && text[..|prefix|] == prefix
  }

  lemma StartsAfter(prefix: string, rest: string)
    ensures StartsWith(prefix + rest, prefix) && (prefix + rest)[|prefix|..] == rest
  {
  }

  lemma NoStart(text: string, prefix: string)
    requires prefix != [] && (text == [] || text[0] != prefix[0])
    ensures !StartsWith(text, prefix)
  {
  }

  lemma LastOf(a: string, b: string)
    requires b != []
    ensures (a + b)[|a + b| - 1] == b[|b| - 1]
  {
  }
}
