/** The Python string operations the archive and SQL code relies on. */
module PyText {
  import opened Prelude

  /** str.isspace for one character. */
  predicate IsSpace(c: char)
  {
    var n := c as int;
    9 <= n <= 13 || 28 <= n <= 32 || n == 0x85 || n == 0xa0 || n == 0x1680 || 0x2000 <= n <= 0x200a
    || n == 0x2028 || n == 0x2029 || n == 0x202f || n == 0x205f || n == 0x3000
  }

  function LStrip(s: string): string { if s != [] && IsSpace(s[0]) then LStrip(s[1..]) else s }

  function RStrip(s: string): string { if s != [] && IsSpace(s[|s| - 1]) then RStrip(s[..|s| - 1]) else s }

  function Strip(s: string): string { RStrip(LStrip(s)) }

  predicate Trimmed(s: string) { s == [] || (!IsSpace(s[0]) && !IsSpace(s[|s| - 1])) }

  predicate AllSpace(s: string) { forall c <- s :: IsSpace(c) }

  lemma {:induction false} LStripCuts(s: string) returns (front: string)
    ensures s == front + LStrip(s) && AllSpace(front)
    ensures LStrip(s) == [] || !IsSpace(LStrip(s)[0])
  {
    if s != [] && IsSpace(s[0]) {
      front := LStripCuts(s[1..]);
      assert s == [s[0]] + s[1..] && s == ([s[0]] + front) + LStrip(s);
      front := [s[0]] + front;
    } else {
      front := [];
    }
  }

  lemma {:induction false} RStripCuts(s: string) returns (back: string)
    ensures s == RStrip(s) + back && AllSpace(back)
    ensures RStrip(s) == [] || !IsSpace(RStrip(s)[|RStrip(s)| - 1])
  {
    if s != [] && IsSpace(s[|s| - 1]) {
      var n := |s| - 1;
      back := RStripCuts(s[..n]);
      assert s == s[..n] + [s[n]] && s == RStrip(s) + (back + [s[n]]);
      back := back + [s[n]];
    } else {
      back := [];
    }
  }

  /** strip removes white space at both ends and nothing else. */
  lemma StripCuts(s: string) returns (front: string, back: string)
    ensures s == front + Strip(s) + back && AllSpace(front) && AllSpace(back) && Trimmed(Strip(s))
  {
    front := LStripCuts(s);
    back := RStripCuts(LStrip(s));
    assert s == front + Strip(s) + back;
  }

  lemma StripFixesTrimmed(s: string)
    requires Trimmed(s)
    ensures Strip(s) == s
  {
  }

  /** A blank text strips to nothing, and only a blank one does. */
  lemma StripIsEmptyForBlank(s: string)
    ensures Strip(s) == [] <==> AllSpace(s)
  {
    var front, back := StripCuts(s);
    if Strip(s) == [] {
      assert s == front + back;
    } else {
      assert Strip(s)[0] == s[|front|];
    }
  }

  /** sep.join(parts) for a one-character separator. */
  function Join(parts: seq<string>, sep: char): string
  {
    if parts == [] then [] else if |parts| == 1 then parts[0] else parts[0] + [sep] + Join(parts[1..], sep)
  }

  /** s.split(sep) for a one-character separator. */
  function SplitOn(s: string, sep: char): (parts: seq<string>)
    ensures parts != []
  {
    if s == [] then [[]]
    else
      var rest := SplitOn(s[1..], sep);
      if s[0] == sep then [[]] + rest else [[s[0]] + rest[0]] + rest[1..]
  }

  lemma {:induction false} SplitHasNoSeparator(s: string, sep: char)
    ensures forall part <- SplitOn(s, sep) :: sep !in part && forall c <- part :: c in s
  {
    if s != [] {
      SplitHasNoSeparator(s[1..], sep);
      assert SplitOn(s[1..], sep)[0] in SplitOn(s[1..], sep);
    }
  }

  lemma {:induction false} SplitOfPlain(part: string, rest: string, sep: char)
    requires sep !in part
    ensures SplitOn(part + [sep] + rest, sep) == [part] + SplitOn(rest, sep)
  {
    if part == [] {
      assert part + [sep] + rest == [sep] + rest;
      assert ([sep] + rest)[1..] == rest;
    } else {
      SplitOfPlain(part[1..], rest, sep);
      assert (part + [sep] + rest)[1..] == part[1..] + [sep] + rest;
      assert [part[0]] + part[1..] == part;
    }
  }

  lemma {:induction false} SplitOfLast(part: string, sep: char)
    requires sep !in part
    ensures SplitOn(part, sep) == [part]
  {
    if part != [] {
      SplitOfLast(part[1..], sep);
      assert [part[0]] + part[1..] == part;
    }
  }

  /** Splitting undoes joining when no part contains the separator. */
  lemma {:induction false} SplitUndoesJoin(parts: seq<string>, sep: char)
    requires parts != [] && forall part <- parts :: sep !in part
    ensures SplitOn(Join(parts, sep), sep) == parts
  {
    if |parts| == 1 {
      SplitOfLast(parts[0], sep);
    } else {
      SplitUndoesJoin(parts[1..], sep);
      SplitOfPlain(parts[0], Join(parts[1..], sep), sep);
    }
  }

  /** s.split(): the words between runs of white space. */
  function Words(s: string): seq<string>
    decreases |s|
  {
    if s == [] then []
    else if IsSpace(s[0]) then Words(s[1..])
    else var n := WordLength(s); [s[..n]] + Words(s[n..])
  }

  function WordLength(s: string): (n: nat)
    ensures n <= |s| && (s != [] && !IsSpace(s[0]) ==> n > 0)
  {
    if s == [] || IsSpace(s[0]) then 0 else 1 + WordLength(s[1..])
  }

  predicate Spaceless(s: string) { forall c <- s :: !IsSpace(c) }

  /** A text without white space is one word. */
  lemma {:induction false} WordOfItself(word: string)
    requires word != [] && Spaceless(word)
    ensures WordLength(word) == |word| && Words(word) == [word]
  {
    if |word| > 1 {
      WordOfItself(word[1..]);
    }
    assert word[|word|..] == [] && word[..|word|] == word;
  }

  lemma {:induction false} WordStopsAtSpace(a: string, space: char, b: string)
    requires IsSpace(space)
    ensures WordLength(a + [space] + b) == WordLength(a)
  {
    if a != [] {
      WordStopsAtSpace(a[1..], space, b);
      assert (a + [space] + b)[1..] == a[1..] + [space] + b;
    }
  }

  /** And white space always ends a word: these two laws fix the words of every text. */
  lemma {:induction false} SpaceSeparatesWords(a: string, space: char, b: string)
    requires IsSpace(space)
    ensures Words(a + [space] + b) == Words(a) + Words(b)
    decreases |a|
  {
    var s := a + [space] + b;
    if a == [] {
      assert s[1..] == b;
    } else if IsSpace(a[0]) {
      assert s[1..] == a[1..] + [space] + b;
      SpaceSeparatesWords(a[1..], space, b);
    } else {
      var n := WordLength(a);
      WordStopsAtSpace(a, space, b);
      assert s[..n] == a[..n] && s[n..] == a[n..] + [space] + b;
      SpaceSeparatesWords(a[n..], space, b);
      AppendAssociates([a[..n]], Words(a[n..]), Words(b));
    }
  }

  // Lines.

  /** A character that ends a line for str.splitlines; "\r\n" ends one line, not two. */
  predicate BreaksLine(c: char)
  {
    var n := c as int;
    10 <= n <= 13 || 28 <= n <= 30 || n == 0x85 || n == 0x2028 || n == 0x2029
  }

  function LineLength(s: string): (n: nat)
    ensures n <= |s|
    ensures forall i :: 0 <= i < n ==> !BreaksLine(s[i])
  {
    if s == [] || BreaksLine(s[0]) then 0 else 1 + LineLength(s[1..])
  }

  /** A line, and the break that ends it; the last line may have none. */
  datatype Line = Line(text: string, ending: string)

  predicate IsEnding(ending: string) { (|ending| == 1 && BreaksLine(ending[0])) || ending == "\r\n" }

  /** The characters that end a line starting at a break. */
  function EndingLength(s: string): (n: nat)
    ensures n <= |s| && (s != [] ==> n > 0)
  {
    if s == [] then 0 else if s[0] == '\r' && |s| > 1 && s[1] == '\n' then 2 else 1
  }

  /** The first line of a text, and where the next one starts. */
  function FirstLine(s: string): (line: Line)
  {
    var rest := s[LineLength(s)..];
    Line(s[..LineLength(s)], rest[..EndingLength(rest)])
  }

  /** s.splitlines(keepends), with the break apart from the text. */
  function LinesOf(s: string): (lines: seq<Line>)
    decreases |s|
  {
    if s == [] then []
    else
      var line := FirstLine(s);
      [line] + LinesOf(s[|line.text| + |line.ending|..])
  }

  function Unsplit(lines: seq<Line>): string
  {
    if lines == [] then [] else lines[0].text + lines[0].ending + Unsplit(lines[1..])
  }

  function TextOfLine(line: Line): string { line.text }

  /** s.splitlines(). */
  function SplitLines(s: string): seq<string> { Map(LinesOf(s), TextOfLine) }

  lemma LineStopsAtBreak(s: string)
    ensures LineLength(s) < |s| ==> BreaksLine(s[LineLength(s)])
  {
  }

  predicate Unbroken(text: string) { forall c <- text :: !BreaksLine(c) }

  lemma EndingEndsALine(s: string)
    requires s != [] && BreaksLine(s[0])
    ensures IsEnding(s[..EndingLength(s)])
  {
  }

  /** The first line is whole, unless it is all there is. */
  lemma FirstLineIsWhole(s: string)
    requires s != []
    ensures var line := FirstLine(s);
            && s == line.text + line.ending + s[|line.text| + |line.ending|..] && Unbroken(line.text)
            && (IsEnding(line.ending) || (line.text == s && line.ending == []))
  {
    var n := LineLength(s);
    LineStopsAtBreak(s);
    if n < |s| {
      assert s[n..][0] == s[n];
      EndingEndsALine(s[n..]);
    } else {
      assert s[n..] == [] && s[..n] == s;
    }
  }

  /** Splitting into lines: the lines with their breaks are the text again, no line holds a break, and only
      the last may end without one, when it is not empty. */
  lemma {:induction false} LinesMakeUpTheText(s: string)
    ensures Unsplit(LinesOf(s)) == s
    ensures forall i :: 0 <= i < |LinesOf(s)| ==>
              var line := LinesOf(s)[i];
              Unbroken(line.text) && (IsEnding(line.ending) || (i == |LinesOf(s)| - 1 && line.ending == [] && line.text != []))
    decreases |s|
  {
    if s != [] {
      var line := FirstLine(s);
      FirstLineIsWhole(s);
      LinesMakeUpTheText(s[|line.text| + |line.ending|..]);
    }
  }

  /** A carriage return never ends a line on its own when a line feed follows it. */
  lemma {:induction false} CarriageReturnTakesTheLineFeed(s: string, i: nat)
    requires i + 1 < |LinesOf(s)| && LinesOf(s)[i].ending == "\r"
    ensures var next := LinesOf(s)[i + 1].text + LinesOf(s)[i + 1].ending; next != [] && next[0] != '\n'
    decreases |s|
  {
    var line := FirstLine(s);
    var rest := s[|line.text| + |line.ending|..];
    FirstLineIsWhole(s);
    if i > 0 {
      CarriageReturnTakesTheLineFeed(rest, i - 1);
    } else {
      FirstLineIsWhole(rest);
      assert s[LineLength(s)..][0] == line.ending[0];
    }
  }

  lemma SplitLinesHaveNoBreaks(s: string)
    ensures forall line <- SplitLines(s) :: Unbroken(line)
  {
    LinesMakeUpTheText(s);
  }

  // Decimal integers.

  const DIGITS := "0123456789"

  function Digit(n: int): (c: char)
    requires 0 <= n < 10
  {
    DIGITS[n]
  }

  function DigitValue(c: char): Option<int>
  {
    if '0' <= c <= '9' then Some(c as int - '0' as int) else None
  }

  lemma DigitRoundTrip(n: int)
    requires 0 <= n < 10
    ensures DigitValue(Digit(n)) == Some(n) && !IsSpace(Digit(n)) && Digit(n) != ',' && Digit(n) != '\n' && Digit(n) != '-'
  {
  }

  function NatText(n: nat): string
  {
    if n < 10 then [Digit(n)] else NatText(n / 10) + [Digit(n % 10)]
  }

  /** str(n). */
  function IntText(n: int): string { if n < 0 then "-" + NatText(-n) else NatText(n) }

  /** Digits, with single underscores allowed between them. */
  function ParseDigits(s: string): Option<int>
  {
    if s == [] then None else
      var n := |s| - 1;
      var last := DigitValue(s[n]);
      if last.None? || n == 0 then last else
      var before := ParseDigits(if s[n - 1] == '_' then s[..n - 1] else s[..n]);
      if before.None? then None else Some(before.value * 10 + last.value)
  }

  /** int(s), over ASCII digits. */
  function ParseInt(s: string): Option<int>
  {
    var t := Strip(s);
    if t == [] then None
    else if t[0] == '-' then
      var magnitude := ParseDigits(t[1..]);
      if magnitude.None? then None else Some(-magnitude.value)
    else if t[0] == '+' then ParseDigits(t[1..])
    else ParseDigits(t)
  }

  /** Digits, in groups separated by single underscores. */
  predicate Numeral(s: string)
  {
    && s != [] && DigitValue(s[0]).Some? && DigitValue(s[|s| - 1]).Some?
    && (forall i :: 0 <= i < |s| ==> DigitValue(s[i]).Some? || s[i] == '_')
    && (forall i :: 0 < i < |s| ==> !(s[i - 1] == '_' && s[i] == '_'))
  }

  /** The number the digits write. */
  function Written(s: string): int
  {
    if s == [] then 0 else
      var n := |s| - 1;
      if DigitValue(s[n]).Some? then Written(s[..n]) * 10 + DigitValue(s[n]).value else Written(s[..n])
  }

  /** A text is read as a number exactly when it is a numeral, and then as the number its digits write. */
  lemma {:induction false} NumeralsAreRead(s: string)
    ensures ParseDigits(s) == if Numeral(s) then Some(Written(s)) else None
    decreases |s|
  {
    if |s| > 1 && DigitValue(s[|s| - 1]).Some? {
      var n := |s| - 1;
      NumeralsAreRead(s[..n]);
      if s[n - 1] == '_' {
        NumeralsAreRead(s[..n - 1]);
        assert s[..n][..n - 1] == s[..n - 1];
        NumeralCut(s, n - 1);
      } else {
        NumeralCut(s, n);
      }
    } else if |s| == 1 {
      assert s[..0] == [] && Written(s[..0]) == 0;
    }
  }

  /** Whether a text that ends in a digit is a numeral is decided by what stands before that digit and the
      underscore there may be. */
  lemma NumeralCut(s: string, n: nat)
    requires |s| > 1 && DigitValue(s[|s| - 1]).Some?
    requires n == if s[|s| - 2] == '_' then |s| - 2 else |s| - 1
    ensures Numeral(s) <==> Numeral(s[..n])
  {
    var t := s[..n];
    if Numeral(s) {
      assert n > 0;
      assert DigitValue(s[n - 1]).Some?;
    }
    if Numeral(t) {
      assert s[0] == t[0] && t[n - 1] == s[n - 1];
      forall i | 0 < i < |s| ensures !(s[i - 1] == '_' && s[i] == '_') {
        if i < n {
          assert s[i - 1] == t[i - 1] && s[i] == t[i];
        }
      }
      forall i | 0 <= i < |s| ensures DigitValue(s[i]).Some? || s[i] == '_' {
        if i < n {
          assert s[i] == t[i];
        }
      }
    }
  }

  predicate Plain(c: char) { !IsSpace(c) && c != ',' && c != '\n' }

  lemma {:induction false} NatTextIsPlain(n: nat)
    ensures NatText(n) != [] && (forall c <- NatText(n) :: Plain(c)) && NatText(n)[0] != '-' && NatText(n)[0] != '+'
  {
    DigitRoundTrip(n % 10);
    if n >= 10 {
      NatTextIsPlain(n / 10);
    }
  }

  lemma DigitAppended(front: string, c: char)
    requires front != [] && front[|front| - 1] != '_' && ParseDigits(front).Some? && DigitValue(c).Some?
    ensures ParseDigits(front + [c]) == Some(ParseDigits(front).value * 10 + DigitValue(c).value)
  {
    assert (front + [c])[..|front|] == front;
  }

  lemma {:induction false} NatTextParses(n: nat)
    ensures NatText(n) != [] && NatText(n)[|NatText(n)| - 1] != '_' && ParseDigits(NatText(n)) == Some(n)
  {
    DigitRoundTrip(n % 10);
    if n >= 10 {
      NatTextParses(n / 10);
      DigitAppended(NatText(n / 10), Digit(n % 10));
    }
  }

  lemma PlainTextIsTrimmed(s: string)
    requires s != [] && forall c <- s :: Plain(c)
    ensures Strip(s) == s
  {
    assert s[0] in s && s[|s| - 1] in s;
    StripFixesTrimmed(s);
  }

  /** int(str(n)) is n, and str(n) contains nothing a CSV line could trip over. */
  lemma IntRoundTrip(n: int)
    ensures ParseInt(IntText(n)) == Some(n)
    ensures forall c <- IntText(n) :: Plain(c)
  {
    var digits := NatText(if n < 0 then -n else n);
    NatTextParses(if n < 0 then -n else n);
    NatTextIsPlain(if n < 0 then -n else n);
    if n < 0 {
      assert ("-" + digits)[1..] == digits;
      PlainTextIsTrimmed("-" + digits);
    } else {
      PlainTextIsTrimmed(digits);
    }
  }
}
