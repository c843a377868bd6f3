/** Splitting a .sql file into statements (awsnative/athena.py, `split_statements`): a lexer with one
    character of lookahead that knows single-quoted literals and `--` line comments. */
module StatementSplitter {
  import opened Prelude
  import opened PyText

  datatype Mode = Code | Literal | Comment

  datatype Scan = Scan(done: seq<string>, current: string, mode: Mode)

  const BEGIN := Scan([], [], Code)

  /** One turn of the loop over (char, next_char) pairs; `next` is None at the end of the text. */
  function Step(scan: Scan, c: char, next: Option<char>): Scan
  {
    match scan.mode
    case Comment => if c == '\n' then scan.(current := scan.current + [c], mode := Code) else scan
    case Literal => scan.(current := scan.current + [c], mode := if c == '\'' then Code else Literal)
    case Code =>
      if c == '\'' then scan.(current := scan.current + [c], mode := Literal)
      else if c == '-' && next == Some('-') then scan.(mode := Comment)
      else if c == ';' then Scan(scan.done + [scan.current], [], Code)
      else scan.(current := scan.current + [c])
  }

  function Ahead(text: string): Option<char> { if |text| > 1 then Some(text[1]) else None }

  function Run(scan: Scan, text: string): Scan
    decreases |text|
  {
    if text == [] then scan else Run(Step(scan, text[0], Ahead(text)), text[1..])
  }

  /** The statements before stripping: the finished ones and the text left over at the end. */
  function Pieces(scan: Scan): seq<string> { scan.done + [scan.current] }

  /** [s.strip() for s in pieces if s.strip()] */
  function Kept(pieces: seq<string>): seq<string>
  {
    if pieces == [] then [] else
    if Strip(pieces[0]) == [] then Kept(pieces[1..]) else [Strip(pieces[0])] + Kept(pieces[1..])
  }

  function Split(text: string): seq<string> { Kept(Pieces(Run(BEGIN, text))) }

  method SplitStatements(text: string) returns (statements: seq<string>)
    ensures statements == Split(text)
  {
    var done: seq<string>, current: string, inSingleQuote, inLineComment := [], [], false, false;
    for index := 0 to |text|
      invariant !(inSingleQuote && inLineComment)
      invariant Run(BEGIN, text)
                == Run(Scan(done, current, if inLineComment then Comment else if inSingleQuote then Literal else Code), text[index..])
    {
      var c := text[index];
      var next := if index + 1 < |text| then Some(text[index + 1]) else None;
      assert text[index..][1..] == text[index + 1..] && Ahead(text[index..]) == next;
      if inLineComment {
        if c == '\n' {
          inLineComment := false;
          current := current + [c];
        }
        continue;
      }
      if inSingleQuote {
        current := current + [c];
        if c == '\'' {
          inSingleQuote := false;
        }
        continue;
      }
      if c == '\'' {
        inSingleQuote := true;
        current := current + [c];
      } else if c == '-' && next == Some('-') {
        inLineComment := true;
      } else if c == ';' {
        done := done + [current];
        current := [];
      } else {
        current := current + [c];
      }
    }
    done := done + [current];
    statements := [];
    for i := 0 to |done|
      invariant Kept(done) == statements + Kept(done[i..])
    {
      assert done[i..][1..] == done[i + 1..];
      if Strip(done[i]) != [] {
        statements := statements + [Strip(done[i])];
      }
    }
  }

  // An independent reading of the text: quotes are counted, comments are cut out.

  function Quotes(s: string): nat
  {
    if s == [] then 0 else Quotes(s[..|s| - 1]) + if s[|s| - 1] == '\'' then 1 else 0
  }

  /** Position `i` of a comment-free text is outside literals when an even number of quotes precedes it. */
  predicate Outside(s: string, i: nat)
    requires i <= |s|
  {
    Quotes(s[..i]) % 2 == 0
  }

  /** Outside literals there is no `;` and no `--`. */
  predicate Clean(s: string)
  {
    forall i: nat | i < |s| && Outside(s, i) :: s[i] != ';' && !(s[i] == '-' && i + 1 < |s| && s[i + 1] == '-')
  }

  lemma QuotesSnoc(s: string, c: char)
    ensures Quotes(s + [c]) == Quotes(s) + if c == '\'' then 1 else 0
  {
    assert (s + [c])[..|s|] == s;
  }

  lemma {:induction false} QuotesAppend(a: string, b: string)
    ensures Quotes(a + b) == Quotes(a) + Quotes(b)
  {
    if b == [] {
      assert a + b == a;
    } else {
      var n := |b| - 1;
      QuotesAppend(a, b[..n]);
      assert a + b == (a + b[..n]) + [b[n]] && b == b[..n] + [b[n]];
      QuotesSnoc(a + b[..n], b[n]);
      QuotesSnoc(b[..n], b[n]);
    }
  }

  lemma {:induction false} BlankHasNoQuotes(s: string)
    requires AllSpace(s)
    ensures Quotes(s) == 0
  {
    if s != [] {
      assert s[|s| - 1] in s;
      BlankHasNoQuotes(s[..|s| - 1]);
    }
  }

  /** A piece that is outside literals, and does not end in a `-` that could pair with the next character. */
  predicate DashFree(s: string) { s != [] && Outside(s, |s| - 1) ==> s[|s| - 1] != '-' }

  lemma CleanSnoc(s: string, c: char)
    requires Clean(s) && (Outside(s, |s|) ==> c != ';' && (c == '-' ==> DashFree(s)))
    ensures Clean(s + [c])
  {
    var t := s + [c];
    assert t[..|s|] == s[..|s|] == s;
    forall i: nat | i < |t| && Outside(t, i) ensures t[i] != ';' && !(t[i] == '-' && i + 1 < |t| && t[i + 1] == '-') {
      if i < |s| {
        assert t[..i] == s[..i];
        assert Outside(s, i);
        if i == |s| - 1 && s[i] == '-' {
          assert s[..|s|] == s == s[..i] + [s[i]];
          QuotesSnoc(s[..i], s[i]);
        }
      }
    }
  }

  /** Dropping white space at both ends keeps a piece clean. */
  lemma StripKeepsClean(s: string)
    requires Clean(s)
    ensures Clean(Strip(s)) && Quotes(Strip(s)) == Quotes(s)
  {
    var front, back := StripCuts(s);
    var t := Strip(s);
    BlankHasNoQuotes(front);
    BlankHasNoQuotes(back);
    QuotesAppend(front, t);
    QuotesAppend(front + t, back);
    forall i: nat | i < |t| && Outside(t, i) ensures t[i] != ';' && !(t[i] == '-' && i + 1 < |t| && t[i + 1] == '-') {
      assert s[..|front| + i] == front + t[..i];
      QuotesAppend(front, t[..i]);
      assert Outside(s, |front| + i);
      assert s[|front| + i] == t[i] && (i + 1 < |t| ==> s[|front| + i + 1] == t[i + 1]);
    }
  }

  /** What the lexer maintains: finished pieces are clean and closed; the current one is clean, and is inside
      a literal exactly in literal mode; a trailing dash is never followed by another. */
  predicate Lexed(scan: Scan, rest: string)
  {
    && (forall piece <- scan.done :: Clean(piece) && Quotes(piece) % 2 == 0)
    && Clean(scan.current)
    && (scan.mode.Literal? <==> Quotes(scan.current) % 2 == 1)
    && (scan.mode.Code? && rest != [] && rest[0] == '-' ==> DashFree(scan.current))
  }

  lemma LexedInComment(scan: Scan, text: string)
    requires text != [] && Lexed(scan, text) && scan.mode.Comment?
    ensures Lexed(Step(scan, text[0], Ahead(text)), text[1..])
  {
    if text[0] == '\n' {
      QuotesSnoc(scan.current, '\n');
      CleanSnoc(scan.current, '\n');
    }
  }

  lemma LexedInLiteral(scan: Scan, text: string)
    requires text != [] && Lexed(scan, text) && scan.mode.Literal?
    ensures Lexed(Step(scan, text[0], Ahead(text)), text[1..])
  {
    var c, current := text[0], scan.current;
    assert current[..|current|] == current && (current + [c])[..|current|] == current;
    QuotesSnoc(current, c);
    CleanSnoc(current, c);
  }

  lemma LexedInCode(scan: Scan, text: string)
    requires text != [] && Lexed(scan, text) && scan.mode.Code?
    ensures Lexed(Step(scan, text[0], Ahead(text)), text[1..])
  {
    var c, current := text[0], scan.current;
    assert current[..|current|] == current && (current + [c])[..|current|] == current;
    QuotesSnoc(current, c);
    if !(c == ';' || (c == '-' && Ahead(text) == Some('-'))) {
      CleanSnoc(current, c);
    }
  }

  lemma LexedStep(scan: Scan, text: string)
    requires text != [] && Lexed(scan, text)
    ensures Lexed(Step(scan, text[0], Ahead(text)), text[1..])
  {
    match scan.mode
    case Comment => LexedInComment(scan, text);
    case Literal => LexedInLiteral(scan, text);
    case Code => LexedInCode(scan, text);
  }

  lemma {:induction false} LexedRun(scan: Scan, text: string)
    requires Lexed(scan, text)
    ensures Lexed(Run(scan, text), [])
    decreases |text|
  {
    if text != [] {
      LexedStep(scan, text);
      LexedRun(Step(scan, text[0], Ahead(text)), text[1..]);
    }
  }

  predicate Statement(s: string) { s != [] && Trimmed(s) && Clean(s) }

  /** Statements, of which only the last may end inside a literal. */
  predicate StatementList(statements: seq<string>)
  {
    && (forall i :: 0 <= i < |statements| ==> Statement(statements[i]))
    && (forall i :: 0 <= i < |statements| - 1 ==> Quotes(statements[i]) % 2 == 0)
  }

  lemma {:induction false} KeptAreStatements(pieces: seq<string>)
    requires forall i :: 0 <= i < |pieces| ==> Clean(pieces[i])
    requires forall i :: 0 <= i < |pieces| - 1 ==> Quotes(pieces[i]) % 2 == 0
    ensures StatementList(Kept(pieces))
  {
    if pieces != [] {
      var front, back := StripCuts(pieces[0]);
      StripKeepsClean(pieces[0]);
      KeptAreStatements(pieces[1..]);
      if Strip(pieces[0]) != [] {
        assert |pieces| == 1 ==> Kept(pieces[1..]) == [];
        StatementInFront(Strip(pieces[0]), Kept(pieces[1..]));
      }
    }
  }

  lemma StatementInFront(s: string, statements: seq<string>)
    requires Statement(s) && StatementList(statements) && (statements != [] ==> Quotes(s) % 2 == 0)
    ensures StatementList([s] + statements)
  {
  }

  /** Normal form, part one: every result is non-empty, trimmed, and free of `;` and `--` outside literals. */
  lemma ResultsAreStatements(text: string)
    ensures StatementList(Split(text))
  {
    LexedRun(BEGIN, text);
    var scan := Run(BEGIN, text);
    assert forall i :: 0 <= i < |scan.done| ==> scan.done[i] in scan.done;
    KeptAreStatements(Pieces(scan));
  }

  // Lexing text in parts.

  lemma {:induction false} RunAppend(scan: Scan, a: string, b: string)
    requires b == [] || b[0] != '-'
    ensures Run(scan, a + b) == Run(Run(scan, a), b)
    decreases |a|
  {
    if a == [] {
      assert a + b == b;
    } else {
      assert (a + b)[1..] == a[1..] + b;
      assert Step(scan, a[0], Ahead(a + b)) == Step(scan, a[0], Ahead(a));
      RunAppend(Step(scan, a[0], Ahead(a)), a[1..], b);
    }
  }

  /** Finished pieces are only carried along. */
  lemma {:induction false} RunCarriesDone(before: seq<string>, scan: Scan, text: string)
    ensures var r := Run(scan, text);
            Run(scan.(done := before + scan.done), text) == r.(done := before + r.done)
    decreases |text|
  {
    if text != [] {
      var next := Step(scan, text[0], Ahead(text));
      assert before + (scan.done + [scan.current]) == before + scan.done + [scan.current];
      assert Step(scan.(done := before + scan.done), text[0], Ahead(text)) == next.(done := before + next.done);
      RunCarriesDone(before, next, text[1..]);
    }
  }

  lemma {:induction false} KeptAppend(a: seq<string>, b: seq<string>)
    ensures Kept(a + b) == Kept(a) + Kept(b)
  {
    if a == [] {
      assert a + b == b;
    } else {
      assert (a + b)[1..] == a[1..] + b;
      KeptAppend(a[1..], b);
    }
  }

  /** A clean text lexes to itself. */
  lemma {:induction false} CleanLexesToItself(done: seq<string>, s: string, i: nat)
    requires Clean(s) && i <= |s|
    ensures Run(Scan(done, s[..i], if Outside(s, i) then Code else Literal), s[i..])
            == Scan(done, s, if Outside(s, |s|) then Code else Literal)
    decreases |s| - i
  {
    if i == |s| {
      assert s[..i] == s && s[i..] == [];
    } else {
      assert s[i..][1..] == s[i + 1..] && s[..i + 1] == s[..i] + [s[i]];
      QuotesSnoc(s[..i], s[i]);
      assert Ahead(s[i..]) == if i + 1 < |s| then Some(s[i + 1]) else None;
      CleanLexesToItself(done, s, i + 1);
    }
  }

  /** A clean, closed piece and the `;` after it are read as one finished piece. */
  lemma LexesOver(done: seq<string>, s: string, tail: string)
    requires Clean(s) && Quotes(s) % 2 == 0
    ensures Run(Scan(done, [], Code), s + ([';'] + tail)) == Run(Scan(done + [s], [], Code), tail)
  {
    CleanLexesToItself(done, s, 0);
    assert s[..0] == [] && s[0..] == s && s[..|s|] == s;
    RunAppend(Scan(done, [], Code), s, [';'] + tail);
    assert ([';'] + tail)[1..] == tail;
  }

  /** Clean texts, of which only the last may end inside a literal. */
  predicate CleanParts(parts: seq<string>)
  {
    && parts != []
    && (forall i :: 0 <= i < |parts| ==> Clean(parts[i]))
    && (forall i :: 0 <= i < |parts| - 1 ==> Quotes(parts[i]) % 2 == 0)
  }

  /** Clean parts joined by `;` are read as those parts again. */
  lemma {:induction false} JoinedLexesToParts(done: seq<string>, parts: seq<string>)
    requires CleanParts(parts)
    ensures Pieces(Run(Scan(done, [], Code), Join(parts, ';'))) == done + parts
    decreases |parts|
  {
    var s, rest := parts[0], parts[1..];
    if rest == [] {
      CleanLexesToItself(done, s, 0);
      assert s[..0] == [] && s[0..] == s && s[..|s|] == s;
    } else {
      assert Join(parts, ';') == s + ([';'] + Join(rest, ';'));
      LexesOver(done, s, Join(rest, ';'));
      JoinedLexesToParts(done + [s], rest);
      assert done + [s] + rest == done + parts;
    }
  }

  lemma {:induction false} KeptFixesStatements(statements: seq<string>)
    requires forall i :: 0 <= i < |statements| ==> Statement(statements[i])
    ensures Kept(statements) == statements
  {
    if statements != [] {
      StripFixesTrimmed(statements[0]);
      KeptFixesStatements(statements[1..]);
    }
  }

  /** Normal form, part two: splitting the `;`-join of the results returns the same results. */
  lemma SplitIsIdempotent(text: string)
    ensures Split(Join(Split(text), ';')) == Split(text)
  {
    var statements := Split(text);
    ResultsAreStatements(text);
    KeptFixesStatements(statements);
    if statements != [] {
      JoinedLexesToParts([], statements);
      assert [] + statements == statements;
    } else {
      assert Pieces(BEGIN)[0] == [] && Pieces(BEGIN)[1..] == [];
    }
  }

  /** `text` ends neither inside a literal nor inside a comment. */
  predicate EndsInCode(text: string) { Run(BEGIN, text).mode.Code? }

  lemma SplitAtSemicolon(a: string, b: string)
    requires EndsInCode(a)
    ensures Split(a + ";" + b) == Split(a) + Split(b)
  {
    var ra, rb := Run(BEGIN, a), Run(BEGIN, b);
    assert a + ";" + b == a + (";" + b);
    RunAppend(BEGIN, a, ";" + b);
    assert (";" + b)[1..] == b;
    RunCarriesDone(Pieces(ra), BEGIN, b);
    assert Pieces(ra) + [] == Pieces(ra);
    assert Pieces(ra) + rb.done + [rb.current] == Pieces(ra) + Pieces(rb);
    KeptAppend(Pieces(ra), Pieces(rb));
  }

  lemma RunOne(scan: Scan, c: char)
    ensures Run(scan, [c]) == Step(scan, c, None)
  {
    assert [c][1..] == [];
  }

  lemma OpenPieceIsKept(piece: string)
    requires Quotes(piece) % 2 == 1
    ensures |Kept([piece])| == 1
  {
    StripIsEmptyForBlank(piece);
    if AllSpace(piece) {
      BlankHasNoQuotes(piece);
    }
    assert Kept([piece][1..]) == [];
  }

  /** The lexer's state after `a;x`. */
  lemma SwallowedRun(a: string)
    ensures Run(BEGIN, a + ";" + "x") == Step(Step(Run(BEGIN, a), ';', Some('x')), 'x', None)
  {
    var tail: string := ";" + "x";
    assert a + ";" + "x" == a + tail;
    RunAppend(BEGIN, a, tail);
    assert tail[1..] == "x" && Ahead(tail) == Some('x');
    RunOne(Step(Run(BEGIN, a), ';', Some('x')), 'x');
  }

  lemma OneStatement()
    ensures |Split("x")| == 1
  {
    RunOne(BEGIN, 'x');
    assert !IsSpace('x') && |"x"| == 1 && "x"[0] == 'x';
    StripFixesTrimmed("x");
    assert Run(BEGIN, "x").current == "x" && ["x"][1..] == [];
    assert Pieces(Run(BEGIN, "x")) == ["x"];
    assert Kept(["x"]) == ["x"] + Kept([]);
  }

  lemma SwallowedPieces(scan: Scan)
    requires Lexed(scan, []) && !scan.mode.Code?
    ensures |Kept(Pieces(Step(Step(scan, ';', Some('x')), 'x', None)))| == |Kept(Pieces(scan))|
  {
    var end := Step(Step(scan, ';', Some('x')), 'x', None);
    KeptAppend(scan.done, [scan.current]);
    KeptAppend(scan.done, [end.current]);
    if scan.mode.Literal? {
      OpenPieceIsKept(scan.current);
      QuotesSnoc(scan.current, ';');
      QuotesSnoc(scan.current + [';'], 'x');
      OpenPieceIsKept(end.current);
    }
  }

  /** Inside a literal or a comment the `;` does not end the statement, so `x` is no statement of its own. */
  lemma SwallowedStatement(a: string)
    requires !EndsInCode(a)
    ensures Split(a + ";" + "x") != Split(a) + Split("x")
  {
    LexedRun(BEGIN, a);
    SwallowedRun(a);
    SwallowedPieces(Run(BEGIN, a));
    OneStatement();
  }

  /** Composition: `a;b` splits as `a` followed by `b`, for every `b`, exactly when `a` ends outside a literal
      and a comment. */
  lemma SplitComposesExactlyWhen(a: string)
    ensures EndsInCode(a) <==> forall b :: Split(a + ";" + b) == Split(a) + Split(b)
  {
    if EndsInCode(a) {
      forall b ensures Split(a + ";" + b) == Split(a) + Split(b) {
        SplitAtSemicolon(a, b);
      }
    } else {
      SwallowedStatement(a);
    }
  }

  // Nothing but comments is lost.

  /** The rest of the text from the end of the line on. */
  function FromLineEnd(text: string): (rest: string)
    ensures |rest| <= |text|
  {
    if text == [] || text[0] == '\n' then text else FromLineEnd(text[1..])
  }

  /** The text without its line comments. */
  function Uncommented(text: string, inLiteral: bool): string
    decreases |text|
  {
    if text == [] then []
    else if inLiteral then [text[0]] + Uncommented(text[1..], text[0] != '\'')
    else if |text| > 1 && text[0] == '-' && text[1] == '-' then Uncommented(FromLineEnd(text[2..]), false)
    else [text[0]] + Uncommented(text[1..], text[0] == '\'')
  }

  lemma {:induction false} CommentIsSkipped(scan: Scan, text: string)
    requires scan.mode.Comment?
    ensures var rest := FromLineEnd(text);
            Run(scan, text) == if rest == [] then scan else Run(scan.(current := scan.current + ['\n'], mode := Code), rest[1..])
  {
    if text != [] && text[0] != '\n' {
      CommentIsSkipped(scan, text[1..]);
    }
  }

  lemma {:induction false} JoinSnoc(done: seq<string>, current: string, c: char)
    ensures Join(done + [current + [c]], ';') == Join(done + [current], ';') + [c]
  {
    if done != [] {
      JoinSnoc(done[1..], current, c);
      assert (done + [current])[1..] == done[1..] + [current];
      assert (done + [current + [c]])[1..] == done[1..] + [current + [c]];
    }
  }

  lemma {:induction false} JoinCloses(done: seq<string>, current: string)
    ensures Join(done + [current] + [[]], ';') == Join(done + [current], ';') + [';']
  {
    if done == [] {
      assert ([current] + [[]])[1..] == [[]];
      assert done + [current] == [current];
    } else {
      JoinCloses(done[1..], current);
      assert (done + [current])[1..] == done[1..] + [current];
      assert (done + [current] + [[]])[1..] == done[1..] + [current] + [[]];
    }
  }

  lemma {:induction false} LexingKeepsText(scan: Scan, text: string)
    requires !scan.mode.Comment?
    ensures Join(Pieces(Run(scan, text)), ';') == Join(Pieces(scan), ';') + Uncommented(text, scan.mode.Literal?)
    decreases |text|
  {
    if text != [] {
      var c, next := text[0], Step(scan, text[0], Ahead(text));
      if next.mode.Comment? {
        var rest := FromLineEnd(text[2..]);
        assert text[1..][1..] == text[2..];
        CommentIsSkipped(next, text[1..]);
        if rest != [] {
          JoinSnoc(scan.done, scan.current, '\n');
          LineEnds(text[2..]);
          LexingKeepsText(scan.(current := scan.current + ['\n']), rest[1..]);
        }
      } else {
        JoinSnoc(scan.done, scan.current, c);
        JoinCloses(scan.done, scan.current);
        LexingKeepsText(next, text[1..]);
      }
    }
  }

  lemma LineEnds(text: string)
    ensures FromLineEnd(text) != [] ==> FromLineEnd(text)[0] == '\n'
  {
  }

  /** Joining the unstripped pieces with `;` gives back the text without its comments, character for
      character: splitting never truncates a statement. */
  lemma OnlyCommentsAreLost(text: string)
    ensures Join(Pieces(Run(BEGIN, text)), ';') == Uncommented(text, false)
  {
    LexingKeepsText(BEGIN, text);
  }
}
