/** What split_statements answers, said without its lexer (awsnative/athena.py). */
module StatementContents {
  import opened Prelude
  import opened PyText
  import opened StatementSplitter

  predicate NotBlank(s: string) { !AllSpace(s) }

  predicate Visible(c: char) { !IsSpace(c) }

  /** The pieces that hold anything but white space, without the white space around them. */
  function Stripped(pieces: seq<string>): seq<string> { Map(Filter(pieces, NotBlank), Strip) }

  lemma KeptOne(piece: string)
    ensures Kept([piece]) == if NotBlank(piece) then [Strip(piece)] else []
  {
    StripIsEmptyForBlank(piece);
    assert [piece][1..] == [] && [Strip(piece)] + Kept([]) == [Strip(piece)];
  }

  lemma {:induction false} KeptIsStripped(pieces: seq<string>)
    ensures Kept(pieces) == Stripped(pieces)
  {
    if pieces != [] {
      var n := |pieces| - 1;
      assert pieces == pieces[..n] + [pieces[n]];
      KeptIsStripped(pieces[..n]);
      KeptAppend(pieces[..n], [pieces[n]]);
      KeptOne(pieces[n]);
      MapSnoc(Filter(pieces[..n], NotBlank), pieces[n], Strip);
    }
  }

  lemma {:induction false} VisibleAppend(a: string, b: string)
    ensures Filter(a + b, Visible) == Filter(a, Visible) + Filter(b, Visible)
  {
    if b == [] {
      assert a + b == a;
    } else {
      var n := |b| - 1;
      assert a + b == (a + b[..n]) + [b[n]];
      VisibleAppend(a, b[..n]);
      FilterSnoc(a + b[..n], b[n], Visible);
    }
  }

  lemma {:induction false} BlankIsInvisible(s: string)
    requires AllSpace(s)
    ensures Filter(s, Visible) == []
  {
    if s != [] {
      BlankIsInvisible(s[..|s| - 1]);
    }
  }

  lemma StripKeepsVisible(s: string)
    ensures Filter(Strip(s), Visible) == Filter(s, Visible)
  {
    var front, back := StripCuts(s);
    VisibleAppend(front, Strip(s));
    VisibleAppend(front + Strip(s), back);
    BlankIsInvisible(front);
    BlankIsInvisible(back);
  }

  lemma {:induction false} KeptKeepsVisible(pieces: seq<string>)
    ensures Filter(Flatten(Kept(pieces)), Visible) == Filter(Flatten(pieces), Visible)
  {
    if pieces != [] {
      var s, rest := pieces[0], pieces[1..];
      KeptKeepsVisible(rest);
      StripKeepsVisible(s);
      VisibleAppend(s, Flatten(rest));
      VisibleAppend(Strip(s), Flatten(Kept(rest)));
    }
  }

  /** Nothing is dropped but white space: the visible characters of the results are those of the unstripped
      pieces, in order, and there is one result for each piece that is not blank. */
  lemma OnlySpaceIsStripped(text: string)
    ensures Filter(Flatten(Split(text)), Visible) == Filter(Flatten(Pieces(Run(BEGIN, text))), Visible)
    ensures |Split(text)| == |Filter(Pieces(Run(BEGIN, text)), NotBlank)|
  {
    KeptKeepsVisible(Pieces(Run(BEGIN, text)));
    KeptIsStripped(Pieces(Run(BEGIN, text)));
  }

  lemma PiecesAreClean(text: string)
    ensures CleanParts(Pieces(Run(BEGIN, text)))
  {
    LexedRun(BEGIN, text);
    var scan := Run(BEGIN, text);
    assert forall i :: 0 <= i < |scan.done| ==> scan.done[i] in scan.done;
  }

  /** `parts` is a cut of the text, without its comments, at `;` outside literals. */
  predicate CutOf(text: string, parts: seq<string>)
  {
    CleanParts(parts) && Join(parts, ';') == Uncommented(text, false)
  }

  /** There is one way to cut a text. */
  lemma CutIsUnique(text: string, parts: seq<string>)
    ensures CutOf(text, parts) <==> parts == Pieces(Run(BEGIN, text))
  {
    var pieces := Pieces(Run(BEGIN, text));
    PiecesAreClean(text);
    OnlyCommentsAreLost(text);
    JoinedLexesToParts([], pieces);
    assert [] + pieces == pieces;
    if CutOf(text, parts) {
      JoinedLexesToParts([], parts);
      assert [] + parts == parts;
    }
  }

  /** The whole meaning of splitting. The answer for a text is exactly the non-blank parts, stripped, of the cut
      of the text, without its comments, at the `;` that stand outside literals. */
  lemma SplitExactlyWhen(text: string, statements: seq<string>)
    ensures statements == Split(text) <==> exists parts :: CutOf(text, parts) && statements == Stripped(parts)
  {
    var pieces := Pieces(Run(BEGIN, text));
    KeptIsStripped(pieces);
    CutIsUnique(text, pieces);
    forall parts | CutOf(text, parts) ensures parts == pieces {
      CutIsUnique(text, parts);
    }
  }
}
