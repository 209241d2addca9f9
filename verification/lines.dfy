/** `_lines`: the normalisation every cell's text goes through before it
    becomes the cell's `source` list (tools/nb_utils.py, lines 20-26). */
module NbLines {
  import opened PyStr
  import opened Textwrap

  /** The text `_lines` splits: dedented, with its leading "\n" characters removed. */
  function Normalize(text: string): string {
    LStripChar(Dedent(text), '\n')
  }

  /** A non-empty text with a final "\n" added when it lacks one. */
  function Terminated(t: string): (r: string)
    ensures t == "" ==> r == ""
    ensures t != "" ==> |r| >= 1 && r[|r| - 1] == '\n' && t <= r && |r| <= |t| + 1
  {
    if t == "" || t[|t| - 1] == '\n' then t else t + "\n"
  }

  /** What `_lines` does once the text is dedented: strip the leading "\n"
      characters, end the rest with "\n" and split it into lines, each
      ended by exactly one "\n"; nothing at all when nothing is left. */
  function LinesOfDedented(d: string): (r: seq<string>)
    ensures r == [] <==> LStripChar(d, '\n') == ""
    ensures forall k :: 0 <= k < |r| ==>
      |r[k]| >= 1 && r[k][|r[k]| - 1] == '\n' && SingleLine(r[k][..|r[k]| - 1])
  {
    var t := LStripChar(d, '\n');
    if t == "" then [] else Terminate(SplitLines(Terminated(t)))
  }

  /** `_lines(text)`. */
  function Lines(text: string): (r: seq<string>)
    ensures r == [] <==> Normalize(text) == ""
    ensures forall k :: 0 <= k < |r| ==>
      |r[k]| >= 1 && r[k][|r[k]| - 1] == '\n' && SingleLine(r[k][..|r[k]| - 1])
  {
    LinesOfDedented(Dedent(text))
  }

  /** For a text whose only line break is "\n", the lines put back together
      are the normalised text, ended by "\n". */
  lemma LinesConcat(text: string)
    requires OnlyNewlineBreaks(text)
    ensures Concat(Lines(text)) == Terminated(Normalize(text))
  {
    DedentKeepsBreaks(text);
    ConcatOfDedented(Dedent(text));
  }

  lemma ConcatOfDedented(d: string)
    requires OnlyNewlineBreaks(d)
    ensures Concat(LinesOfDedented(d)) == Terminated(LStripChar(d, '\n'))
  {
    var t := LStripChar(d, '\n');
    if t != "" {
      OnlyNewlineBreaksSuffix(d, |d| - |t|);
      var t' := Terminated(t);
      if t[|t| - 1] != '\n' {
        OnlyNewlineBreaksConcat(t, "\n");
      }
      UnlinesSplitLines(t');
      UnlinesIsConcat(SplitLines(t'));
    }
  }

  // ---------------------------------------------------------------------------
  // The step after `dedent`

  /** A dedented text that is the text of single lines, the first non-empty,
      gives exactly those lines. */
  lemma LinesOfUnlinesText(ys: seq<string>)
    requires |ys| >= 1 && ys[0] != ""
    requires forall k :: 0 <= k < |ys| ==> SingleLine(ys[k])
    ensures LinesOfDedented(Unlines(ys)) == Terminate(ys)
  {
    UnlinesStart(ys);
    UnlinesEnd(ys);
    SplitLinesUnlines(ys);
  }

  /** The text of lines starts with the first line's first character. */
  lemma UnlinesStart(ls: seq<string>)
    requires |ls| >= 1 && ls[0] != "" && SingleLine(ls[0])
    ensures Unlines(ls) != "" && Unlines(ls)[0] == ls[0][0] != '\n'
  {
    assert Unlines(ls) == ls[0] + ("\n" + Unlines(ls[1..]));
  }

  /** The same for a "\n"-join of single lines, the first and the last non-empty. */
  lemma LinesOfJoinText(xs: seq<string>)
    requires |xs| >= 1 && xs[0] != "" && xs[|xs| - 1] != ""
    requires forall k :: 0 <= k < |xs| ==> SingleLine(xs[k])
    ensures LinesOfDedented(Join("\n", xs)) == Terminate(xs)
  {
    JoinHeadChar(xs);
    JoinLastChar(xs);
    JoinThenNewline(xs);
    SplitLinesUnlines(xs);
  }

  lemma JoinHeadChar(xs: seq<string>)
    requires |xs| >= 1 && xs[0] != "" && SingleLine(xs[0])
    ensures Join("\n", xs) != "" && Join("\n", xs)[0] == xs[0][0] != '\n'
  {
  }

  lemma {:induction false} JoinLastChar(xs: seq<string>)
    requires |xs| >= 1 && xs[|xs| - 1] != "" && SingleLine(xs[|xs| - 1])
    ensures Join("\n", xs) != "" && Join("\n", xs)[|Join("\n", xs)| - 1] != '\n'
    decreases |xs|
  {
    if |xs| > 1 {
      JoinLastChar(xs[1..]);
    }
  }

  /** `lines` without a final empty line. */
  function DropFinalEmpty(lines: seq<string>): seq<string> {
    if |lines| > 0 && lines[|lines| - 1] == "" then lines[..|lines| - 1] else lines
  }

  /** A dedented text that is the "\n"-join of single lines, the first
      non-empty, gives those lines less a final empty one. */
  lemma LinesOfJoined(c: seq<string>)
    requires |c| >= 1 && c[0] != ""
    requires forall k :: 0 <= k < |c| ==> SingleLine(c[k])
    ensures LinesOfDedented(Join("\n", c)) == Terminate(DropFinalEmpty(c))
  {
    if c[|c| - 1] == "" {
      InitThenLast(c);
      LinesOfJoinedEndingEmpty(c[..|c| - 1]);
    } else {
      LinesOfJoinText(c);
    }
  }

  lemma InitThenLast(c: seq<string>)
    requires |c| >= 1
    ensures c[..|c| - 1] + [c[|c| - 1]] == c
  {
  }

  /** The case of a final empty piece: the join is the other pieces as lines. */
  lemma LinesOfJoinedEndingEmpty(ys: seq<string>)
    requires |ys| >= 1 && ys[0] != ""
    requires forall k :: 0 <= k < |ys| ==> SingleLine(ys[k])
    ensures LinesOfDedented(Join("\n", ys + [""])) == Terminate(ys)
  {
    UnlinesIsJoin(ys);
    LinesOfUnlinesText(ys);
  }

  /** A dedented text of nothing but "\n" gives no lines. */
  lemma LinesOfNewlines(d: string)
    requires AllIn(d, {'\n'})
    ensures LinesOfDedented(d) == []
  {
  }

  // ---------------------------------------------------------------------------
  // `dedent` on the shapes of text the notebooks are built from

  /** The margin of lines whose first line starts with neither a space nor a tab is "". */
  lemma UnindentedMargin(pieces: seq<string>)
    requires |pieces| >= 1 && pieces[0] != "" && !IsIndentChar(pieces[0][0])
    ensures DedentMargin(pieces) == ""
    ensures DedentLines(pieces)[0] == pieces[0]
  {
    assert !IsBlank(pieces[0]);
    DedentMarginExact(pieces, "", 0);
  }

  /** With the first line at the margin, `dedent` only empties the blank lines. */
  lemma MarginlessDedent(pieces: seq<string>)
    requires |pieces| >= 1 && pieces[0] != "" && !IsIndentChar(pieces[0][0])
    ensures DedentLines(pieces) == ClearBlanks(pieces)
  {
    UnindentedMargin(pieces);
    var r := DedentLines(pieces);
    forall k | 0 <= k < |pieces| ensures r[k] == ClearBlanks(pieces)[k] {
      if !IsBlank(pieces[k]) {
        assert pieces[k] == "" + r[k];
      }
    }
  }

  lemma DedentAtMargin(s: string)
    requires Split(s, '\n')[0] != "" && !IsIndentChar(Split(s, '\n')[0][0])
    ensures Dedent(s) == Join("\n", ClearBlanks(Split(s, '\n')))
  {
    MarginlessDedent(Split(s, '\n'));
  }

  /** The text of single lines is unchanged by `dedent` when its first line
      starts at the margin and its only blank lines are empty. */
  lemma DedentOfUnlines(ls: seq<string>)
    requires |ls| >= 1 && ls[0] != "" && !IsIndentChar(ls[0][0])
    requires forall k :: 0 <= k < |ls| ==> SingleLine(ls[k])
    requires forall k :: 0 <= k < |ls| && IsBlank(ls[k]) ==> ls[k] == ""
    ensures Dedent(Unlines(ls)) == Unlines(ls)
  {
    SplitUnlines(ls);
    UnindentedWithEmpty(ls);
    DedentFixed(Unlines(ls));
  }

  lemma UnindentedWithEmpty(ls: seq<string>)
    requires |ls| >= 1 && ls[0] != "" && !IsIndentChar(ls[0][0])
    requires forall k :: 0 <= k < |ls| && IsBlank(ls[k]) ==> ls[k] == ""
    ensures DedentLines(ls + [""]) == ls + [""]
  {
    var pieces := ls + [""];
    MarginlessDedent(pieces);
    forall k | 0 <= k < |pieces| ensures ClearBlanks(pieces)[k] == pieces[k] {
      if k < |ls| { assert pieces[k] == ls[k]; }
    }
  }

  /** A text whose lines `dedent` leaves alone is unchanged by `dedent`. */
  lemma DedentFixed(s: string)
    requires DedentLines(Split(s, '\n')) == Split(s, '\n')
    ensures Dedent(s) == s
  {
  }

  /** A text of nothing but spaces, tabs and "\n" dedents to nothing but "\n". */
  lemma DedentOfBlankText(s: string)
    requires AllIn(s, {' ', '\t', '\n'})
    ensures AllIn(Dedent(s), {'\n'})
  {
    BlankPieces(s);
    JoinOfEmpties(DedentLines(Split(s, '\n')));
  }

  lemma BlankPieces(s: string)
    requires AllIn(s, {' ', '\t', '\n'})
    ensures forall k :: 0 <= k < |Split(s, '\n')| ==> IsBlank(Split(s, '\n')[k])
  {
    var pieces := Split(s, '\n');
    AllInJoinPieces("\n", pieces, {' ', '\t', '\n'});
    forall k, i | 0 <= k < |pieces| && 0 <= i < |pieces[k]| ensures IsIndentChar(pieces[k][i]) {
      assert pieces[k][i] in {' ', '\t', '\n'};
      assert pieces[k][i] != '\n';
    }
  }

  /** Lines that all carry the same indentation `m` in front of text that
      starts at the margin, or are blank, lose exactly `m` in `dedent`. */
  lemma DedentUniform(m: string, pieces: seq<string>, xs: seq<string>, k0: nat)
    requires m != "" && IsBlank(m) && |pieces| == |xs|
    requires forall k :: 0 <= k < |xs| ==>
      if xs[k] == "" then IsBlank(pieces[k]) else pieces[k] == m + xs[k] && !IsIndentChar(xs[k][0])
    requires k0 < |xs| && xs[k0] != ""
    ensures DedentLines(pieces) == xs
  {
    forall k | 0 <= k < |xs| && xs[k] != "" ensures !IsBlank(pieces[k]) && !IsBlank(xs[k]) {
      assert pieces[k][|m|] == xs[k][0];
    }
    UniformMargin(m, pieces, xs, k0);
    DedentByMargin(m, pieces, xs);
  }

  lemma UniformMargin(m: string, pieces: seq<string>, xs: seq<string>, k0: nat)
    requires IsBlank(m) && |pieces| == |xs|
    requires forall k :: 0 <= k < |xs| ==>
      if xs[k] == "" then IsBlank(pieces[k])
      else pieces[k] == m + xs[k] && !IsIndentChar(xs[k][0]) && !IsBlank(pieces[k])
    requires k0 < |xs| && xs[k0] != ""
    ensures DedentMargin(pieces) == m
  {
    forall k | 0 <= k < |xs| && !IsBlank(pieces[k]) ensures Indent(pieces[k]) == m {
      IndentAfter(m, xs[k]);
    }
    DedentMarginExact(pieces, m, k0);
  }

  lemma DedentByMargin(m: string, pieces: seq<string>, xs: seq<string>)
    requires DedentMargin(pieces) == m && |pieces| == |xs|
    requires forall k :: 0 <= k < |xs| ==>
      if xs[k] == "" then IsBlank(pieces[k]) else pieces[k] == m + xs[k] && !IsBlank(pieces[k])
    ensures DedentLines(pieces) == xs
  {
    var r := DedentLines(pieces);
    forall k | 0 <= k < |xs| ensures r[k] == xs[k] {
      if xs[k] != "" {
        assert m + r[k] == m + xs[k];
        assert r[k] == (m + r[k])[|m|..];
      }
    }
  }

  /** A text of pieces each `m` in front of a line starting at the margin, or
      blank where the line is empty, dedents to the "\n"-join of the lines. */
  lemma DedentOfIndented(m: string, pieces: seq<string>, xs: seq<string>, k0: nat)
    requires m != "" && IsBlank(m) && |pieces| == |xs|
    requires forall k :: 0 <= k < |xs| ==> SingleLine(pieces[k])
    requires forall k :: 0 <= k < |xs| ==>
      if xs[k] == "" then IsBlank(pieces[k]) else pieces[k] == m + xs[k] && !IsIndentChar(xs[k][0])
    requires k0 < |xs| && xs[k0] != ""
    ensures Dedent(Join("\n", pieces)) == Join("\n", xs)
  {
    SplitJoin(pieces, '\n');
    DedentUniform(m, pieces, xs, k0);
  }

  // ---------------------------------------------------------------------------
  // `_lines` on those shapes

  /** The pieces of a text whose only line break is "\n" are single lines. */
  lemma PiecesSingleLine(s: string)
    requires OnlyNewlineBreaks(s)
    ensures forall k :: 0 <= k < |Split(s, '\n')| ==> SingleLine(Split(s, '\n')[k])
  {
    var pieces := Split(s, '\n');
    OnlyNewlineBreaksJoin(pieces);
    forall k | 0 <= k < |pieces| ensures SingleLine(pieces[k]) {
      forall i | 0 <= i < |pieces[k]| ensures !IsLineBoundary(pieces[k][i]) {
        assert pieces[k][i] != '\n';
      }
    }
  }

  /** Emptying blank lines keeps single lines single. */
  lemma ClearedSingleLine(pieces: seq<string>)
    requires forall k :: 0 <= k < |pieces| ==> SingleLine(pieces[k])
    ensures forall k :: 0 <= k < |pieces| ==> SingleLine(ClearBlanks(pieces)[k])
  {
  }

  /** A text whose first line starts at the margin keeps all its indentation:
      its `_lines` are its "\n"-pieces with the blank ones emptied and a final
      empty piece dropped. */
  lemma LinesAtMargin(s: string)
    requires OnlyNewlineBreaks(s)
    requires Split(s, '\n')[0] != "" && !IsIndentChar(Split(s, '\n')[0][0])
    ensures Lines(s) == Terminate(DropFinalEmpty(ClearBlanks(Split(s, '\n'))))
  {
    var pieces := Split(s, '\n');
    PiecesSingleLine(s);
    ClearedSingleLine(pieces);
    DedentAtMargin(s);
    LinesOfJoined(ClearBlanks(pieces));
  }

  /** A text given as single lines, the first at the margin and no blank line
      but the empty one, comes out of `_lines` as exactly those lines. */
  lemma LinesOfUnlines(ls: seq<string>)
    requires |ls| >= 1 && ls[0] != "" && !IsIndentChar(ls[0][0])
    requires forall k :: 0 <= k < |ls| ==> SingleLine(ls[k])
    requires forall k :: 0 <= k < |ls| && IsBlank(ls[k]) ==> ls[k] == ""
    ensures Lines(Unlines(ls)) == Terminate(ls)
  {
    DedentOfUnlines(ls);
    LinesOfUnlinesText(ls);
  }

  /** A text of nothing but spaces, tabs and "\n" has no lines. */
  lemma LinesOfBlankText(s: string)
    requires AllIn(s, {' ', '\t', '\n'})
    ensures Lines(s) == []
  {
    DedentOfBlankText(s);
    LinesOfNewlines(Dedent(s));
  }

  /** A text whose lines all carry one indentation `m` in front of single
      lines that start at the margin, blank where a line is empty, and whose
      last piece is blank, comes out of `_lines` as exactly those lines, with
      `m` removed: "   a\n   b\n   " gives ["a\n", "b\n"]. */
  lemma LinesOfIndented(m: string, pieces: seq<string>, ys: seq<string>)
    requires m != "" && IsBlank(m) && |pieces| == |ys| + 1 && |ys| >= 1 && ys[0] != ""
    requires forall k :: 0 <= k < |pieces| ==> SingleLine(pieces[k])
    requires forall k :: 0 <= k < |ys| ==>
      if ys[k] == "" then IsBlank(pieces[k]) else pieces[k] == m + ys[k] && !IsIndentChar(ys[k][0])
    requires IsBlank(pieces[|ys|])
    ensures Lines(Join("\n", pieces)) == Terminate(ys)
  {
    DedentOfIndentedEnded(m, pieces, ys);
    forall k | 0 <= k < |ys| ensures SingleLine(ys[k]) {
      if ys[k] != "" { SingleLineSuffix(m, ys[k]); }
    }
    LinesOfUnlinesText(ys);
  }

  /** The same without the final blank piece: lines that all carry one
      indentation `m` come out of `_lines` without it, a final empty line
      dropped: "   line one\n   line two" gives ["line one\n", "line two\n"]. */
  lemma LinesOfIndentedText(m: string, pieces: seq<string>, ys: seq<string>)
    requires m != "" && IsBlank(m) && |pieces| == |ys| && |ys| >= 1 && ys[0] != ""
    requires forall k :: 0 <= k < |pieces| ==> SingleLine(pieces[k])
    requires forall k :: 0 <= k < |ys| ==>
      if ys[k] == "" then IsBlank(pieces[k]) else pieces[k] == m + ys[k] && !IsIndentChar(ys[k][0])
    ensures Lines(Join("\n", pieces)) == Terminate(DropFinalEmpty(ys))
  {
    DedentOfIndented(m, pieces, ys, 0);
    forall k | 0 <= k < |ys| ensures SingleLine(ys[k]) {
      if ys[k] != "" { SingleLineSuffix(m, ys[k]); }
    }
    LinesOfJoined(ys);
  }

  lemma DedentOfIndentedEnded(m: string, pieces: seq<string>, ys: seq<string>)
    requires m != "" && IsBlank(m) && |pieces| == |ys| + 1 && |ys| >= 1 && ys[0] != ""
    requires forall k :: 0 <= k < |pieces| ==> SingleLine(pieces[k])
    requires forall k :: 0 <= k < |ys| ==>
      if ys[k] == "" then IsBlank(pieces[k]) else pieces[k] == m + ys[k] && !IsIndentChar(ys[k][0])
    requires IsBlank(pieces[|ys|])
    ensures Dedent(Join("\n", pieces)) == Unlines(ys)
  {
    var xs := ys + [""];
    forall k | 0 <= k < |xs| ensures
      if xs[k] == "" then IsBlank(pieces[k]) else pieces[k] == m + xs[k] && !IsIndentChar(xs[k][0])
    {
      if k < |ys| { assert xs[k] == ys[k]; }
    }
    DedentOfIndented(m, pieces, xs, 0);
    UnlinesIsJoin(ys);
  }

  lemma SingleLineSuffix(a: string, b: string)
    requires SingleLine(a + b)
    ensures SingleLine(b)
  {
    forall i | 0 <= i < |b| ensures !IsLineBoundary(b[i]) {
      assert b[i] == (a + b)[|a| + i];
    }
  }
}
