/** What `_lines` makes of each text `build` writes: the source lines of
    every cell of the notebook (tools/nb_utils.py, lines 61-69 and 98-131). */
module NbBuildSources {
  import opened Optional
  import opened PyStr
  import opened Textwrap
  import opened NbLines
  import opened NbSections
  import opened NbBuild

  // ---------------------------------------------------------------------------
  // The fixed texts are well formed

  lemma PrereqHeadingOk()
    ensures IsHeading(PrereqHeading)
  {
  }

  lemma MapHeadingOk()
    ensures IsHeading(MapHeading)
  {
  }

  lemma ChecklistHeadingOk()
    ensures IsHeading(ChecklistHeading)
  {
  }

  lemma PitfallsHeadingOk()
    ensures IsHeading(PitfallsHeading)
  {
  }

  lemma SelfCheckHeadingOk()
    ensures IsHeading(SelfCheckHeading)
  {
  }

  lemma ExercisesHeadingOk()
    ensures IsHeading(ExercisesHeading)
  {
  }

  lemma PrefixesOk()
    ensures IsPrefix("- ") && IsPrefix("- [ ] ")
    ensures IsPrefix(NonePlaceholder) && IsPrefix(UncheckedNonePlaceholder)
  {
  }

  /** A point's heading is one line at the margin when its title is one line. */
  lemma PointHeadingOk(i: nat, title: string)
    requires SingleLine(title)
    ensures IsHeading(PointHeading(i, title))
  {
    ItoaSingleLine(i);
    SingleLineConcat("## 知识点 ", Itoa(i));
    SingleLineConcat("## 知识点 " + Itoa(i), "：");
    SingleLineConcat("## 知识点 " + Itoa(i) + "：", title);
  }

  lemma ExampleHeadingOk(title: string)
    requires SingleLine(title)
    ensures IsHeading(ExampleHeading(title))
  {
    SingleLineConcat("## 综合小案例：", title);
  }

  // ---------------------------------------------------------------------------
  // The list sections

  /** Prerequisites: the heading, an empty line and one "- " bullet per item,
      or "- 无" when there is none. */
  lemma PrereqSource(t: Topic)
    requires forall k :: 0 <= k < |t.prerequisites| ==> SingleLine(t.prerequisites[k])
    ensures Lines(Section(PrereqHeading, PrereqText(t))) == Terminate([PrereqHeading, ""]
      + (if |t.prerequisites| == 0 then [NonePlaceholder] else Bullets("- ", t.prerequisites)))
  {
    PrereqHeadingOk();
    PrefixesOk();
    LinesOfPlaceholderSection(PrereqHeading, "- ", t.prerequisites, NonePlaceholder);
  }

  /** The checklist: one "- [ ] " bullet per item, or "- [ ] 无" when there is none. */
  lemma ChecklistSource(t: Topic)
    requires forall k :: 0 <= k < |t.checklist| ==> SingleLine(t.checklist[k])
    ensures Lines(Section(ChecklistHeading, ChecklistText(t))) == Terminate([ChecklistHeading, ""]
      + (if |t.checklist| == 0 then [UncheckedNonePlaceholder] else Bullets("- [ ] ", t.checklist)))
  {
    ChecklistHeadingOk();
    PrefixesOk();
    LinesOfPlaceholderSection(ChecklistHeading, "- [ ] ", t.checklist, UncheckedNonePlaceholder);
  }

  /** Pitfalls: one "- " bullet per item, or "- 无" when there is none. */
  lemma PitfallsSource(t: Topic)
    requires forall k :: 0 <= k < |t.pitfalls| ==> SingleLine(t.pitfalls[k])
    ensures Lines(Section(PitfallsHeading, PitfallsText(t))) == Terminate([PitfallsHeading, ""]
      + (if |t.pitfalls| == 0 then [NonePlaceholder] else Bullets("- ", t.pitfalls)))
  {
    PitfallsHeadingOk();
    PrefixesOk();
    LinesOfPlaceholderSection(PitfallsHeading, "- ", t.pitfalls, NonePlaceholder);
  }

  /** The numbered titles are one line each when the titles are. */
  lemma NumberedTitlesSingle(ps: seq<Point>)
    requires forall k :: 0 <= k < |ps| ==> SingleLine(ps[k].title)
    ensures forall k :: 0 <= k < |ps| ==> SingleLine(NumberedTitles(ps)[k])
  {
    forall k | 0 <= k < |ps| ensures SingleLine(NumberedTitles(ps)[k]) {
      ItoaSingleLine(k + 1);
      SingleLineConcat(Itoa(k + 1), ". ");
      SingleLineConcat(Itoa(k + 1) + ". ", ps[k].title);
    }
  }

  /** The map: one "- n. title" bullet per point, numbered from 1, and no
      placeholder: an empty list leaves an empty line. */
  lemma MapSource(t: Topic)
    requires forall k :: 0 <= k < |t.points| ==> SingleLine(t.points[k].title)
    ensures Lines(Section(MapHeading, TocText(t))) == Terminate([MapHeading, ""]
      + (if |t.points| == 0 then [""] else Bullets("- ", NumberedTitles(t.points))))
  {
    MapHeadingOk();
    PrefixesOk();
    NumberedTitlesSingle(t.points);
    LinesOfBulletSection(MapHeading, "- ", NumberedTitles(t.points));
  }

  /** Self-check questions: one "- " bullet per question; no placeholder. */
  lemma SelfCheckSource(t: Topic)
    requires forall k :: 0 <= k < |t.selfCheck| ==> SingleLine(t.selfCheck[k])
    ensures Lines(Section(SelfCheckHeading, Join("\n", Bullets("- ", t.selfCheck)))) == Terminate([SelfCheckHeading, ""]
      + (if |t.selfCheck| == 0 then [""] else Bullets("- ", t.selfCheck)))
  {
    SelfCheckHeadingOk();
    PrefixesOk();
    LinesOfBulletSection(SelfCheckHeading, "- ", t.selfCheck);
  }

  /** Exercises: one "- " bullet per exercise; no placeholder. */
  lemma ExercisesSource(t: Topic)
    requires forall k :: 0 <= k < |t.exercises| ==> SingleLine(t.exercises[k])
    ensures Lines(Section(ExercisesHeading, Join("\n", Bullets("- ", t.exercises)))) == Terminate([ExercisesHeading, ""]
      + (if |t.exercises| == 0 then [""] else Bullets("- ", t.exercises)))
  {
    ExercisesHeadingOk();
    PrefixesOk();
    LinesOfBulletSection(ExercisesHeading, "- ", t.exercises);
  }

  // ---------------------------------------------------------------------------
  // The prose sections

  /** A point's markdown: its numbered heading, an empty line, then the
      stripped text's lines as they are, indentation kept, blank ones emptied. */
  lemma PointSource(i: nat, p: Point)
    requires SingleLine(p.title) && OnlyNewlineBreaks(p.detailMd)
    ensures Lines(Section(PointHeading(i, p.title), Strip(p.detailMd))) == Terminate([PointHeading(i, p.title), ""]
      + ClearBlanks(Split(Strip(p.detailMd), '\n')))
  {
    PointHeadingOk(i, p.title);
    StripKeepsBreaks(p.detailMd);
    LinesOfSection(PointHeading(i, p.title), Strip(p.detailMd));
  }

  /** The worked example's markdown, the same way. */
  lemma ExampleSource(t: Topic)
    requires SingleLine(t.miniCaseTitle) && OnlyNewlineBreaks(t.miniCaseMd)
    ensures Lines(Section(ExampleHeading(t.miniCaseTitle), Strip(t.miniCaseMd))) == Terminate([ExampleHeading(t.miniCaseTitle), ""]
      + ClearBlanks(Split(Strip(t.miniCaseMd), '\n')))
  {
    ExampleHeadingOk(t.miniCaseTitle);
    StripKeepsBreaks(t.miniCaseMd);
    LinesOfSection(ExampleHeading(t.miniCaseTitle), Strip(t.miniCaseMd));
  }

  // ---------------------------------------------------------------------------
  // The title

  /** COMMON_NOTE is one line and starts with ">". */
  lemma CommonNoteOk()
    ensures SingleLine(CommonNote) && CommonNote != "" && CommonNote[0] == '>'
  {
    var a := "> 约定：Python 3.8；";
    var b := "示例尽量只用标准库；";
    var c := "代码块可直接运行";
    var d := "（第三方依赖会做可选降级）。";
    SingleLineConcat(a, b);
    SingleLineConcat(a + b, c);
    SingleLineConcat(a + b + c, d);
  }

  /** The title heading is one line starting with "#" when the number and the
      two titles are one line each. */
  lemma TitleHeadingOk(t: Topic)
    requires SingleLine(t.no) && SingleLine(t.titleZh) && SingleLine(t.titleEn)
    ensures SingleLine(TitleHeading(t)) && TitleHeading(t) != "" && TitleHeading(t)[0] == '#'
  {
    SingleLineConcat("# ", t.no);
    SingleLineConcat("# " + t.no, ". ");
    SingleLineConcat("# " + t.no + ". ", t.titleZh);
    SingleLineConcat("# " + t.no + ". " + t.titleZh, "（");
    SingleLineConcat("# " + t.no + ". " + t.titleZh + "（", t.titleEn);
    SingleLineConcat("# " + t.no + ". " + t.titleZh + "（" + t.titleEn, "）");
  }

  /** The lines of the title literal, each with the twelve spaces it carries. */
  function TitlePieces(t: Topic): seq<string> {
    [TitleIndent + TitleHeading(t), "", TitleIndent + Strip(t.overview), "",
     TitleIndent + CommonNote, TitleIndent]
  }

  /** Six pieces joined by "\n", written out. */
  lemma JoinSix(a: string, b: string, c: string, d: string, e: string, f: string)
    ensures Join("\n", [a, b, c, d, e, f])
      == a + "\n" + b + "\n" + c + "\n" + d + "\n" + e + "\n" + f
  {
    var xs := [a, b, c, d, e, f];
    assert xs[1..] == [b, c, d, e, f];
    assert xs[1..][1..] == [c, d, e, f];
    assert xs[1..][1..][1..] == [d, e, f];
    assert xs[1..][1..][1..][1..] == [e, f];
    assert xs[1..][1..][1..][1..][1..] == [f];
    assert Join("\n", [e, f]) == e + "\n" + f;
    assert Join("\n", [d, e, f]) == d + "\n" + (e + "\n" + f);
    assert Join("\n", [c, d, e, f]) == c + "\n" + (d + "\n" + (e + "\n" + f));
    assert Join("\n", [b, c, d, e, f]) == b + "\n" + (c + "\n" + (d + "\n" + (e + "\n" + f)));
  }

  /** The title's text is the "\n"-join of its pieces. */
  lemma TitleTextPieces(t: Topic)
    ensures TitleText(t) == Join("\n", TitlePieces(t))
  {
    TitleShape(TitleIndent, TitleHeading(t), Strip(t.overview), CommonNote);
  }

  lemma TitleShape(m: string, h: string, o: string, n: string)
    ensures m + h + "\n\n" + m + o + "\n\n" + m + n + "\n" + m
      == Join("\n", [m + h, "", m + o, "", m + n, m])
  {
    JoinSix(m + h, "", m + o, "", m + n, m);
  }

  lemma TitleIndentBlank()
    ensures TitleIndent != "" && IsBlank(TitleIndent) && SingleLine(TitleIndent)
  {
  }

  /** What the title needs of its parts: the margin is blank, the heading and
      the note are one line each, starting with a character that is not
      indentation, and so is the overview unless it is empty. */
  predicate TitleParts(m: string, h: string, o: string, n: string) {
    && m != "" && IsBlank(m) && SingleLine(m)
    && h != "" && SingleLine(h) && !IsIndentChar(h[0])
    && n != "" && SingleLine(n) && !IsIndentChar(n[0])
    && SingleLine(o) && (o == "" || !IsIndentChar(o[0]))
  }

  /** A topic whose title fields are one line each has title parts of that kind. */
  lemma TopicTitleParts(t: Topic)
    requires SingleLine(t.no) && SingleLine(t.titleZh) && SingleLine(t.titleEn)
    requires SingleLine(Strip(t.overview))
    ensures TitleParts(TitleIndent, TitleHeading(t), Strip(t.overview), CommonNote)
  {
    TitleIndentBlank();
    TitleHeadingOk(t);
    CommonNoteOk();
  }

  /** An indented piece is one line when its margin and its text are. */
  lemma IndentedSingle(m: string, x: string)
    requires SingleLine(m) && SingleLine(x)
    ensures SingleLine(m + x)
  {
    SingleLineConcat(m, x);
  }

  /** The title's `_lines` for any parts: the margin common to the indented
      pieces goes, and so do the spaces of the last piece. */
  lemma TitleLines(m: string, h: string, o: string, n: string)
    requires TitleParts(m, h, o, n)
    ensures Lines(Join("\n", [m + h, "", m + o, "", m + n, m])) == Terminate([h, "", o, "", n])
  {
    var p := [m + h, "", m + o, "", m + n, m];
    var ys := [h, "", o, "", n];
    IndentedSingle(m, h);
    IndentedSingle(m, o);
    IndentedSingle(m, n);
    if o == "" {
      assert m + o == m;
    }
    LinesOfIndented(m, p, ys);
  }

  /** The title cell, as the line continuation evidently means it: the
      heading, an empty line, the stripped overview, an empty line and the
      note, with the literal's indentation removed. */
  lemma TitleSource(t: Topic)
    requires SingleLine(t.no) && SingleLine(t.titleZh) && SingleLine(t.titleEn)
    requires SingleLine(Strip(t.overview))
    ensures Lines(TitleText(t))
      == Terminate([TitleHeading(t), "", Strip(t.overview), "", CommonNote])
  {
    TitleTextPieces(t);
    TopicTitleParts(t);
    TitleLines(TitleIndent, TitleHeading(t), Strip(t.overview), CommonNote);
  }

  /** Indentation before a piece that starts with something else leaves it non-blank. */
  lemma IndentedNotBlank(m: string, x: string)
    requires x != "" && !IsIndentChar(x[0])
    ensures !IsBlank(m + x)
  {
    assert (m + x)[|m|] == x[0];
  }

  /** What the title as written needs of its parts: the margin is blank, the
      heading and the note are one line each, starting with a character that
      is not indentation, and the overview breaks lines only at "\n". It may
      hold several lines: the backslash piece fixes the margin at nothing. */
  predicate TitlePartsAsWritten(m: string, h: string, o: string, n: string) {
    && m != "" && IsBlank(m) && SingleLine(m)
    && h != "" && SingleLine(h) && !IsIndentChar(h[0])
    && n != "" && SingleLine(n) && !IsIndentChar(n[0])
    && OnlyNewlineBreaks(o)
  }

  lemma JoinThree(a: string, b: string, c: string)
    ensures Join("\n", [a, b, c]) == a + "\n" + b + "\n" + c
  {
    assert [a, b, c][1..] == [b, c];
    assert Join("\n", [b, c]) == b + "\n" + c;
  }

  lemma NoNewline(x: string)
    requires SingleLine(x)
    ensures '\n' !in x
  {
  }

  /** Three pieces without "\n", joined by it, split back into the same three. */
  lemma SplitThree(a: string, b: string, c: string)
    requires '\n' !in a && '\n' !in b && '\n' !in c
    ensures Split(Join("\n", [a, b, c]), '\n') == [a, b, c]
  {
    SplitJoin([a, b, c], '\n');
  }

  lemma SplitBefore(m: string, h: string)
    requires SingleLine(m) && SingleLine(h)
    ensures Split(Join("\n", ["\\", m + h, ""]), '\n') == ["\\", m + h, ""]
  {
    IndentedSingle(m, h);
    NoNewline(m + h);
    SplitThree("\\", m + h, "");
  }

  lemma SplitAfter(m: string, n: string)
    requires SingleLine(m) && SingleLine(n)
    ensures Split(Join("\n", ["", m + n, m]), '\n') == ["", m + n, m]
  {
    IndentedSingle(m, n);
    NoNewline(m + n);
    NoNewline(m);
    SplitThree("", m + n, m);
  }

  /** The title as written around its overview: three pieces before it and
      three after. */
  lemma TitleAsWrittenAround(m: string, h: string, o: string, n: string)
    ensures "\\\n" + Join("\n", [m + h, "", m + o, "", m + n, m])
      == Join("\n", ["\\", m + h, ""]) + "\n" + (m + o) + "\n" + Join("\n", ["", m + n, m])
  {
    JoinSix(m + h, "", m + o, "", m + n, m);
    JoinThree("\\", m + h, "");
    JoinThree("", m + n, m);
  }

  /** The "\n"-pieces of the title as written: the overview's own pieces,
      behind the margin, sit between the three pieces before and after it. */
  lemma TitleAsWrittenSplit(m: string, h: string, o: string, n: string)
    requires TitlePartsAsWritten(m, h, o, n)
    ensures Split(Join("\n", ["\\", m + h, ""]) + "\n" + (m + o) + "\n" + Join("\n", ["", m + n, m]), '\n')
      == ["\\", m + h, ""] + Split(m + o, '\n') + ["", m + n, m]
  {
    SplitBefore(m, h);
    SplitAfter(m, n);
    var x, y := Join("\n", ["\\", m + h, ""]), Join("\n", ["", m + n, m]);
    assert x + "\n" + (m + o) + "\n" + y == x + ['\n'] + (m + o) + ['\n'] + y;
    SplitAround(x, m + o, y, '\n');
  }

  /** The title as written breaks lines only at "\n". */
  lemma TitleAsWrittenBreaks(m: string, h: string, o: string, n: string)
    requires TitlePartsAsWritten(m, h, o, n)
    ensures OnlyNewlineBreaks(Join("\n", ["\\", m + h, ""]) + "\n" + (m + o) + "\n" + Join("\n", ["", m + n, m]))
  {
    var p, q := ["\\", m + h, ""], ["", m + n, m];
    IndentedSingle(m, h);
    IndentedSingle(m, n);
    OnlyNewlineBreaksConcat(m, o);
    OnlyNewlineBreaksJoin(p);
    OnlyNewlineBreaksJoin(q);
    var x, y := Join("\n", p), Join("\n", q);
    OnlyNewlineBreaksConcat(x, "\n");
    OnlyNewlineBreaksConcat(x + "\n", m + o);
    OnlyNewlineBreaksConcat(x + "\n" + (m + o), "\n");
    OnlyNewlineBreaksConcat(x + "\n" + (m + o) + "\n", y);
  }

  /** Emptying the blank pieces of the title as written, and dropping the final empty one. */
  lemma TitleAsWrittenCleared(m: string, h: string, n: string, r: seq<string>)
    requires m != "" && IsBlank(m)
    requires h != "" && !IsIndentChar(h[0]) && n != "" && !IsIndentChar(n[0])
    ensures DropFinalEmpty(ClearBlanks(["\\", m + h, ""] + r + ["", m + n, m]))
      == ["\\", m + h, ""] + ClearBlanks(r) + ["", m + n]
  {
    var xs := ["\\", m + h, ""] + r + ["", m + n, m];
    var c := ClearBlanks(xs);
    IndentedNotBlank(m, h);
    IndentedNotBlank(m, n);
    assert !IsBlank("\\") by { assert "\\"[0] == '\\'; }
    assert forall k :: 0 <= k < |r| ==> xs[3 + k] == r[k];
    assert c[..|c| - 1] == ["\\", m + h, ""] + ClearBlanks(r) + ["", m + n];
  }

  /** The title's `_lines` as written, for any parts: the backslash piece
      comes first, starts at the margin, and so nothing is removed; the
      overview contributes its own pieces, the first behind the margin. */
  lemma TitleLinesAsWritten(m: string, h: string, o: string, n: string)
    requires TitlePartsAsWritten(m, h, o, n)
    ensures Lines("\\\n" + Join("\n", [m + h, "", m + o, "", m + n, m]))
      == Terminate(["\\", m + h, ""] + ClearBlanks(Split(m + o, '\n')) + ["", m + n])
  {
    var s := "\\\n" + Join("\n", [m + h, "", m + o, "", m + n, m]);
    TitleAsWrittenAround(m, h, o, n);
    TitleAsWrittenBreaks(m, h, o, n);
    TitleAsWrittenSplit(m, h, o, n);
    assert Split(s, '\n')[0] == "\\";
    LinesAtMargin(s);
    TitleAsWrittenCleared(m, h, n, Split(m + o, '\n'));
  }

  /** The title cell as written: the backslash line comes first and sets the
      margin at nothing, so every line keeps the literal's twelve spaces. The
      overview may run over several lines; the first carries the twelve
      spaces, the others keep their own indentation, and blank ones are
      emptied. */
  lemma TitleSourceAsWritten(t: Topic)
    requires SingleLine(t.no) && SingleLine(t.titleZh) && SingleLine(t.titleEn)
    requires OnlyNewlineBreaks(Strip(t.overview))
    ensures Lines(TitleTextAsWritten(t)) == Terminate(["\\", TitleIndent + TitleHeading(t), ""]
      + ClearBlanks(Split(TitleIndent + Strip(t.overview), '\n')) + ["", TitleIndent + CommonNote])
  {
    TitleTextPieces(t);
    TitleIndentBlank();
    TitleHeadingOk(t);
    CommonNoteOk();
    TitleLinesAsWritten(TitleIndent, TitleHeading(t), Strip(t.overview), CommonNote);
  }

  // ---------------------------------------------------------------------------
  // The setup code

  lemma SetupImportLine() ensures SingleLine(SetupLines[0]) && SingleLine(SetupLines[1]) {}
  lemma SetupArtLine() ensures SingleLine(SetupLines[2]) {}
  lemma SetupMkdirLine() ensures SingleLine(SetupLines[3]) {}
  lemma SetupPrintLine() ensures SingleLine(SetupLines[4]) {}

  /** The setup code's lines are one line each, and only the empty one is blank. */
  lemma SetupLinesOk()
    ensures forall k :: 0 <= k < |SetupLines| ==> SingleLine(SetupLines[k])
    ensures forall k :: 0 <= k < |SetupLines| && IsBlank(SetupLines[k]) ==> SetupLines[k] == ""
  {
    SetupImportLine();
    SetupArtLine();
    SetupMkdirLine();
    SetupPrintLine();
    assert SetupLines[0][0] == 'f';
    assert SetupLines[2][0] == 'A';
    assert SetupLines[3][0] == 'A';
    assert SetupLines[4][0] == 'p';
  }

  /** The setup cell, as the line continuation evidently means it: exactly its five lines. */
  lemma SetupSource()
    ensures Lines(ArtifactsSetup) == Terminate(SetupLines)
  {
    SetupLinesOk();
    LinesOfUnlines(SetupLines);
  }

  lemma UnlinesBackslash(ls: seq<string>)
    ensures Unlines(["\\"] + ls) == "\\\n" + Unlines(ls)
  {
    assert (["\\"] + ls)[1..] == ls;
  }

  /** A line holding one backslash is one line, not blank and not indented. */
  lemma BackslashLine()
    ensures SingleLine("\\") && "\\" != "" && !IsIndentChar("\\"[0]) && !IsBlank("\\")
  {
    assert "\\"[0] == '\\';
  }

  lemma BackslashThenLines(ls: seq<string>)
    requires forall k :: 0 <= k < |ls| ==> SingleLine(ls[k])
    requires forall k :: 0 <= k < |ls| && IsBlank(ls[k]) ==> ls[k] == ""
    ensures forall k :: 0 <= k < |ls| + 1 ==> SingleLine((["\\"] + ls)[k])
    ensures forall k :: 0 <= k < |ls| + 1 && IsBlank((["\\"] + ls)[k]) ==> (["\\"] + ls)[k] == ""
  {
    var xs := ["\\"] + ls;
    BackslashLine();
    forall k | 1 <= k < |xs| ensures xs[k] == ls[k - 1] {
    }
  }

  /** Lines that need no dedenting, after a line holding one backslash. */
  lemma LinesAfterBackslash(ls: seq<string>)
    requires forall k :: 0 <= k < |ls| ==> SingleLine(ls[k])
    requires forall k :: 0 <= k < |ls| && IsBlank(ls[k]) ==> ls[k] == ""
    ensures Lines("\\\n" + Unlines(ls)) == Terminate(["\\"] + ls)
  {
    UnlinesBackslash(ls);
    BackslashThenLines(ls);
    BackslashLine();
    LinesOfUnlines(["\\"] + ls);
  }

  /** The setup cell as written: a line holding one backslash comes first. */
  lemma SetupSourceAsWritten()
    ensures Lines(ArtifactsSetupAsWritten) == Terminate(["\\"] + SetupLines)
  {
    SetupLinesOk();
    LinesAfterBackslash(SetupLines);
  }
}
