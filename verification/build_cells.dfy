/** The cells of the notebook `build` returns, one by one: at which index
    each section lands, whether it is markdown or code, and which `source`
    lines it holds (tools/nb_utils.py, lines 98-131). */
module NbBuildCells {
  import opened Optional
  import opened PyStr
  import opened Textwrap
  import opened NbLines
  import opened NbCells
  import opened NbSections
  import opened NbBuild
  import opened NbBuildProps
  import opened NbBuildSources

  // ---------------------------------------------------------------------------
  // Where each slot's cell sits

  /** The cell at index `k` with the literals as intended. */
  lemma IntendedCellAt(t: Topic, ids: nat -> string, k: nat)
    requires k < |Layout(t)|
    ensures IntendedCells(t, ids)[k] == Realize(Layout(t)[k], IntendedSlotText(t, Layout(t)[k]), ids(k))
  {
  }

  /** The five head slots of a topic, by index. */
  lemma HeadLayout(t: Topic)
    ensures |Layout(t)| >= 9
    ensures Layout(t)[0] == Title && Layout(t)[1] == Prereq && Layout(t)[2] == Map
    ensures Layout(t)[3] == Checklist && Layout(t)[4] == Setup
  {
    var l := Layout(t);
    HeadSlots(t.points, HasExampleCode(t));
    assert l[..5] == [Title, Prereq, Map, Checklist, Setup];
    assert l[0] == l[..5][0] && l[1] == l[..5][1] && l[2] == l[..5][2];
    assert l[3] == l[..5][3] && l[4] == l[..5][4];
  }

  lemma TitleAt(t: Topic, ids: nat -> string)
    ensures |BuildCells(t, ids)| >= 9 && BuildCells(t, ids)[0] == Realize(Title, SlotText(t, Title), ids(0))
  {
    HeadLayout(t);
    CellAt(t, ids, 0);
  }

  lemma PrereqAt(t: Topic, ids: nat -> string)
    ensures |BuildCells(t, ids)| >= 9 && BuildCells(t, ids)[1] == Realize(Prereq, SlotText(t, Prereq), ids(1))
  {
    HeadLayout(t);
    CellAt(t, ids, 1);
  }

  lemma MapAt(t: Topic, ids: nat -> string)
    ensures |BuildCells(t, ids)| >= 9 && BuildCells(t, ids)[2] == Realize(Map, SlotText(t, Map), ids(2))
  {
    HeadLayout(t);
    CellAt(t, ids, 2);
  }

  lemma ChecklistAt(t: Topic, ids: nat -> string)
    ensures |BuildCells(t, ids)| >= 9 && BuildCells(t, ids)[3] == Realize(Checklist, SlotText(t, Checklist), ids(3))
  {
    HeadLayout(t);
    CellAt(t, ids, 3);
  }

  lemma SetupAt(t: Topic, ids: nat -> string)
    ensures |BuildCells(t, ids)| >= 9 && BuildCells(t, ids)[4] == Realize(Setup, SlotText(t, Setup), ids(4))
  {
    HeadLayout(t);
    CellAt(t, ids, 4);
  }

  lemma IntendedTitleAt(t: Topic, ids: nat -> string)
    ensures |IntendedCells(t, ids)| >= 9 && IntendedCells(t, ids)[0] == Realize(Title, IntendedSlotText(t, Title), ids(0))
  {
    HeadLayout(t);
    IntendedCellAt(t, ids, 0);
  }

  lemma IntendedSetupAt(t: Topic, ids: nat -> string)
    ensures |IntendedCells(t, ids)| >= 9 && IntendedCells(t, ids)[4] == Realize(Setup, IntendedSlotText(t, Setup), ids(4))
  {
    HeadLayout(t);
    IntendedCellAt(t, ids, 4);
  }

  /** The trailer slots of a topic by index, `m` being where they start. */
  lemma TrailerLayout(t: Topic, m: nat)
    requires m == 5 + |t.points| + DemoCount(t.points)
    ensures |Layout(t)| == m + 4 + (if HasExampleCode(t) then 1 else 0)
    ensures Layout(t)[m] == Pitfalls && Layout(t)[m + 1] == Example
    ensures HasExampleCode(t) ==> Layout(t)[m + 2] == ExampleCode
    ensures Layout(t)[|Layout(t)| - 2] == SelfCheck && Layout(t)[|Layout(t)| - 1] == Exercises
  {
    TrailerOrder(t, m);
  }

  lemma PitfallsAt(t: Topic, ids: nat -> string, m: nat)
    requires m == 5 + |t.points| + DemoCount(t.points)
    ensures m + 4 <= |BuildCells(t, ids)| && BuildCells(t, ids)[m] == Realize(Pitfalls, SlotText(t, Pitfalls), ids(m))
  {
    TrailerLayout(t, m);
    CellAt(t, ids, m);
  }

  lemma ExampleAt(t: Topic, ids: nat -> string, m: nat)
    requires m == 5 + |t.points| + DemoCount(t.points)
    ensures m + 4 <= |BuildCells(t, ids)| && BuildCells(t, ids)[m + 1] == Realize(Example, SlotText(t, Example), ids(m + 1))
  {
    TrailerLayout(t, m);
    CellAt(t, ids, m + 1);
  }

  lemma SelfCheckAt(t: Topic, ids: nat -> string)
    ensures var n := |BuildCells(t, ids)|;
      n >= 9 && BuildCells(t, ids)[n - 2] == Realize(SelfCheck, SlotText(t, SelfCheck), ids(n - 2))
  {
    TrailerLayout(t, 5 + |t.points| + DemoCount(t.points));
    CellAt(t, ids, |Layout(t)| - 2);
  }

  lemma ExercisesAt(t: Topic, ids: nat -> string)
    ensures var n := |BuildCells(t, ids)|;
      n >= 9 && BuildCells(t, ids)[n - 1] == Realize(Exercises, SlotText(t, Exercises), ids(n - 1))
  {
    TrailerLayout(t, 5 + |t.points| + DemoCount(t.points));
    CellAt(t, ids, |Layout(t)| - 1);
  }

  lemma PointMdAt(t: Topic, ids: nat -> string, k: nat, n: nat, p: Point)
    requires k < |Layout(t)| && Layout(t)[k] == PointMd(n, p)
    ensures k < |BuildCells(t, ids)|
    ensures BuildCells(t, ids)[k] == Realize(PointMd(n, p), SlotText(t, PointMd(n, p)), ids(k))
  {
    CellAt(t, ids, k);
  }

  // ---------------------------------------------------------------------------
  // The head cells

  /** Cell 0, the title, as the source writes its literal: a line holding one
      backslash, then the heading, the stripped overview and the note, each
      still carrying the literal's twelve spaces. An overview of several
      lines gives one line each, the first behind the twelve spaces, the
      others as they are, the blank ones emptied. */
  lemma TitleCell(t: Topic, ids: nat -> string)
    requires SingleLine(t.no) && SingleLine(t.titleZh) && SingleLine(t.titleEn)
    requires OnlyNewlineBreaks(Strip(t.overview))
    ensures BuildCells(t, ids)[0] == MarkdownCell(ids(0), Terminate(["\\", TitleIndent + TitleHeading(t), ""]
      + ClearBlanks(Split(TitleIndent + Strip(t.overview), '\n')) + ["", TitleIndent + CommonNote]))
  {
    TitleSlot(t);
    TitleAt(t, ids);
  }

  /** Cell 1: the prerequisites, or the placeholder bullet when there are none. */
  lemma PrereqCell(t: Topic, ids: nat -> string)
    requires forall k :: 0 <= k < |t.prerequisites| ==> SingleLine(t.prerequisites[k])
    ensures BuildCells(t, ids)[1] == MarkdownCell(ids(1), Terminate([PrereqHeading, ""]
      + (if |t.prerequisites| == 0 then [NonePlaceholder] else Bullets("- ", t.prerequisites))))
  {
    PrereqSlot(t);
    PrereqAt(t, ids);
  }

  /** Cell 2: the map, one numbered bullet per point, or an empty line when
      there are no points. */
  lemma MapCell(t: Topic, ids: nat -> string)
    requires forall k :: 0 <= k < |t.points| ==> SingleLine(t.points[k].title)
    ensures BuildCells(t, ids)[2] == MarkdownCell(ids(2), Terminate([MapHeading, ""]
      + (if |t.points| == 0 then [""] else Bullets("- ", NumberedTitles(t.points)))))
  {
    MapSlot(t);
    MapAt(t, ids);
  }

  /** Cell 3: the checklist, or the unchecked placeholder when it is empty. */
  lemma ChecklistCell(t: Topic, ids: nat -> string)
    requires forall k :: 0 <= k < |t.checklist| ==> SingleLine(t.checklist[k])
    ensures BuildCells(t, ids)[3] == MarkdownCell(ids(3), Terminate([ChecklistHeading, ""]
      + (if |t.checklist| == 0 then [UncheckedNonePlaceholder] else Bullets("- [ ] ", t.checklist))))
  {
    ChecklistSlot(t);
    ChecklistAt(t, ids);
  }

  /** Cell 4, the setup code, as the source writes its literal: a line
      holding one backslash, then the five lines of code. */
  lemma SetupCell(t: Topic, ids: nat -> string)
    ensures BuildCells(t, ids)[4] == CodeCell(ids(4), Terminate(["\\"] + SetupLines))
  {
    SetupSlot(t);
    SetupAt(t, ids);
  }

  // ---------------------------------------------------------------------------
  // The points

  /** The cell of point number `n` (from 1), wherever the layout puts it: a
      markdown cell with its numbered heading and its stripped markdown.
      Point `i` (from 0) sits at 5 + i + the number of earlier demos
      (`NbBuildProps.PointPlacement`). */
  lemma PointCell(t: Topic, ids: nat -> string, k: nat, n: nat, p: Point)
    requires k < |Layout(t)| && Layout(t)[k] == PointMd(n, p)
    requires SingleLine(p.title) && OnlyNewlineBreaks(p.detailMd)
    ensures k < |BuildCells(t, ids)|
    ensures BuildCells(t, ids)[k] == MarkdownCell(ids(k), Terminate([PointHeading(n, p.title), ""]
      + ClearBlanks(Split(Strip(p.detailMd), '\n'))))
  {
    PointSlot(t, n, p);
    PointMdAt(t, ids, k, n, p);
  }

  /** The cell of a demo, wherever the layout puts it (right after its
      point, `NbBuildProps.PointPlacement`): a code cell holding the demo's
      lines. */
  lemma DemoCell(t: Topic, ids: nat -> string, k: nat, code: string)
    requires k < |Layout(t)| && Layout(t)[k] == Demo(code)
    ensures k < |BuildCells(t, ids)| && BuildCells(t, ids)[k] == CodeCell(ids(k), Lines(code))
  {
    CellAt(t, ids, k);
    assert SlotText(t, Demo(code)) == code;
  }

  // ---------------------------------------------------------------------------
  // The trailer

  /** The cell after the points: the pitfalls, or the placeholder bullet. */
  lemma PitfallsCell(t: Topic, ids: nat -> string, m: nat)
    requires m == 5 + |t.points| + DemoCount(t.points)
    requires forall k :: 0 <= k < |t.pitfalls| ==> SingleLine(t.pitfalls[k])
    ensures BuildCells(t, ids)[m] == MarkdownCell(ids(m), Terminate([PitfallsHeading, ""]
      + (if |t.pitfalls| == 0 then [NonePlaceholder] else Bullets("- ", t.pitfalls))))
  {
    PitfallsSlot(t);
    PitfallsAt(t, ids, m);
  }

  /** Then the worked example's markdown. */
  lemma ExampleCell(t: Topic, ids: nat -> string, m: nat)
    requires m == 5 + |t.points| + DemoCount(t.points)
    requires SingleLine(t.miniCaseTitle) && OnlyNewlineBreaks(t.miniCaseMd)
    ensures BuildCells(t, ids)[m + 1] == MarkdownCell(ids(m + 1), Terminate([ExampleHeading(t.miniCaseTitle), ""]
      + ClearBlanks(Split(Strip(t.miniCaseMd), '\n'))))
  {
    ExampleSlot(t);
    ExampleAt(t, ids, m);
  }

  /** The worked example's code cell, which the layout has exactly when the
      code is not blank (`NbBuildProps.TrailerOrder`): a code cell holding
      the code's lines. */
  lemma ExampleCodeCell(t: Topic, ids: nat -> string, k: nat)
    requires k < |Layout(t)| && Layout(t)[k] == ExampleCode
    ensures k < |BuildCells(t, ids)| && BuildCells(t, ids)[k] == CodeCell(ids(k), Lines(t.miniCaseCode))
  {
    CellAt(t, ids, k);
    assert SlotText(t, ExampleCode) == t.miniCaseCode;
  }

  /** The last two cells: self-check, then exercises, one bullet per item and
      an empty line, not a placeholder, when there is none. */
  lemma LastCells(t: Topic, ids: nat -> string)
    requires forall k :: 0 <= k < |t.selfCheck| ==> SingleLine(t.selfCheck[k])
    requires forall k :: 0 <= k < |t.exercises| ==> SingleLine(t.exercises[k])
    ensures var n := |BuildCells(t, ids)|;
      && n >= 9
      && BuildCells(t, ids)[n - 2] == MarkdownCell(ids(n - 2), Terminate([SelfCheckHeading, ""]
        + (if |t.selfCheck| == 0 then [""] else Bullets("- ", t.selfCheck))))
      && BuildCells(t, ids)[n - 1] == MarkdownCell(ids(n - 1), Terminate([ExercisesHeading, ""]
        + (if |t.exercises| == 0 then [""] else Bullets("- ", t.exercises))))
  {
    SelfCheckSlot(t);
    ExercisesSlot(t);
    SelfCheckAt(t, ids);
    ExercisesAt(t, ids);
  }

  // ---------------------------------------------------------------------------
  // The notebook with the literals as intended

  /** With the literals as intended, the notebook differs only in its title
      and setup cells: same length, kinds and ids, the same cell everywhere
      else. */
  lemma IntendedAgrees(t: Topic, ids: nat -> string, k: nat)
    requires k < |Layout(t)|
    ensures |IntendedCells(t, ids)| == |BuildCells(t, ids)|
    ensures IntendedCells(t, ids)[k].id == BuildCells(t, ids)[k].id == ids(k)
    ensures IntendedCells(t, ids)[k].CodeCell? == BuildCells(t, ids)[k].CodeCell?
    ensures !Layout(t)[k].Title? && !Layout(t)[k].Setup? ==> IntendedCells(t, ids)[k] == BuildCells(t, ids)[k]
  {
    CellAt(t, ids, k);
  }

  /** The intended title cell: the heading, the stripped overview and the
      note, all at the margin, with no backslash line. */
  lemma IntendedTitleCell(t: Topic, ids: nat -> string)
    requires SingleLine(t.no) && SingleLine(t.titleZh) && SingleLine(t.titleEn)
    requires SingleLine(Strip(t.overview))
    ensures IntendedCells(t, ids)[0]
      == MarkdownCell(ids(0), Terminate([TitleHeading(t), "", Strip(t.overview), "", CommonNote]))
  {
    IntendedTitleSlot(t);
    IntendedTitleAt(t, ids);
  }

  /** The intended setup cell: exactly the five lines of code. */
  lemma IntendedSetupCell(t: Topic, ids: nat -> string)
    ensures IntendedCells(t, ids)[4] == CodeCell(ids(4), Terminate(SetupLines))
  {
    IntendedSetupSlot(t);
    IntendedSetupAt(t, ids);
  }

  /** The intended notebook reads back as exactly its cells. */
  lemma IntendedReadsBack(t: Topic, ids: nat -> string)
    ensures ReadNotebook(BuildIntended(t, ids)) == Some(IntendedCells(t, ids))
  {
    NotebookRoundTrip(IntendedCells(t, ids));
  }

  // ---------------------------------------------------------------------------
  // Each slot's text, as lines

  lemma TitleSlot(t: Topic)
    requires SingleLine(t.no) && SingleLine(t.titleZh) && SingleLine(t.titleEn)
    requires OnlyNewlineBreaks(Strip(t.overview))
    ensures Lines(SlotText(t, Title)) == Terminate(["\\", TitleIndent + TitleHeading(t), ""]
      + ClearBlanks(Split(TitleIndent + Strip(t.overview), '\n')) + ["", TitleIndent + CommonNote])
  {
    assert SlotText(t, Title) == TitleTextAsWritten(t);
    TitleSourceAsWritten(t);
  }

  lemma PrereqSlot(t: Topic)
    requires forall k :: 0 <= k < |t.prerequisites| ==> SingleLine(t.prerequisites[k])
    ensures Lines(SlotText(t, Prereq)) == Terminate([PrereqHeading, ""]
      + (if |t.prerequisites| == 0 then [NonePlaceholder] else Bullets("- ", t.prerequisites)))
  {
    assert SlotText(t, Prereq) == Section(PrereqHeading, PrereqText(t));
    PrereqSource(t);
  }

  lemma MapSlot(t: Topic)
    requires forall k :: 0 <= k < |t.points| ==> SingleLine(t.points[k].title)
    ensures Lines(SlotText(t, Map)) == Terminate([MapHeading, ""]
      + (if |t.points| == 0 then [""] else Bullets("- ", NumberedTitles(t.points))))
  {
    assert SlotText(t, Map) == Section(MapHeading, TocText(t));
    MapSource(t);
  }

  lemma ChecklistSlot(t: Topic)
    requires forall k :: 0 <= k < |t.checklist| ==> SingleLine(t.checklist[k])
    ensures Lines(SlotText(t, Checklist)) == Terminate([ChecklistHeading, ""]
      + (if |t.checklist| == 0 then [UncheckedNonePlaceholder] else Bullets("- [ ] ", t.checklist)))
  {
    assert SlotText(t, Checklist) == Section(ChecklistHeading, ChecklistText(t));
    ChecklistSource(t);
  }

  lemma SetupSlot(t: Topic)
    ensures Lines(SlotText(t, Setup)) == Terminate(["\\"] + SetupLines)
  {
    assert SlotText(t, Setup) == ArtifactsSetupAsWritten;
    SetupSourceAsWritten();
  }

  lemma PointSlot(t: Topic, i: nat, p: Point)
    requires SingleLine(p.title) && OnlyNewlineBreaks(p.detailMd)
    ensures Lines(SlotText(t, PointMd(i, p))) == Terminate([PointHeading(i, p.title), ""]
      + ClearBlanks(Split(Strip(p.detailMd), '\n')))
  {
    assert SlotText(t, PointMd(i, p)) == Section(PointHeading(i, p.title), Strip(p.detailMd));
    PointSource(i, p);
  }

  lemma PitfallsSlot(t: Topic)
    requires forall k :: 0 <= k < |t.pitfalls| ==> SingleLine(t.pitfalls[k])
    ensures Lines(SlotText(t, Pitfalls)) == Terminate([PitfallsHeading, ""]
      + (if |t.pitfalls| == 0 then [NonePlaceholder] else Bullets("- ", t.pitfalls)))
  {
    assert SlotText(t, Pitfalls) == Section(PitfallsHeading, PitfallsText(t));
    PitfallsSource(t);
  }

  lemma ExampleSlot(t: Topic)
    requires SingleLine(t.miniCaseTitle) && OnlyNewlineBreaks(t.miniCaseMd)
    ensures Lines(SlotText(t, Example)) == Terminate([ExampleHeading(t.miniCaseTitle), ""]
      + ClearBlanks(Split(Strip(t.miniCaseMd), '\n')))
  {
    assert SlotText(t, Example) == Section(ExampleHeading(t.miniCaseTitle), Strip(t.miniCaseMd));
    ExampleSource(t);
  }

  lemma SelfCheckSlot(t: Topic)
    requires forall k :: 0 <= k < |t.selfCheck| ==> SingleLine(t.selfCheck[k])
    ensures Lines(SlotText(t, SelfCheck)) == Terminate([SelfCheckHeading, ""]
      + (if |t.selfCheck| == 0 then [""] else Bullets("- ", t.selfCheck)))
  {
    assert SlotText(t, SelfCheck) == Section(SelfCheckHeading, Join("\n", Bullets("- ", t.selfCheck)));
    SelfCheckSource(t);
  }

  lemma ExercisesSlot(t: Topic)
    requires forall k :: 0 <= k < |t.exercises| ==> SingleLine(t.exercises[k])
    ensures Lines(SlotText(t, Exercises)) == Terminate([ExercisesHeading, ""]
      + (if |t.exercises| == 0 then [""] else Bullets("- ", t.exercises)))
  {
    assert SlotText(t, Exercises) == Section(ExercisesHeading, Join("\n", Bullets("- ", t.exercises)));
    ExercisesSource(t);
  }

  lemma IntendedTitleSlot(t: Topic)
    requires SingleLine(t.no) && SingleLine(t.titleZh) && SingleLine(t.titleEn)
    requires SingleLine(Strip(t.overview))
    ensures Lines(IntendedSlotText(t, Title))
      == Terminate([TitleHeading(t), "", Strip(t.overview), "", CommonNote])
  {
    assert IntendedSlotText(t, Title) == TitleText(t);
    TitleSource(t);
  }

  lemma IntendedSetupSlot(t: Topic)
    ensures Lines(IntendedSlotText(t, Setup)) == Terminate(SetupLines)
  {
    assert IntendedSlotText(t, Setup) == ArtifactsSetup;
    SetupSource();
  }
}
