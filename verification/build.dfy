/** `build(topic)`: the fixed template that turns a topic into the cells of
    its notebook (tools/nb_utils.py, lines 61-133). */
module NbBuild {
  import opened Optional
  import opened PyStr
  import opened Textwrap
  import opened NbLines
  import opened NbCells
  import opened NbSections

  /** One knowledge point: a title, its markdown and an optional demo. */
  datatype Point = Point(title: string, detailMd: string, demo: Option<string>)

  /** A topic: the fourteen fields of the record, in order. */
  datatype Topic = Topic(
    no: string,
    filename: string,
    titleZh: string,
    titleEn: string,
    overview: string,
    prerequisites: seq<string>,
    checklist: seq<string>,
    points: seq<Point>,
    pitfalls: seq<string>,
    miniCaseTitle: string,
    miniCaseMd: string,
    miniCaseCode: string,
    selfCheck: seq<string>,
    exercises: seq<string>)

  /** `if p.demo:` — a demo that is present and not the empty string. */
  predicate HasDemo(p: Point) {
    p.demo.Some? && p.demo.value != ""
  }

  /** `if topic.mini_case_code.strip():` */
  predicate HasExampleCode(t: Topic) {
    Strip(t.miniCaseCode) != ""
  }

  /** The number of points with a demo. */
  function DemoCount(ps: seq<Point>): (n: nat)
    ensures n <= |ps|
    decreases |ps|
  {
    if |ps| == 0 then 0 else (if HasDemo(ps[0]) then 1 else 0) + DemoCount(ps[1..])
  }

  // ---------------------------------------------------------------------------
  // The fixed texts

  /** COMMON_NOTE, written as four literals so that each can be checked on its own. */
  const CommonNote: string :=
    "> 约定：Python 3.8；" + "示例尽量只用标准库；" + "代码块可直接运行" + "（第三方依赖会做可选降级）。"

  /** The lines of ARTIFACTS_SETUP's code. */
  const SetupLines: seq<string> := [
    "from pathlib import Path",
    "",
    "ART = Path('_nb_artifacts')",
    "ART.mkdir(exist_ok=True)",
    "print('artifacts dir:', ART.resolve())"
  ]

  /** The setup code, as the line continuation after the opening quotes
      evidently means it: those lines, each ended by "\n". */
  const ArtifactsSetup: string := Unlines(SetupLines)

  /** ARTIFACTS_SETUP as written: the escaped backslash puts a line holding a
      single "\\" before the code. */
  const ArtifactsSetupAsWritten: string := "\\\n" + ArtifactsSetup

  const PrereqHeading: string := "## 前置知识"
  const MapHeading: string := "## 知识点地图"
  const ChecklistHeading: string := "## 自检清单（学完打勾）"
  const PitfallsHeading: string := "## 常见坑"
  const SelfCheckHeading: string := "## 自测题（不写代码也能回答）"
  const ExercisesHeading: string := "## 练习题（建议写代码）"
  const NonePlaceholder: string := "- 无"
  const UncheckedNonePlaceholder: string := "- [ ] 无"

  /** The heading of the `i`-th point, counted from 1. */
  function PointHeading(i: nat, title: string): string {
    "## 知识点 " + Itoa(i) + "：" + title
  }

  function ExampleHeading(title: string): string {
    "## 综合小案例：" + title
  }

  /** The twelve spaces the title's lines carry inside the source's indented literal. */
  const TitleIndent: string := "            "

  function TitleHeading(t: Topic): string {
    "# " + t.no + ". " + t.titleZh + "（" + t.titleEn + "）"
  }

  /** The title cell's text, as the line continuation after the opening
      quotes evidently means it: the heading, the stripped overview and the
      note, each indented by the literal's twelve spaces. */
  function TitleText(t: Topic): string {
    TitleIndent + TitleHeading(t) + "\n\n"
    + TitleIndent + Strip(t.overview) + "\n\n"
    + TitleIndent + CommonNote + "\n"
    + TitleIndent
  }

  /** The title cell's text as written: an escaped backslash and "\n" first. */
  function TitleTextAsWritten(t: Topic): string {
    "\\\n" + TitleText(t)
  }

  /** `[f"{i+1}. {p.title}" ...]`: the table of contents, numbered from 1. */
  function NumberedTitles(ps: seq<Point>): (r: seq<string>)
    ensures |r| == |ps|
  {
    seq(|ps|, k requires 0 <= k < |ps| => Itoa(k + 1) + ". " + ps[k].title)
  }

  function PrereqText(t: Topic): string {
    JoinedOr(Bullets("- ", t.prerequisites), NonePlaceholder)
  }

  function TocText(t: Topic): string {
    Join("\n", Bullets("- ", NumberedTitles(t.points)))
  }

  function ChecklistText(t: Topic): string {
    JoinedOr(Bullets("- [ ] ", t.checklist), UncheckedNonePlaceholder)
  }

  function PitfallsText(t: Topic): string {
    JoinedOr(Bullets("- ", t.pitfalls), NonePlaceholder)
  }

  // ---------------------------------------------------------------------------
  // The cells

  /** The slots of the template: which piece of the topic each cell shows,
      before `md` or `code` turns it into a dictionary. A point's slot carries
      the point and its number; a demo's slot carries its code. */
  datatype Slot =
    | Title | Prereq | Map | Checklist | Setup
    | PointMd(i: nat, p: Point) | Demo(code: string)
    | Pitfalls | Example | ExampleCode | SelfCheck | Exercises

  /** The slots that become code cells; every other slot is markdown. */
  predicate IsCode(s: Slot) {
    s.Setup? || s.Demo? || s.ExampleCode?
  }

  /** The text passed to `md` or `code` for a slot of topic `t`, with the
      title and setup literals as the source writes them. */
  function SlotText(t: Topic, s: Slot): string {
    match s
    case Title => TitleTextAsWritten(t)
    case Prereq => Section(PrereqHeading, PrereqText(t))
    case Map => Section(MapHeading, TocText(t))
    case Checklist => Section(ChecklistHeading, ChecklistText(t))
    case Setup => ArtifactsSetupAsWritten
    case PointMd(i, p) => Section(PointHeading(i, p.title), Strip(p.detailMd))
    case Demo(code) => code
    case Pitfalls => Section(PitfallsHeading, PitfallsText(t))
    case Example => Section(ExampleHeading(t.miniCaseTitle), Strip(t.miniCaseMd))
    case ExampleCode => t.miniCaseCode
    case SelfCheck => Section(SelfCheckHeading, Join("\n", Bullets("- ", t.selfCheck)))
    case Exercises => Section(ExercisesHeading, Join("\n", Bullets("- ", t.exercises)))
  }

  /** The same text with the title and setup literals as their line
      continuation evidently means them. */
  function IntendedSlotText(t: Topic, s: Slot): string {
    match s
    case Title => TitleText(t)
    case Setup => ArtifactsSetup
    case _ => SlotText(t, s)
  }

  /** `md(text)` or `code(text)`, as the slot's kind asks, with the id it draws. */
  function Realize(s: Slot, text: string, id: string): (c: Cell)
    ensures c.id == id && (c.CodeCell? <==> IsCode(s))
    ensures c.source == Lines(text)
  {
    if IsCode(s) then Code(text, id) else Md(text, id)
  }

  /** The slots of the points `ps`, the first numbered `i`: each point's
      markdown, then its demo when it has one. */
  function PointSlots(ps: seq<Point>, i: nat): (r: seq<Slot>)
    ensures |r| == |ps| + DemoCount(ps)
    decreases |ps|
  {
    if |ps| == 0 then []
    else
      var p := ps[0];
      (if HasDemo(p) then [PointMd(i, p), Demo(p.demo.value)] else [PointMd(i, p)])
      + PointSlots(ps[1..], i + 1)
  }

  /** The slots after the points: pitfalls, the worked example, its code
      when there is any, self-check and exercises. */
  function TrailerSlots(withCode: bool): (r: seq<Slot>)
    ensures |r| == if withCode then 5 else 4
  {
    [Pitfalls, Example] + (if withCode then [ExampleCode] else []) + [SelfCheck, Exercises]
  }

  /** The slots of a topic with points `ps`, with or without the example's code. */
  function SlotsOf(ps: seq<Point>, withCode: bool): seq<Slot> {
    [Title, Prereq, Map, Checklist, Setup] + PointSlots(ps, 1) + TrailerSlots(withCode)
  }

  /** The slots in the order `build` lists its cells. */
  function Layout(t: Topic): seq<Slot> {
    SlotsOf(t.points, HasExampleCode(t))
  }

  /** The cells `build` lists; they are created in list order, so the `k`-th
      takes the `k`-th id drawn, `ids(k)`. */
  function BuildCells(t: Topic, ids: nat -> string): (r: seq<Cell>)
    ensures |r| == |Layout(t)|
  {
    var l := Layout(t);
    seq(|l|, k requires 0 <= k < |l| => Realize(l[k], SlotText(t, l[k]), ids(k)))
  }

  /** `build(topic)`. */
  function Build(t: Topic, ids: nat -> string): Json {
    Nb(BuildCells(t, ids))
  }

  /** The cells `build` would list with the title and setup literals as intended. */
  function IntendedCells(t: Topic, ids: nat -> string): (r: seq<Cell>)
    ensures |r| == |Layout(t)|
  {
    var l := Layout(t);
    seq(|l|, k requires 0 <= k < |l| => Realize(l[k], IntendedSlotText(t, l[k]), ids(k)))
  }

  /** `build(topic)` with the title and setup literals as intended. */
  function BuildIntended(t: Topic, ids: nat -> string): Json {
    Nb(IntendedCells(t, ids))
  }
}
