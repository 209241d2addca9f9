# nb_utils in Dafny

A model of the notebook builder in `tools/nb_utils.py`. It turns a teaching
topic into a Jupyter notebook and writes the README that lists the notebooks.

The model covers:

- `_lines`: the normalisation every cell text goes through. It applies
  `textwrap.dedent`, removes leading "\n" characters, adds a final "\n",
  splits with `str.splitlines` and ends every line with "\n".
- `md`, `code` and `nb`: the dictionaries a cell and a notebook are made of.
- The `Point` and `Topic` records.
- `build`: the fixed template of cells for a topic. This covers:
  - title;
  - prerequisites;
  - map of points;
  - checklist;
  - setup code;
  - each point and its demo;
  - pitfalls;
  - the worked example and its code;
  - self-check;
  - exercises.
- The pure part of `write_readme`: the sorted list of notebook names after a
  fixed header.

The Python string functions the code calls are modelled from their
documented behaviour in module `PyStr`. This covers `strip`, `lstrip`,
`splitlines` (with every line-boundary character Python recognises) and
`str.join`. `textwrap.dedent` is modelled in module `Textwrap`. `dedent`
works line by line with regular expressions; the model splits the text at
"\n" for that, with `PyStr.Split`, which the code itself never calls.

`_cell_id` draws a random id. The model passes ids in instead: `ids(k)` is
the id the `k`-th cell of a notebook receives, since `build` creates its
cells in list order.

Modules, one per file:

- `Optional` (option.dfy)
- `PyStr` (pystr.dfy)
- `Textwrap` (textwrap.dfy)
- `NbLines` (lines.dfy): `_lines`
- `NbCells` (cells.dfy): `md`, `code`, `nb`, and reading a notebook back
- `NbSections` (sections.dfy): the markdown sections `build` writes
- `NbBuild` (build.dfy): the records and the template
- `NbBuildProps` (build_props.dfy): the shape of every notebook
- `NbBuildSources` (build_sources.dfy): what each slot's text becomes under `_lines`
- `NbBuildCells` (build_cells.dfy): each cell of the built notebook, by index
- `NbReadme` (readme.dfy): the README listing

## Model

| member | source | states |
|---|---|---|
| Textwrap.Margin | tools/nb_utils.py:21 | The margin `dedent` finds is absent exactly when every line is blank; otherwise it is indentation common to all non-blank lines |
| Textwrap.MarginGreatest | tools/nb_utils.py:21 | No indentation common to all non-blank lines is longer than the margin, so the margin is the longest common one |
| Textwrap.DedentLines | tools/nb_utils.py:21 | `dedent` keeps the number of lines, empties blank lines, and takes the same margin off every other line, which stays non-blank |
| Textwrap.DedentLineByLine | tools/nb_utils.py:21 | The same, stated of the text: the lines of the dedented text correspond one to one with the original's |
| Textwrap.DedentIdempotent | tools/nb_utils.py:21 | Dedenting a second time changes nothing: no margin is left |
| Textwrap.DedentKeepsBreaks | tools/nb_utils.py:21 | `dedent` introduces no line break other than "\n" |
| Textwrap.DedentMarginExact | tools/nb_utils.py:21 | When every non-blank line starts with `m` and one has exactly `m`, the margin is `m` |
| PyStr.Strip | tools/nb_utils.py:108 | `strip` is empty exactly for an all-whitespace text; otherwise it begins and ends with non-whitespace |
| PyStr.StripSlice | tools/nb_utils.py:108 | `strip` keeps one contiguous slice of the text, and everything it drops before and after that slice is whitespace |
| PyStr.SplitJoin | tools/nb_utils.py:21 | Splitting at a separator undoes joining with it, for pieces that do not contain it |
| PyStr.SplitLinesUnlines | tools/nb_utils.py:26 | `splitlines` gives back the single lines that were joined with "\n" endings |
| PyStr.UnlinesSplitLines | tools/nb_utils.py:24-26 | A text broken only at "\n" and ending with "\n" is its `splitlines` lines, each ended with "\n" |
| PyStr.Itoa | tools/nb_utils.py:100 | A number's decimal text is digits whose value is the number, with no leading zero |
| NbLines.Lines | tools/nb_utils.py:20-26 | `_lines` is empty exactly when the dedented text holds only "\n"; otherwise every line ends with exactly one "\n" and has no other line break |
| NbLines.LinesConcat | tools/nb_utils.py:20-26 | Joining the lines gives back the dedented, left-stripped text with a final "\n" added when it lacked one |
| NbLines.LinesOfUnlines | tools/nb_utils.py:20-26 | Lines that start at the margin, with blank lines empty, come back from `_lines` unchanged |
| NbLines.LinesOfIndented | tools/nb_utils.py:20-26 | Lines that share an indentation and end in a blank piece come back from `_lines` without that indentation |
| NbLines.LinesOfIndentedText | tools/nb_utils.py:20-26 | Lines that share an indentation, with no final blank piece, come back from `_lines` without that indentation, less a final empty line |
| NbLines.LinesOfBlankText | tools/nb_utils.py:21-23 | A text of only spaces, tabs and "\n" has no lines |
| NbLines.LinesAtMargin | tools/nb_utils.py:20-26 | A text whose first line starts at the margin keeps all its indentation; only blank lines are emptied |
| NbCells.Md | tools/nb_utils.py:29-30 | A markdown cell with the given id; its source is empty exactly when the normalised text is, and every line ends with "\n" |
| NbCells.Code | tools/nb_utils.py:33-41 | The same for a code cell |
| NbCells.MarkdownShape | tools/nb_utils.py:29-30 | A markdown cell dictionary has its kind, id, empty metadata and source, and neither an execution count nor outputs |
| NbCells.CodeShape | tools/nb_utils.py:33-41 | A code cell dictionary has its kind, id, a null execution count, empty metadata, no outputs and its source |
| NbCells.NotebookEnvelope | tools/nb_utils.py:44-53 | A notebook dictionary holds the cells in order, the fixed kernel and language metadata, and format 4.5 |
| NbCells.ReadCellExact | tools/nb_utils.py:29-41 | A dictionary reads back as a cell exactly when it is that cell's dictionary |
| NbCells.NotebookRoundTrip | tools/nb_utils.py:44-53 | A notebook dictionary reads back as exactly the cells it was built from |
| NbCells.ReadNotebookExact | tools/nb_utils.py:44-53 | Only the notebook `nb` builds from some cells reads back as those cells |
| NbBuild.DemoCount | tools/nb_utils.py:121 | At most one demo per point |
| NbBuild.PointSlots | tools/nb_utils.py:119-122 | The points contribute one cell each plus one per demo |
| NbBuildProps.BuildCount | tools/nb_utils.py:103-131 | A notebook has 9 cells, plus one per point and one per demo, plus one when the example has code |
| NbBuildProps.CodeCellCount | tools/nb_utils.py:116-128 | The code cells are the setup, one per demo and the example's code when it is not blank; all other cells are markdown, 8 plus one per point |
| NbBuildProps.IdsOnlyLabel | tools/nb_utils.py:103-133 | Different ids give the same cells apart from the ids: same count, kinds and sources |
| NbBuildProps.HeadKinds | tools/nb_utils.py:103-117 | Of the first five cells only the fifth, the setup, is code |
| NbBuildProps.PointPlacement | tools/nb_utils.py:119-122 | Point `i` sits after the head and the earlier points and their demos, numbered from 1; it is followed by its demo exactly when it has one, else by the next point or the pitfalls |
| NbBuildProps.TrailerOrder | tools/nb_utils.py:124-131 | After the points come pitfalls and the example, then its code exactly when the example code is not blank, and self-check and exercises last |
| NbBuildProps.BuildReadsBack | tools/nb_utils.py:97-133 | The notebook `build` returns reads back as exactly its cells |
| NbSections.JoinedOrBullets | tools/nb_utils.py:98-101 | The placeholder of an `or` is used exactly when the list is empty |
| NbSections.LinesOfSection | tools/nb_utils.py:113-131 | A section's lines are its heading, an empty line and its body's lines with the blank ones emptied |
| NbSections.LinesOfPlaceholderSection | tools/nb_utils.py:98-101 | A bulleted section has one line per item, in order, or the placeholder line when there is no item |
| NbSections.LinesOfBulletSection | tools/nb_utils.py:100-131 | A bulleted section without a placeholder has one line per item, or one empty line when there is no item |
| NbBuildSources.PrereqSource | tools/nb_utils.py:98-113 | The prerequisites cell: heading, empty line, then "- x" per prerequisite or "- 无" when there is none |
| NbBuildSources.ChecklistSource | tools/nb_utils.py:99-115 | The checklist cell: heading, empty line, then "- [ ] x" per item or "- [ ] 无" |
| NbBuildSources.PitfallsSource | tools/nb_utils.py:101-124 | The pitfalls cell: heading, empty line, then "- x" per pitfall or "- 无" |
| NbBuildSources.MapSource | tools/nb_utils.py:100-114 | The map cell: heading, empty line, then one numbered bullet per point, or an empty line when there are no points |
| NbBuildSources.PointSource | tools/nb_utils.py:120 | A point's cell: its numbered heading, an empty line and the stripped markdown's lines |
| NbBuildSources.ExampleSource | tools/nb_utils.py:126 | The example's cell: its heading, an empty line and the stripped markdown's lines |
| NbBuildSources.SelfCheckSource | tools/nb_utils.py:130 | The self-check cell: heading, empty line, one bullet per question, or an empty line when there is none |
| NbBuildSources.ExercisesSource | tools/nb_utils.py:131 | The exercises cell likewise |
| NbBuildSources.TitleSource | tools/nb_utils.py:104-111 | With the continuation the literal evidently means, the title cell is the heading, an empty line, the stripped overview, an empty line and the common note, all at the margin |
| NbBuildSources.TitleSourceAsWritten | tools/nb_utils.py:105-111 | As written, the title cell starts with a line holding one backslash, and its other lines keep twelve spaces of indentation; an overview of several lines gives one line per piece, only the first behind the twelve spaces, with blank pieces emptied |
| NbBuildSources.SetupSource | tools/nb_utils.py:63-69 | With the continuation the setup literal evidently means, the setup cell is the five lines of the setup code |
| NbBuildSources.SetupSourceAsWritten | tools/nb_utils.py:63-69 | As written, the setup cell starts with a line holding one backslash, then the five lines of code |
| NbBuildCells.TitleCell | tools/nb_utils.py:104-112 | Cell 0 of the notebook, as the literal is written: a markdown cell with the first id whose lines are a single backslash, then the heading, the stripped overview and the common note, each still indented by twelve spaces; an overview of several lines gives one line per piece, only the first behind the twelve spaces |
| NbBuildCells.PrereqCell | tools/nb_utils.py:113 | Cell 1: a markdown cell with the second id, the prerequisites heading, an empty line, then "- x" per prerequisite or "- 无" when there is none |
| NbBuildCells.MapCell | tools/nb_utils.py:114 | Cell 2: the map heading, an empty line, then "- k. title" per point in order, or one empty line when there are no points |
| NbBuildCells.ChecklistCell | tools/nb_utils.py:115 | Cell 3: the checklist heading, an empty line, then "- [ ] x" per item or "- [ ] 无" |
| NbBuildCells.SetupCell | tools/nb_utils.py:116 | Cell 4: a code cell whose lines, as the setup literal is written, are a single backslash and then the five lines of setup code |
| NbBuildCells.PointCell | tools/nb_utils.py:119-120 | Wherever the layout places point number `n`, its cell is markdown with that index's id: the numbered heading, an empty line and the stripped markdown's lines, blank ones emptied |
| NbBuildCells.DemoCell | tools/nb_utils.py:121-122 | Wherever the layout places a demo, its cell is a code cell with that index's id holding `_lines` of the demo |
| NbBuildCells.PitfallsCell | tools/nb_utils.py:124 | The cell right after the points and demos: the pitfalls heading, an empty line, then "- x" per pitfall or "- 无" |
| NbBuildCells.ExampleCell | tools/nb_utils.py:126 | The next cell: the example's heading with its title, an empty line and the stripped example markdown's lines |
| NbBuildCells.ExampleCodeCell | tools/nb_utils.py:127-128 | Where the layout places the example's code, the cell is a code cell holding `_lines` of that code |
| NbBuildCells.LastCells | tools/nb_utils.py:130-131 | The last two cells are self-check and exercises: heading, empty line, one "- q" per item, or an empty line when there is none |
| NbBuildCells.IntendedAgrees | tools/nb_utils.py:103-131 | With the literals as intended the notebook has the same length, ids and kinds, and every cell other than the title and setup is the same |
| NbBuildCells.IntendedTitleCell | tools/nb_utils.py:104-112 | With the continuation the title literal evidently means, cell 0 is the heading, an empty line, the stripped overview, an empty line and the common note, all at the margin |
| NbBuildCells.IntendedSetupCell | tools/nb_utils.py:63-69 | With the continuation the setup literal evidently means, cell 4 is exactly the five lines of setup code |
| NbBuildCells.IntendedReadsBack | tools/nb_utils.py:133 | The notebook with the intended literals reads back as exactly its cells |
| NbReadme.LexLeTotal | tools/nb_utils.py:137 | Python's string order puts any two names one way or the other |
| NbReadme.LexLeTrans | tools/nb_utils.py:137 | The order is transitive |
| NbReadme.LexLeAntisym | tools/nb_utils.py:137 | Names ordered both ways are equal |
| NbReadme.SortNames | tools/nb_utils.py:137 | `sorted` gives the names in ascending order, each as often as given |
| NbReadme.SortedUnique | tools/nb_utils.py:137 | Two sorted sequences with the same names are equal, so the sorted order is unique |
| NbReadme.SortNamesIsTheSort | tools/nb_utils.py:137 | Any sorted rearrangement of the names is the one `SortNames` gives |
| NbReadme.ReadmeListing | tools/nb_utils.py:137-150 | The README is the nine header pieces, then one "- `name`" piece per notebook; read back, the names are sorted and are exactly the notebooks |
| NbReadme.ReadmeOrderFree | tools/nb_utils.py:137-151 | The README text does not depend on the order the directory lists the notebooks in |
| NbReadme.ListingLines | tools/nb_utils.py:137-151 | The README text is the header's text followed by the sorted bullets, one line each |

## Left out

- `_cell_id` (lines 16-17) draws from `uuid4`. Ids are a parameter `ids: nat -> string`, and no property depends on their values.
- `write_nb` (lines 56-58): creating directories, JSON serialisation and writing the file are I/O and are not modelled. The notebook is modelled as a JSON value, with objects as ordered lists of fields.
- `write_readme` (lines 136-151):
  - Listing `*.ipynb` with `glob` and writing README.md are I/O. The model takes the names as input and returns the text.
  - The file names are taken as given. Path handling, and `glob`'s choice of which files match, are not modelled.
- `validate_notebooks` (lines 154-156) only parses files; it is I/O and is not modelled.
- `topic.prerequisites or []` (and the same for `checklist` and `pitfalls`): a `None` list is not modelled. Lists are sequences, and an empty list behaves like `None`.
- The JSON text `json.dumps` produces (escaping, indentation) is not modelled.
- NbBuildSources.PrereqSource: requires every prerequisite to be a single line. A multi-line prerequisite splits into several lines, which only NbLines.Lines and NbSections.LinesOfSection describe.
- NbBuildSources.ChecklistSource: requires every checklist item to be a single line. A multi-line checklist item splits into several lines, which only NbLines.Lines and NbSections.LinesOfSection describe.
- NbBuildSources.PitfallsSource: requires every pitfall to be a single line. A multi-line pitfall splits into several lines, which only NbLines.Lines and NbSections.LinesOfSection describe.
- NbBuildSources.MapSource: requires every point title to be a single line. A multi-line point title splits into several lines, which only NbLines.Lines and NbSections.LinesOfSection describe.
- NbBuildSources.SelfCheckSource: requires every question to be a single line. A multi-line question splits into several lines, which only NbLines.Lines and NbSections.LinesOfSection describe.
- NbBuildSources.ExercisesSource: requires every exercise to be a single line. A multi-line exercise splits into several lines, which only NbLines.Lines and NbSections.LinesOfSection describe.
- NbBuildSources.TitleSource: requires the number, the titles and the stripped overview to be single lines. An overview of several lines puts lines at the margin into the title literal. That changes the margin `dedent` finds, and only NbLines.Lines describes that case.
- NbBuildSources.TitleSourceAsWritten: requires the number and the titles to be single lines, and the stripped overview to break lines only at "\n". A multi-line number or title splits the heading into several lines, and an overview with another line-boundary character is split further by `splitlines`. The backslash line fixes the margin at nothing either way, and only NbLines.Lines describes those cases.
- NbBuildSources.PointSource: requires the title to be one line and the markdown to break lines only at "\n". A text with other line-boundary characters, which `splitlines` honours but `dedent` does not, is described only by NbLines.Lines.
- NbBuildSources.ExampleSource: requires the title to be one line and the markdown to break lines only at "\n". A text with other line-boundary characters, which `splitlines` honours but `dedent` does not, is described only by NbLines.Lines.
- NbBuildCells.TitleCell: requires the number and the titles to be single lines, and the stripped overview to break lines only at "\n", for the reasons given for NbBuildSources.TitleSourceAsWritten.
- NbBuildCells.IntendedTitleCell: requires the number, the titles and the stripped overview to be single lines, for the reason given for NbBuildSources.TitleSource.
- NbBuildCells.PrereqCell: requires every prerequisite to be a single line, as NbBuildSources.PrereqSource does.
- NbBuildCells.MapCell: requires every point title to be a single line, as NbBuildSources.MapSource does.
- NbBuildCells.ChecklistCell: requires every checklist item to be a single line, as NbBuildSources.ChecklistSource does.
- NbBuildCells.PointCell: requires the title to be one line and the markdown to break lines only at "\n", as NbBuildSources.PointSource does.
- NbBuildCells.PitfallsCell: requires every pitfall to be a single line, as NbBuildSources.PitfallsSource does.
- NbBuildCells.ExampleCell: requires the title to be one line and the markdown to break lines only at "\n", as NbBuildSources.ExampleSource does.
- NbBuildCells.LastCells: requires every question and exercise to be a single line, as NbBuildSources.SelfCheckSource and NbBuildSources.ExercisesSource do.
- Textwrap: `dedent` is modelled as CPython 3.8 implements it. Lines consisting only of spaces and tabs are emptied, and the margin is the longest common leading run of spaces and tabs. Other whitespace, such as form feeds, counts as text.

## Findings

| source | as written | input that shows it | evidently intended | confidence | as-written member | corrected member |
|---|---|---|---|---|---|---|
| tools/nb_utils.py:63 | `"""\\` followed by a line break is an escaped backslash, so ARTIFACTS_SETUP starts with a line holding a single backslash | any call of `build`: the setup cell's `source` starts with the line "\\" before `from pathlib import Path`. Python joins that line to the next, so the code still runs, but the cell shows a stray line | `"""\`, a line continuation, so the code starts at `from pathlib import Path` | medium (not executed) | NbBuildCells.SetupCell | NbBuildCells.IntendedSetupCell |
| tools/nb_utils.py:105 | the title f-string also starts with `"""\\`; its backslash line sits at the margin, so `dedent` finds no common margin | any topic: the title cell's `source` starts with the line "\\", and the heading line keeps twelve leading spaces. A line indented that far is not a markdown heading, so the title is not rendered as one | `"""\`, so `dedent` removes the twelve spaces and the heading starts with "# " | high (not executed) | NbBuildCells.TitleCell | NbBuildCells.IntendedTitleCell |

`NbBuild.BuildCells` and `NbBuild.Build` model `build` as written, with the literals `TitleTextAsWritten` and `ArtifactsSetupAsWritten`. `NbBuild.IntendedCells` and `NbBuild.BuildIntended` are the corrected program, with `TitleText` and `ArtifactsSetup`.
