/** The markdown sections `build` writes: a heading, an empty line, a body
    and a final "\n" (tools/nb_utils.py, lines 98-101, 113-115, 120, 124,
    126 and 130-131), and what `_lines` makes of them. */
module NbSections {
  import opened PyStr
  import opened Textwrap
  import opened NbLines

  /** `f"{heading}\n\n{body}\n"`. */
  function Section(heading: string, body: string): string {
    heading + "\n\n" + body + "\n"
  }

  /** `[f"{prefix}{x}" for x in items]`. */
  function Bullets(prefix: string, items: seq<string>): (r: seq<string>)
    ensures |r| == |items| && forall k :: 0 <= k < |items| ==> r[k] == prefix + items[k]
  {
    seq(|items|, k requires 0 <= k < |items| => prefix + items[k])
  }

  /** `"\n".join(lines) or placeholder`: the placeholder stands in for an empty join. */
  function JoinedOr(lines: seq<string>, placeholder: string): string {
    var s := Join("\n", lines);
    if s == "" then placeholder else s
  }

  /** A heading that is one line starting at the margin, as every heading `build` writes is. */
  predicate IsHeading(h: string) {
    h != "" && SingleLine(h) && !IsIndentChar(h[0])
  }

  /** A bullet prefix: one line starting at the margin, so no bullet is blank. */
  predicate IsPrefix(p: string) {
    p != "" && SingleLine(p) && !IsIndentChar(p[0])
  }

  /** The placeholder is used exactly when there is no item. */
  lemma JoinedOrBullets(prefix: string, items: seq<string>, placeholder: string)
    requires prefix != ""
    ensures |items| == 0 ==> JoinedOr(Bullets(prefix, items), placeholder) == placeholder
    ensures |items| > 0 ==> JoinedOr(Bullets(prefix, items), placeholder) == Join("\n", Bullets(prefix, items))
  {
    if |items| > 0 {
      JoinNonEmpty(Bullets(prefix, items));
    }
  }

  lemma JoinNonEmpty(xs: seq<string>)
    requires |xs| >= 1 && xs[0] != ""
    ensures Join("\n", xs) != ""
  {
  }

  // ---------------------------------------------------------------------------
  // `_lines` of a section

  /** The "\n"-pieces of a section: the heading, an empty piece, the body's
      pieces and a final empty piece. */
  lemma SplitSection(h: string, b: string)
    requires '\n' !in h
    ensures Split(Section(h, b), '\n') == [h, ""] + Split(b, '\n') + [""]
  {
    assert Section(h, b) == h + ['\n'] + ['\n'] + b + ['\n'];
    SplitFramed(h, b, '\n');
  }

  lemma SplitFramed(a: string, b: string, sep: char)
    requires sep !in a
    ensures Split(a + [sep] + [sep] + b + [sep], sep) == [a, ""] + Split(b, sep) + [""]
  {
    Regroup(a + [sep] + [sep], b, [sep]);
    SplitTwoSeps(a, b + [sep], sep);
    SplitSnoc(b, sep);
    Regroup([a, ""], Split(b, sep), [""]);
  }


  lemma SplitTwoSeps(a: string, c: string, sep: char)
    requires sep !in a
    ensures Split(a + [sep] + [sep] + c, sep) == [a, ""] + Split(c, sep)
  {
    Regroup(a + [sep], [sep], c);
    SplitCons(a, sep, [sep] + c);
    assert [sep] + c == [] + [sep] + c;
    SplitCons([], sep, c);
    Regroup([a], [""], Split(c, sep));
  }

  lemma SectionBreaks(h: string, b: string)
    requires SingleLine(h) && OnlyNewlineBreaks(b)
    ensures OnlyNewlineBreaks(Section(h, b))
  {
    OnlyNewlineBreaksConcat(h, "\n\n");
    OnlyNewlineBreaksConcat(h + "\n\n", b);
    OnlyNewlineBreaksConcat(h + "\n\n" + b, "\n");
  }

  /** Emptying the blank pieces of a section's pieces. */
  lemma ClearSectionPieces(h: string, q: seq<string>)
    requires h != "" && !IsIndentChar(h[0])
    ensures DropFinalEmpty(ClearBlanks([h, ""] + q + [""])) == [h, ""] + ClearBlanks(q)
  {
    var c := ClearBlanks([h, ""] + q + [""]);
    assert c[0] == h by { assert !IsBlank(h); }
    assert c[..|c| - 1] == [h, ""] + ClearBlanks(q);
  }

  /** A section keeps its body's indentation, since its heading starts at the
      margin: its `_lines` are the heading, an empty line and the body's
      "\n"-pieces with the blank ones emptied. */
  lemma LinesOfSection(h: string, b: string)
    requires IsHeading(h) && OnlyNewlineBreaks(b)
    ensures Lines(Section(h, b)) == Terminate([h, ""] + ClearBlanks(Split(b, '\n')))
  {
    assert '\n' !in h by { assert SingleLine(h); }
    SectionBreaks(h, b);
    SplitSection(h, b);
    LinesAtMargin(Section(h, b));
    ClearSectionPieces(h, Split(b, '\n'));
  }

  /** Bullets of single-line items are single, non-blank lines. */
  lemma BulletLines(prefix: string, items: seq<string>)
    requires IsPrefix(prefix)
    requires forall k :: 0 <= k < |items| ==> SingleLine(items[k])
    ensures forall k :: 0 <= k < |items| ==>
      SingleLine(Bullets(prefix, items)[k]) && !IsBlank(Bullets(prefix, items)[k])
  {
    forall k | 0 <= k < |items| ensures SingleLine(prefix + items[k]) && !IsBlank(prefix + items[k]) {
      SingleLineConcat(prefix, items[k]);
      assert (prefix + items[k])[0] == prefix[0];
    }
  }

  /** Single, non-blank lines come back unchanged out of splitting their join
      and emptying the blank pieces. */
  lemma PiecesOfLines(xs: seq<string>)
    requires |xs| >= 1
    requires forall k :: 0 <= k < |xs| ==> SingleLine(xs[k]) && !IsBlank(xs[k])
    ensures OnlyNewlineBreaks(Join("\n", xs))
    ensures ClearBlanks(Split(Join("\n", xs), '\n')) == xs
  {
    OnlyNewlineBreaksJoin(xs);
    forall k | 0 <= k < |xs| ensures '\n' !in xs[k] {
      assert SingleLine(xs[k]);
    }
    SplitJoin(xs, '\n');
  }

  /** A section whose body is a bulleted list of single-line items: the
      heading, an empty line and one line per bullet, in order, or one empty
      line when there is no item. */
  lemma LinesOfBulletSection(h: string, prefix: string, items: seq<string>)
    requires IsHeading(h) && IsPrefix(prefix)
    requires forall k :: 0 <= k < |items| ==> SingleLine(items[k])
    ensures Lines(Section(h, Join("\n", Bullets(prefix, items))))
      == Terminate([h, ""] + (if |items| == 0 then [""] else Bullets(prefix, items)))
  {
    LinesOfNoBulletSection(h, prefix, items);
    LinesOfSomeBulletSection(h, prefix, items);
  }

  lemma LinesOfSomeBulletSection(h: string, prefix: string, items: seq<string>)
    requires IsHeading(h) && IsPrefix(prefix)
    requires forall k :: 0 <= k < |items| ==> SingleLine(items[k])
    ensures |items| > 0 ==>
      Lines(Section(h, Join("\n", Bullets(prefix, items)))) == Terminate([h, ""] + Bullets(prefix, items))
  {
    if |items| > 0 {
      BulletLines(prefix, items);
      LinesOfListSection(h, Bullets(prefix, items));
    }
  }

  lemma LinesOfNoBulletSection(h: string, prefix: string, items: seq<string>)
    requires IsHeading(h)
    ensures |items| == 0 ==> Lines(Section(h, Join("\n", Bullets(prefix, items)))) == Terminate([h, ""] + [""])
  {
    if |items| == 0 {
      assert Join("\n", Bullets(prefix, items)) == "";
      LinesOfEmptySection(h);
    }
  }

  /** A section whose body is single, non-blank lines: the heading, an empty line and those lines. */
  lemma LinesOfListSection(h: string, xs: seq<string>)
    requires IsHeading(h) && |xs| >= 1
    requires forall k :: 0 <= k < |xs| ==> SingleLine(xs[k]) && !IsBlank(xs[k])
    ensures Lines(Section(h, Join("\n", xs))) == Terminate([h, ""] + xs)
  {
    PiecesOfLines(xs);
    LinesOfSection(h, Join("\n", xs));
  }

  /** A section with an empty body: the heading and two empty lines. */
  lemma LinesOfEmptySection(h: string)
    requires IsHeading(h)
    ensures Lines(Section(h, "")) == Terminate([h, ""] + [""])
  {
    EmptyPieces();
    LinesOfSection(h, "");
  }

  /** The empty text is one empty piece, and it stays empty. */
  lemma EmptyPieces()
    ensures OnlyNewlineBreaks("") && ClearBlanks(Split("", '\n')) == [""]
  {
    assert Split("", '\n') == [""];
    assert ClearBlank("") == "";
  }

  /** The same section with a placeholder bullet for an empty list: the
      placeholder line stands where the bullets would be. */
  lemma LinesOfPlaceholderSection(h: string, prefix: string, items: seq<string>, placeholder: string)
    requires IsHeading(h) && IsPrefix(prefix) && IsPrefix(placeholder)
    requires forall k :: 0 <= k < |items| ==> SingleLine(items[k])
    ensures Lines(Section(h, JoinedOr(Bullets(prefix, items), placeholder)))
      == Terminate([h, ""] + (if |items| == 0 then [placeholder] else Bullets(prefix, items)))
  {
    JoinedOrBullets(prefix, items, placeholder);
    if |items| == 0 {
      PlaceholderPieces(placeholder);
      LinesOfSection(h, placeholder);
    } else {
      LinesOfBulletSection(h, prefix, items);
    }
  }

  lemma PlaceholderPieces(p: string)
    requires IsPrefix(p)
    ensures OnlyNewlineBreaks(p) && ClearBlanks(Split(p, '\n')) == [p]
  {
    assert '\n' !in p by { assert SingleLine(p); }
    SplitJoin([p], '\n');
    assert ClearBlank(p) == p by { assert !IsBlank(p); }
  }
}
