/** Python's `textwrap.dedent`: lines made only of spaces and tabs are emptied,
    and the longest run of spaces and tabs that every other line starts with
    (the margin) is removed from the start of those lines. Lines are the
    pieces of the text between "\n" characters; no other character breaks a
    line for `dedent`. */
module Textwrap {
  import opened PyStr
  import opened Optional

  /** The characters `dedent` treats as indentation. */
  predicate IsIndentChar(c: char) { c == ' ' || c == '\t' }

  /** A line with nothing but indentation, the empty line included. */
  predicate IsBlank(line: string) {
    forall i :: 0 <= i < |line| ==> IsIndentChar(line[i])
  }

  /** The indentation a line starts with. */
  function Indent(line: string): (r: string)
    ensures r <= line
    ensures IsBlank(r)
    ensures |r| < |line| ==> !IsIndentChar(line[|r|])
    decreases |line|
  {
    if |line| > 0 && IsIndentChar(line[0]) then [line[0]] + Indent(line[1..]) else []
  }

  /** Indentation put in front of a line adds to the line's indentation. */
  lemma {:induction false} IndentAfter(m: string, x: string)
    requires IsBlank(m)
    ensures Indent(m + x) == m + Indent(x)
    decreases |m|
  {
    if |m| > 0 {
      assert (m + x)[1..] == m[1..] + x;
      IndentAfter(m[1..], x);
      assert [m[0]] + (m[1..] + Indent(x)) == m + Indent(x);
    } else {
      assert m + x == x;
    }
  }

  /** The longest common prefix of two strings. */
  function CommonPrefix(a: string, b: string): (r: string)
    ensures r <= a && r <= b
    ensures |r| == |a| || |r| == |b| || a[|r|] != b[|r|]
    decreases |a|
  {
    if |a| > 0 && |b| > 0 && a[0] == b[0] then [a[0]] + CommonPrefix(a[1..], b[1..]) else []
  }

  /** Every common prefix is a prefix of the longest one. */
  lemma CommonPrefixGreatest(a: string, b: string, p: string)
    requires p <= a && p <= b
    ensures p <= CommonPrefix(a, b)
  {
    var r := CommonPrefix(a, b);
    assert |p| <= |r| by {
      if |p| > |r| {
        assert false;
      }
    }
    assert p == a[..|p|] && r == a[..|r|];
  }

  /** `p` is a prefix of the indentation of every non-blank line. */
  ghost predicate CommonIndent(lines: seq<string>, p: string) {
    forall k :: 0 <= k < |lines| && !IsBlank(lines[k]) ==> p <= Indent(lines[k])
  }

  /** The margin `dedent` computes: the indentations of the non-blank lines,
      taken from the first line to the last, narrowed to their common prefix;
      `None` when every line is blank. */
  function Margin(lines: seq<string>): (r: Option<string>)
    ensures r.None? <==> forall k :: 0 <= k < |lines| ==> IsBlank(lines[k])
    ensures r.Some? ==> IsBlank(r.value) && CommonIndent(lines, r.value)
    decreases |lines|
  {
    if |lines| == 0 then None
    else
      var last := lines[|lines| - 1];
      var m := Margin(lines[..|lines| - 1]);
      assert forall k :: 0 <= k < |lines| - 1 ==> lines[..|lines| - 1][k] == lines[k];
      if IsBlank(last) then m
      else match m
        case None => Some(Indent(last))
        case Some(v) =>
          var c := CommonPrefix(v, Indent(last));
          assert IsBlank(c) by { assert c == v[..|c|]; }
          assert forall k :: 0 <= k < |lines| && !IsBlank(lines[k]) ==> c <= v <= Indent(lines[k]) || k == |lines| - 1;
          Some(c)
  }

  /** No common prefix of the indentations is longer than the margin. */
  lemma {:induction false} MarginGreatest(lines: seq<string>, p: string)
    requires CommonIndent(lines, p)
    ensures Margin(lines).Some? ==> p <= Margin(lines).value
    decreases |lines|
  {
    if |lines| > 0 {
      var init := lines[..|lines| - 1];
      var last := lines[|lines| - 1];
      assert CommonIndent(init, p) by {
        assert forall k :: 0 <= k < |init| ==> init[k] == lines[k];
      }
      MarginGreatest(init, p);
      if !IsBlank(last) && Margin(init).Some? {
        CommonPrefixGreatest(Margin(init).value, Indent(last), p);
      }
    }
  }

  /** The margin is exactly `m` when `m` is common to all non-blank lines and is
      the whole indentation of one of them. */
  lemma MarginExact(lines: seq<string>, m: string, k: nat)
    requires CommonIndent(lines, m)
    requires k < |lines| && !IsBlank(lines[k]) && Indent(lines[k]) == m
    ensures Margin(lines) == Some(m)
  {
    MarginGreatest(lines, m);
    var r := Margin(lines);
    assert r.Some?;
    var v := r.value;
    assert v <= m by {
      assert CommonIndent(lines, v);
    }
    assert m <= v;
    assert v == m by {
      assert |v| == |m|;
      assert m == v[..|m|];
      assert v[..|v|] == v;
    }
    assert r == Some(m);
  }

  /** What `dedent` does to a line that consists only of indentation. */
  function ClearBlank(line: string): string {
    if IsBlank(line) then "" else line
  }

  /** Every blank line emptied. */
  function ClearBlanks(lines: seq<string>): (r: seq<string>)
    ensures |r| == |lines|
  {
    seq(|lines|, k requires 0 <= k < |lines| => ClearBlank(lines[k]))
  }

  /** Emptying blank lines changes no margin. */
  lemma CommonIndentCleared(lines: seq<string>, p: string)
    ensures CommonIndent(ClearBlanks(lines), p) <==> CommonIndent(lines, p)
  {
    var c := ClearBlanks(lines);
    assert forall k :: 0 <= k < |lines| ==> (IsBlank(c[k]) <==> IsBlank(lines[k]));
    assert forall k :: 0 <= k < |lines| && !IsBlank(lines[k]) ==> c[k] == lines[k];
  }

  /** `re.sub('(?m)^' + m, '', ...)` on one line. */
  function RemoveMargin(line: string, m: string): string {
    if m <= line then line[|m|..] else line
  }

  /** The margin `dedent` removes, "" when there is nothing to remove. */
  function DedentMargin(lines: seq<string>): (m: string)
    ensures IsBlank(m) && CommonIndent(lines, m)
  {
    var cleared := ClearBlanks(lines);
    match Margin(cleared)
    case Some(v) =>
      CommonIndentCleared(lines, v);
      v
    case None => ""
  }

  /** `dedent` on the lines of a text: blank lines become empty and every other
      line loses the common margin. */
  function DedentLines(lines: seq<string>): (r: seq<string>)
    ensures |r| == |lines|
    ensures forall k :: 0 <= k < |lines| && IsBlank(lines[k]) ==> r[k] == ""
    ensures forall k :: 0 <= k < |lines| && !IsBlank(lines[k]) ==>
      lines[k] == DedentMargin(lines) + r[k] && !IsBlank(r[k])
  {
    var cleared := ClearBlanks(lines);
    var m := DedentMargin(lines);
    var r := if m != "" then seq(|lines|, k requires 0 <= k < |lines| => RemoveMargin(cleared[k], m)) else cleared;
    assert forall k :: 0 <= k < |lines| && !IsBlank(lines[k]) ==> lines[k] == m + r[k] && !IsBlank(r[k]) by {
      forall k | 0 <= k < |lines| && !IsBlank(lines[k])
        ensures lines[k] == m + r[k] && !IsBlank(r[k])
      {
        PeelMargin(lines[k], m);
        assert cleared[k] == lines[k];
      }
    }
    r
  }

  /** Removing a margin that prefixes a non-blank line's indentation leaves a non-blank line. */
  lemma PeelMargin(line: string, m: string)
    requires !IsBlank(line) && m <= Indent(line)
    ensures m <= line && line == m + line[|m|..] && !IsBlank(line[|m|..])
  {
    var ind := Indent(line);
    var i := |ind|;
    assert i < |line| by {
      if i == |line| {
        assert false;
      }
    }
    assert !IsIndentChar(line[i]);
    assert ind == line[..i];
    assert m == line[..|m|];
    assert line[|m|..][i - |m|] == line[i];
  }

  /** `textwrap.dedent(s)`. */
  function Dedent(s: string): string {
    Join("\n", DedentLines(Split(s, '\n')))
  }

  /** A dedented text has as many lines as the original, line for line: blank
      lines are emptied, and all other lines lose one common margin. */
  lemma DedentLineByLine(s: string)
    ensures var before := Split(s, '\n');
      var after := Split(Dedent(s), '\n');
      && |after| == |before|
      && (forall k :: 0 <= k < |before| && IsBlank(before[k]) ==> after[k] == "")
      && (forall k :: 0 <= k < |before| && !IsBlank(before[k]) ==> before[k] == DedentMargin(before) + after[k])
  {
    var before := Split(s, '\n');
    DedentLinesNoNewline(before);
    SplitJoin(DedentLines(before), '\n');
  }

  /** Lines without "\n" stay without "\n" once dedented. */
  lemma DedentLinesNoNewline(lines: seq<string>)
    requires forall k :: 0 <= k < |lines| ==> '\n' !in lines[k]
    ensures forall k :: 0 <= k < |lines| ==> '\n' !in DedentLines(lines)[k]
  {
    var r := DedentLines(lines);
    var m := DedentMargin(lines);
    forall k | 0 <= k < |r| ensures '\n' !in r[k] {
      if !IsBlank(lines[k]) {
        assert forall j :: 0 <= j < |r[k]| ==> r[k][j] == lines[k][|m| + j];
      }
    }
  }

  /** The dedented lines have no common margin left. */
  lemma NoMarginLeft(lines: seq<string>)
    ensures DedentMargin(DedentLines(lines)) == ""
  {
    var r := DedentLines(lines);
    var m := DedentMargin(lines);
    var m2 := DedentMargin(r);
    if m2 != "" {
      // m + m2 would be a longer common margin of the original lines
      var k0 := SomeLineLeft(lines);
      CommonIndentAdds(lines, r, m, m2);
      MarginBound(lines, m + m2, k0);
      assert false;
    }
  }

  /** When the dedented lines still have a margin, some line is not blank. */
  lemma SomeLineLeft(lines: seq<string>) returns (k0: nat)
    requires DedentMargin(DedentLines(lines)) != ""
    ensures k0 < |lines| && !IsBlank(lines[k0])
  {
    var r := DedentLines(lines);
    var cr := ClearBlanks(r);
    assert Margin(cr).Some?;
    k0 :| 0 <= k0 < |cr| && !IsBlank(cr[k0]);
    assert cr[k0] == ClearBlank(r[k0]);
  }

  /** A margin common to the dedented lines, after the margin removed, is common to the lines. */
  lemma CommonIndentAdds(lines: seq<string>, r: seq<string>, m: string, m2: string)
    requires |r| == |lines| && IsBlank(m) && CommonIndent(r, m2)
    requires forall k :: 0 <= k < |lines| && !IsBlank(lines[k]) ==> lines[k] == m + r[k] && !IsBlank(r[k])
    ensures CommonIndent(lines, m + m2)
  {
    forall k | 0 <= k < |lines| && !IsBlank(lines[k]) ensures m + m2 <= Indent(lines[k]) {
      IndentAfter(m, r[k]);
    }
  }

  /** A prefix of every non-blank line's indentation, with one such line, is a prefix of the margin. */
  lemma MarginBound(lines: seq<string>, p: string, k0: nat)
    requires CommonIndent(lines, p) && k0 < |lines| && !IsBlank(lines[k0])
    ensures p <= DedentMargin(lines)
  {
    var cleared := ClearBlanks(lines);
    assert !IsBlank(cleared[k0]);
    CommonIndentCleared(lines, p);
    MarginGreatest(cleared, p);
  }

  /** `dedent` introduces no line break other than "\n". */
  lemma DedentKeepsBreaks(s: string)
    requires OnlyNewlineBreaks(s)
    ensures OnlyNewlineBreaks(Dedent(s))
  {
    var before := Split(s, '\n');
    var r := DedentLines(before);
    var m := DedentMargin(before);
    OnlyNewlineBreaksJoin(before);
    forall k | 0 <= k < |r| ensures OnlyNewlineBreaks(r[k]) {
      if !IsBlank(before[k]) {
        OnlyNewlineBreaksConcat(m, r[k]);
      }
    }
    OnlyNewlineBreaksJoin(r);
  }

  /** Once dedented, the lines have no margin left: `dedent` is idempotent. */
  lemma DedentIdempotent(s: string)
    ensures Dedent(Dedent(s)) == Dedent(s)
  {
    var before := Split(s, '\n');
    var r := DedentLines(before);
    DedentLinesNoNewline(before);
    SplitJoin(r, '\n');
    assert Split(Dedent(s), '\n') == r;
    NoMarginLeft(before);
    assert DedentLines(r) == r by {
      forall k | 0 <= k < |r| ensures DedentLines(r)[k] == r[k] {
        if IsBlank(r[k]) {
          assert IsBlank(before[k]);
        }
      }
    }
  }

  /** The margin of lines whose non-blank lines all start with `m`, one of them
      with no more indentation than `m`, is `m`. */
  lemma DedentMarginExact(lines: seq<string>, m: string, k: nat)
    requires forall j :: 0 <= j < |lines| && !IsBlank(lines[j]) ==> m <= Indent(lines[j])
    requires k < |lines| && !IsBlank(lines[k]) && Indent(lines[k]) == m
    ensures DedentMargin(lines) == m
  {
    var cleared := ClearBlanks(lines);
    CommonIndentCleared(lines, m);
    assert cleared[k] == lines[k];
    MarginExact(cleared, m, k);
  }
}
