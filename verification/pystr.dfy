/** The small part of Python's `str` that the notebook builder relies on:
    `isspace`, `strip`, `lstrip("\n")`, `split("\n")`, `"\n".join`, `"".join`,
    `splitlines()` and decimal formatting of a natural number. Dafny strings
    are sequences of Unicode scalar values, as Python strings are sequences of
    code points. */
module PyStr {

  /** `str.isspace()` on one character: the characters Python treats as whitespace. */
  predicate IsSpace(c: char) {
    || ('\t' <= c <= '\r')
    || ('\U{1C}' <= c <= ' ')
    || c == '\U{85}' || c == '\U{A0}' || c == '\U{1680}'
    || ('\U{2000}' <= c <= '\U{200A}')
    || c == '\U{2028}' || c == '\U{2029}' || c == '\U{202F}' || c == '\U{205F}' || c == '\U{3000}'
  }

  /** The characters at which `str.splitlines()` breaks a line ("\r\n" counts as one break). */
  predicate IsLineBoundary(c: char) {
    || ('\n' <= c <= '\r')
    || ('\U{1C}' <= c <= '\U{1E}')
    || c == '\U{85}' || c == '\U{2028}' || c == '\U{2029}'
  }

  /** A string that `splitlines()` leaves in one piece. */
  predicate SingleLine(s: string) {
    forall i :: 0 <= i < |s| ==> !IsLineBoundary(s[i])
  }

  /** A string whose only line boundaries are "\n". */
  predicate OnlyNewlineBreaks(s: string) {
    forall i :: 0 <= i < |s| ==> IsLineBoundary(s[i]) ==> s[i] == '\n'
  }

  lemma SingleLineConcat(a: string, b: string)
    requires SingleLine(a) && SingleLine(b)
    ensures SingleLine(a + b)
  {
    forall i | 0 <= i < |a + b| ensures !IsLineBoundary((a + b)[i]) {
      if i >= |a| { assert (a + b)[i] == b[i - |a|]; }
    }
  }

  /** Line breaks other than "\n" are absent from a concatenation exactly when absent from both parts. */
  lemma OnlyNewlineBreaksConcat(a: string, b: string)
    ensures OnlyNewlineBreaks(a + b) <==> OnlyNewlineBreaks(a) && OnlyNewlineBreaks(b)
  {
    if OnlyNewlineBreaks(a + b) {
      forall i | 0 <= i < |b| ensures IsLineBoundary(b[i]) ==> b[i] == '\n' {
        assert b[i] == (a + b)[|a| + i];
      }
      forall i | 0 <= i < |a| ensures IsLineBoundary(a[i]) ==> a[i] == '\n' {
        assert a[i] == (a + b)[i];
      }
    }
    if OnlyNewlineBreaks(a) && OnlyNewlineBreaks(b) {
      forall i | 0 <= i < |a + b| ensures IsLineBoundary((a + b)[i]) ==> (a + b)[i] == '\n' {
        if i >= |a| { assert (a + b)[i] == b[i - |a|]; }
      }
    }
  }

  // ---------------------------------------------------------------------------
  // strip

  /** `s.lstrip()`: drops the leading whitespace. */
  function LStrip(s: string): (r: string)
    ensures |r| <= |s| && r == s[|s| - |r|..]
    ensures r == [] || !IsSpace(r[0])
    ensures forall i :: 0 <= i < |s| - |r| ==> IsSpace(s[i])
    decreases |s|
  {
    if |s| > 0 && IsSpace(s[0]) then LStrip(s[1..]) else s
  }

  /** `s.rstrip()`: drops the trailing whitespace. */
  function RStrip(s: string): (r: string)
    ensures |r| <= |s| && r == s[..|r|]
    ensures r == [] || !IsSpace(r[|r| - 1])
    ensures forall i :: |r| <= i < |s| ==> IsSpace(s[i])
    decreases |s|
  {
    if |s| > 0 && IsSpace(s[|s| - 1]) then RStrip(s[..|s| - 1]) else s
  }

  /** `s.strip()`: the text between the leading and the trailing whitespace. */
  function Strip(s: string): (r: string)
    ensures r == [] <==> forall i :: 0 <= i < |s| ==> IsSpace(s[i])
    ensures r != [] ==> !IsSpace(r[0]) && !IsSpace(r[|r| - 1])
  {
    RStrip(LStrip(s))
  }

  /** `strip` keeps a contiguous middle of the text and drops only whitespace
      on either side of it. */
  lemma StripSlice(s: string)
    ensures exists i, j ::
      (0 <= i <= j <= |s| && Strip(s) == s[i..j] &&
       (forall k :: 0 <= k < i ==> IsSpace(s[k])) &&
       (forall k :: j <= k < |s| ==> IsSpace(s[k])))
  {
    var i, j := StripBounds(s);
  }

  /** Where the middle `strip` keeps begins and ends. */
  lemma StripBounds(s: string) returns (i: nat, j: nat)
    ensures i <= j <= |s| && Strip(s) == s[i..j]
    ensures forall k :: 0 <= k < i ==> IsSpace(s[k])
    ensures forall k :: j <= k < |s| ==> IsSpace(s[k])
  {
    var l := LStrip(s);
    var r := RStrip(l);
    i := |s| - |l|;
    j := i + |r|;
    StripMiddle(s, l, r, i);
    StripTrailing(s, l, r, i, j);
  }

  lemma StripMiddle(s: string, l: string, r: string, i: nat)
    requires l == LStrip(s) && r == RStrip(l) && i == |s| - |l|
    ensures i + |r| <= |s| && Strip(s) == s[i..i + |r|]
  {
    SliceOfSuffix(s, l, r, i);
    assert Strip(s) == r;
  }

  /** A prefix of a suffix is a slice. */
  lemma SliceOfSuffix<T>(s: seq<T>, l: seq<T>, r: seq<T>, i: nat)
    requires i <= |s| && l == s[i..] && |r| <= |l| && r == l[..|r|]
    ensures r == s[i..i + |r|]
  {
  }

  lemma StripTrailing(s: string, l: string, r: string, i: nat, j: nat)
    requires l == LStrip(s) && r == RStrip(l) && i == |s| - |l| && j == i + |r|
    ensures forall k :: j <= k < |s| ==> IsSpace(s[k])
  {
    forall k | j <= k < |s| ensures IsSpace(s[k]) {
      assert s[k] == l[k - i];
    }
  }

  /** Stripping whitespace keeps a text free of line breaks other than "\n". */
  lemma StripKeepsBreaks(s: string)
    requires OnlyNewlineBreaks(s)
    ensures OnlyNewlineBreaks(Strip(s))
  {
    var l := LStrip(s);
    OnlyNewlineBreaksSuffix(s, |s| - |l|);
    OnlyNewlineBreaksPrefix(l, |RStrip(l)|);
  }

  /** `s.lstrip(c)` for one character `c`. */
  function LStripChar(s: string, c: char): (r: string)
    ensures |r| <= |s| && r == s[|s| - |r|..]
    ensures r == [] || r[0] != c
    ensures forall i :: 0 <= i < |s| - |r| ==> s[i] == c
    decreases |s|
  {
    if |s| > 0 && s[0] == c then LStripChar(s[1..], c) else s
  }

  // ---------------------------------------------------------------------------
  // join and split

  /** `sep.join(xs)`. */
  function Join(sep: string, xs: seq<string>): string
    decreases |xs|
  {
    if |xs| == 0 then ""
    else if |xs| == 1 then xs[0]
    else xs[0] + sep + Join(sep, xs[1..])
  }

  /** `"".join(xs)`. */
  function Concat(xs: seq<string>): string
    decreases |xs|
  {
    if |xs| == 0 then "" else xs[0] + Concat(xs[1..])
  }

  /** Every line with a "\n" appended, as `[line + "\n" for line in xs]`. */
  function Terminate(xs: seq<string>): (r: seq<string>)
    ensures |r| == |xs|
    ensures forall k :: 0 <= k < |xs| ==> |r[k]| == |xs[k]| + 1 && r[k][..|xs[k]|] == xs[k] && r[k][|xs[k]|] == '\n'
  {
    seq(|xs|, k requires 0 <= k < |xs| => xs[k] + "\n")
  }

  /** The text whose lines, each ended by "\n", are `xs`. */
  function Unlines(xs: seq<string>): string
    decreases |xs|
  {
    if |xs| == 0 then "" else xs[0] + "\n" + Unlines(xs[1..])
  }

  /** The part of a text before some position keeps the text's line breaks. */
  lemma OnlyNewlineBreaksPrefix(s: string, i: nat)
    requires OnlyNewlineBreaks(s) && i <= |s|
    ensures OnlyNewlineBreaks(s[..i])
  {
    forall j | 0 <= j < i ensures IsLineBoundary(s[..i][j]) ==> s[..i][j] == '\n' {
      assert s[..i][j] == s[j];
    }
  }

  /** The part of a text after some prefix keeps the text's line breaks. */
  lemma OnlyNewlineBreaksSuffix(s: string, i: nat)
    requires OnlyNewlineBreaks(s) && i <= |s|
    ensures OnlyNewlineBreaks(s[i..])
  {
    assert s == s[..i] + s[i..];
    OnlyNewlineBreaksConcat(s[..i], s[i..]);
  }

  /** The position of the first `c` in `s`, or `|s|` when there is none. */
  function IndexOf(s: string, c: char): (i: nat)
    ensures i <= |s|
    ensures forall j :: 0 <= j < i ==> s[j] != c
    ensures i < |s| ==> s[i] == c
    decreases |s|
  {
    if |s| == 0 || s[0] == c then 0 else 1 + IndexOf(s[1..], c)
  }

  /** `s.split(sep)` for a one-character separator: the pieces between the separators. */
  function Split(s: string, sep: char): (r: seq<string>)
    ensures |r| >= 1
    ensures forall k :: 0 <= k < |r| ==> sep !in r[k]
    ensures Join([sep], r) == s
    decreases |s|
  {
    var i := IndexOf(s, sep);
    if i == |s| then [s]
    else
      var rest := Split(s[i + 1..], sep);
      assert ([s[..i]] + rest)[1..] == rest;
      assert s == s[..i] + [sep] + s[i + 1..];
      [s[..i]] + rest
  }

  /** Splitting the join of separator-free pieces gives the pieces back. */
  lemma {:induction false} SplitJoin(xs: seq<string>, sep: char)
    requires |xs| >= 1
    requires forall k :: 0 <= k < |xs| ==> sep !in xs[k]
    ensures Split(Join([sep], xs), sep) == xs
    decreases |xs|
  {
    if |xs| == 1 {
      assert IndexOf(xs[0], sep) == |xs[0]|;
    } else {
      assert Join([sep], xs) == xs[0] + [sep] + Join([sep], xs[1..]);
      SplitCons(xs[0], sep, Join([sep], xs[1..]));
      SplitJoin(xs[1..], sep);
      assert [xs[0]] + xs[1..] == xs;
    }
  }

  /** A "\n"-join has no other line break exactly when none of its parts has one. */
  lemma {:induction false} OnlyNewlineBreaksJoin(xs: seq<string>)
    ensures OnlyNewlineBreaks(Join("\n", xs)) <==> forall k :: 0 <= k < |xs| ==> OnlyNewlineBreaks(xs[k])
    decreases |xs|
  {
    if |xs| > 1 {
      OnlyNewlineBreaksJoin(xs[1..]);
      OnlyNewlineBreaksConcat(xs[0] + "\n", Join("\n", xs[1..]));
      OnlyNewlineBreaksConcat(xs[0], "\n");
      assert forall k :: 1 <= k < |xs| ==> xs[k] == xs[1..][k - 1];
    }
  }

  /** Every character of `s` is in `allowed`. */
  predicate AllIn(s: string, allowed: set<char>) {
    forall i :: 0 <= i < |s| ==> s[i] in allowed
  }

  lemma AllInConcat(a: string, b: string, allowed: set<char>)
    ensures AllIn(a + b, allowed) <==> AllIn(a, allowed) && AllIn(b, allowed)
  {
    if AllIn(a + b, allowed) {
      forall i | 0 <= i < |b| ensures b[i] in allowed { assert b[i] == (a + b)[|a| + i]; }
      forall i | 0 <= i < |a| ensures a[i] in allowed { assert a[i] == (a + b)[i]; }
    }
  }

  /** The pieces of a join use no character the whole does not use. */
  lemma {:induction false} AllInJoinPieces(sep: string, xs: seq<string>, allowed: set<char>)
    requires AllIn(Join(sep, xs), allowed)
    ensures forall k :: 0 <= k < |xs| ==> AllIn(xs[k], allowed)
    decreases |xs|
  {
    if |xs| > 1 {
      AllInConcat(xs[0] + sep, Join(sep, xs[1..]), allowed);
      AllInConcat(xs[0], sep, allowed);
      AllInJoinPieces(sep, xs[1..], allowed);
      assert forall k :: 1 <= k < |xs| ==> xs[k] == xs[1..][k - 1];
    }
  }

  /** Joining empty strings with "\n" gives nothing but "\n" characters. */
  lemma {:induction false} JoinOfEmpties(xs: seq<string>)
    requires forall k :: 0 <= k < |xs| ==> xs[k] == ""
    ensures AllIn(Join("\n", xs), {'\n'})
    decreases |xs|
  {
    if |xs| > 1 {
      JoinOfEmpties(xs[1..]);
      AllInConcat(xs[0] + "\n", Join("\n", xs[1..]), {'\n'});
      assert xs[0] + "\n" == "\n";
    }
  }

  /** Joining one more piece onto a non-empty list. */
  lemma {:induction false} JoinSnoc(sep: string, xs: seq<string>, x: string)
    requires |xs| >= 1
    ensures Join(sep, xs + [x]) == Join(sep, xs) + sep + x
    decreases |xs|
  {
    if |xs| > 1 {
      assert (xs + [x])[1..] == xs[1..] + [x];
      JoinSnoc(sep, xs[1..], x);
    }
  }

  /** A text ended by the separator splits into its pieces and one more, empty, piece. */
  lemma SplitSnoc(b: string, sep: char)
    ensures Split(b + [sep], sep) == Split(b, sep) + [""]
  {
    var xs := Split(b, sep) + [""];
    JoinSnoc([sep], Split(b, sep), "");
    assert Join([sep], xs) == b + [sep];
    SplitJoin(xs, sep);
  }

  /** Splitting at the first separator. */
  lemma SplitCons(a: string, sep: char, b: string)
    requires sep !in a
    ensures Split(a + [sep] + b, sep) == [a] + Split(b, sep)
  {
    var s := a + [sep] + b;
    assert s[|a|] == sep;
    assert IndexOf(s, sep) == |a|;
    assert s[..|a|] == a;
    assert s[|a| + 1..] == b;
  }

  /** Splitting at one separator splits each side of it on its own. */
  lemma {:induction false} SplitAppend(a: string, b: string, sep: char)
    ensures Split(a + [sep] + b, sep) == Split(a, sep) + Split(b, sep)
    decreases |a|
  {
    var i := IndexOf(a, sep);
    if i == |a| {
      assert Split(a, sep) == [a];
      SplitCons(a, sep, b);
    } else {
      var a0, a1 := a[..i], a[i + 1..];
      assert a == a0 + [sep] + a1;
      SplitCons(a0, sep, a1);
      Regroup(a0 + [sep], a1, [sep] + b);
      Regroup(a, [sep], b);
      Regroup(a0 + [sep], a1 + [sep], b);
      Regroup(a1, [sep], b);
      SplitCons(a0, sep, a1 + [sep] + b);
      SplitAppend(a1, b, sep);
      Regroup([a0], Split(a1, sep), Split(b, sep));
    }
  }

  /** Splitting a middle text with a separator on each side of it. */
  lemma SplitAround(x: string, mid: string, y: string, sep: char)
    ensures Split(x + [sep] + mid + [sep] + y, sep) == Split(x, sep) + Split(mid, sep) + Split(y, sep)
  {
    Regroup(x + [sep], mid + [sep], y);
    Regroup(x + [sep], mid, [sep]);
    SplitAppend(x, mid + [sep] + y, sep);
    SplitAppend(mid, y, sep);
    Regroup(Split(x, sep), Split(mid, sep), Split(y, sep));
  }

  lemma Regroup<T>(x: seq<T>, y: seq<T>, z: seq<T>)
    ensures x + (y + z) == x + y + z
  {
  }

  /** A text of lines ended by "\n" is the "\n"-join of those lines and one more, empty, piece. */
  lemma {:induction false} UnlinesIsJoin(xs: seq<string>)
    ensures Unlines(xs) == Join("\n", xs + [""])
    decreases |xs|
  {
    if |xs| == 0 {
    } else {
      UnlinesIsJoin(xs[1..]);
      assert (xs + [""])[1..] == xs[1..] + [""];
    }
  }

  /** The text of single lines splits at "\n" into those lines and a final empty piece. */
  lemma SplitUnlines(xs: seq<string>)
    requires forall k :: 0 <= k < |xs| ==> SingleLine(xs[k])
    ensures Split(Unlines(xs), '\n') == xs + [""]
  {
    var pieces := xs + [""];
    UnlinesIsJoin(xs);
    forall k | 0 <= k < |pieces| ensures '\n' !in pieces[k] {
      if k < |xs| {
        assert SingleLine(xs[k]);
        assert pieces[k] == xs[k];
      }
    }
    SplitJoin(pieces, '\n');
  }

  /** The text of at least one line ends with "\n". */
  lemma UnlinesEnd(xs: seq<string>)
    requires |xs| >= 1
    ensures |Unlines(xs)| >= 1 && Unlines(xs)[|Unlines(xs)| - 1] == '\n'
  {
    JoinThenNewline(xs);
  }

  /** Appending "\n" to the "\n"-join of at least one line gives the text of those lines. */
  lemma {:induction false} JoinThenNewline(xs: seq<string>)
    requires |xs| >= 1
    ensures Join("\n", xs) + "\n" == Unlines(xs)
    decreases |xs|
  {
    if |xs| > 1 {
      JoinThenNewline(xs[1..]);
    }
  }

  /** The text of lines is their concatenation once each is terminated. */
  lemma {:induction false} UnlinesIsConcat(xs: seq<string>)
    ensures Unlines(xs) == Concat(Terminate(xs))
    decreases |xs|
  {
    if |xs| > 0 {
      UnlinesIsConcat(xs[1..]);
      assert Terminate(xs)[1..] == Terminate(xs[1..]);
    }
  }

  // ---------------------------------------------------------------------------
  // splitlines

  /** The position of the first line boundary in `s`, or `|s|` when there is none. */
  function FirstBreak(s: string): (i: nat)
    ensures i <= |s|
    ensures forall j :: 0 <= j < i ==> !IsLineBoundary(s[j])
    ensures i < |s| ==> IsLineBoundary(s[i])
    decreases |s|
  {
    if |s| == 0 || IsLineBoundary(s[0]) then 0 else 1 + FirstBreak(s[1..])
  }

  /** The position just after the line boundary at `i`; "\r\n" is one boundary. */
  function BreakEnd(s: string, i: nat): (e: nat)
    requires i < |s|
    ensures i < e <= |s|
  {
    if s[i] == '\r' && i + 1 < |s| && s[i + 1] == '\n' then i + 2 else i + 1
  }

  /** `s.splitlines()`: the lines of `s` without their boundaries; a final
      boundary does not start an extra, empty line. */
  function SplitLines(s: string): (r: seq<string>)
    ensures forall k :: 0 <= k < |r| ==> SingleLine(r[k])
    ensures r == [] <==> s == []
    decreases |s|
  {
    if |s| == 0 then []
    else
      var i := FirstBreak(s);
      if i == |s| then [s] else [s[..i]] + SplitLines(s[BreakEnd(s, i)..])
  }

  /** Lines without boundaries come back out of their text unchanged. */
  lemma {:induction false} SplitLinesUnlines(xs: seq<string>)
    requires forall k :: 0 <= k < |xs| ==> SingleLine(xs[k])
    ensures SplitLines(Unlines(xs)) == xs
    decreases |xs|
  {
    if |xs| > 0 {
      var s := Unlines(xs);
      var n := |xs[0]|;
      assert s == xs[0] + ("\n" + Unlines(xs[1..]));
      assert s[n] == '\n';
      assert forall j :: 0 <= j < n ==> s[j] == xs[0][j];
      assert FirstBreak(s) == n;
      assert BreakEnd(s, n) == n + 1;
      assert s[..n] == xs[0];
      assert s[n + 1..] == Unlines(xs[1..]);
      SplitLinesUnlines(xs[1..]);
      assert [xs[0]] + xs[1..] == xs;
    }
  }

  /** A text that ends with "\n" and breaks lines only at "\n" is the text of its own lines. */
  lemma {:induction false} UnlinesSplitLines(s: string)
    requires OnlyNewlineBreaks(s)
    requires s == [] || s[|s| - 1] == '\n'
    ensures Unlines(SplitLines(s)) == s
    decreases |s|
  {
    if |s| > 0 {
      var i := FirstBreak(s);
      assert i < |s| && s[i] == '\n' by {
        assert IsLineBoundary(s[|s| - 1]);
      }
      OnlyNewlineBreaksSuffix(s, i + 1);
      UnlinesSplitLines(s[i + 1..]);
      SplitLinesAt(s, i);
      UnlinesSplitLinesStep(s, i);
    }
  }

  /** The lines of a text whose first break is a "\n" at `i`. */
  lemma SplitLinesAt(s: string, i: nat)
    requires i == FirstBreak(s) && i < |s| && s[i] == '\n'
    ensures SplitLines(s) == [s[..i]] + SplitLines(s[i + 1..])
  {
    assert BreakEnd(s, i) == i + 1;
  }

  /** One step of the above: the first line, its "\n", and the rest. */
  lemma UnlinesSplitLinesStep(s: string, i: nat)
    requires i < |s| && s[i] == '\n'
    requires SplitLines(s) == [s[..i]] + SplitLines(s[i + 1..])
    requires Unlines(SplitLines(s[i + 1..])) == s[i + 1..]
    ensures Unlines(SplitLines(s)) == s
  {
    UnlinesCons(s[..i], SplitLines(s[i + 1..]));
    NewlineSplit(s, i);
  }

  lemma NewlineSplit(s: string, i: nat)
    requires i < |s| && s[i] == '\n'
    ensures s == s[..i] + "\n" + s[i + 1..]
  {
  }

  lemma UnlinesCons(x: string, ys: seq<string>)
    ensures Unlines([x] + ys) == x + "\n" + Unlines(ys)
  {
    assert ([x] + ys)[1..] == ys;
  }

  // ---------------------------------------------------------------------------
  // decimal numbers

  predicate IsDigit(c: char) { '0' <= c <= '9' }

  /** The value of a string of decimal digits. */
  function DigitsValue(s: string): nat
    requires forall i :: 0 <= i < |s| ==> IsDigit(s[i])
    decreases |s|
  {
    if |s| == 0 then 0
    else
      assert IsDigit(s[|s| - 1]);
      DigitsValue(s[..|s| - 1]) * 10 + (s[|s| - 1] as int - '0' as int)
  }

  /** `str(n)` for a natural number: its decimal digits without leading zeros. */
  function Itoa(n: nat): (r: string)
    ensures |r| >= 1
    ensures forall i :: 0 <= i < |r| ==> IsDigit(r[i])
    ensures DigitsValue(r) == n
    ensures r[0] == '0' ==> n == 0
    decreases n
  {
    var d := ['0' + (n % 10) as char];
    if n < 10 then d
    else
      var r := Itoa(n / 10) + d;
      assert r[..|r| - 1] == Itoa(n / 10);
      r
  }

  lemma ItoaSingleLine(n: nat)
    ensures SingleLine(Itoa(n))
  {
  }
}
