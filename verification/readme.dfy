/** The pure part of `write_readme` (tools/nb_utils.py, lines 136-150): the
    notebook file names, sorted in Python's string order, listed one bullet
    per name after a fixed header. Listing the directory and writing the
    file are left to the caller. */
module NbReadme {
  import opened PyStr

  // ---------------------------------------------------------------------------
  // Python's string order

  /** `a <= b` on Python strings: code point by code point, a proper prefix first. */
  predicate LexLe(a: string, b: string)
    decreases |a|
  {
    |a| == 0 || (|b| > 0 && (a[0] < b[0] || (a[0] == b[0] && LexLe(a[1..], b[1..]))))
  }

  lemma {:induction false} LexLeRefl(a: string)
    ensures LexLe(a, a)
    decreases |a|
  {
    if |a| > 0 {
      LexLeRefl(a[1..]);
    }
  }

  /** Any two strings are ordered one way or the other. */
  lemma {:induction false} LexLeTotal(a: string, b: string)
    ensures LexLe(a, b) || LexLe(b, a)
    decreases |a|
  {
    if |a| > 0 && |b| > 0 && a[0] == b[0] {
      LexLeTotal(a[1..], b[1..]);
    }
  }

  lemma {:induction false} LexLeTrans(a: string, b: string, c: string)
    requires LexLe(a, b) && LexLe(b, c)
    ensures LexLe(a, c)
    decreases |a|
  {
    if |a| > 0 && a[0] == b[0] && b[0] == c[0] {
      LexLeTrans(a[1..], b[1..], c[1..]);
    }
  }

  /** Strings ordered both ways are equal, so sorting leaves no choice. */
  lemma {:induction false} LexLeAntisym(a: string, b: string)
    requires LexLe(a, b) && LexLe(b, a)
    ensures a == b
    decreases |a|
  {
    if |a| > 0 {
      LexLeAntisym(a[1..], b[1..]);
      assert a == [a[0]] + a[1..];
      assert b == [b[0]] + b[1..];
    }
  }

  predicate Sorted(xs: seq<string>) {
    forall i, j :: 0 <= i < j < |xs| ==> LexLe(xs[i], xs[j])
  }

  // ---------------------------------------------------------------------------
  // `sorted(names)`

  /** `x` put into sorted `xs` in front of the first element not below it. */
  function Insert(x: string, xs: seq<string>): (r: seq<string>)
    requires Sorted(xs)
    ensures multiset(r) == multiset(xs) + multiset{x}
    ensures Sorted(r)
    decreases |xs|
  {
    if |xs| == 0 then [x]
    else if LexLe(x, xs[0]) then
      InsertFront(x, xs);
      [x] + xs
    else
      var rest := Insert(x, xs[1..]);
      InsertBehind(x, xs, rest);
      assert xs == [xs[0]] + xs[1..];
      [xs[0]] + rest
  }

  lemma InsertFront(x: string, xs: seq<string>)
    requires Sorted(xs) && |xs| > 0 && LexLe(x, xs[0])
    ensures Sorted([x] + xs)
  {
    forall k | 0 <= k < |xs| ensures LexLe(x, xs[k]) {
      if k > 0 {
        LexLeTrans(x, xs[0], xs[k]);
      }
    }
  }

  lemma InsertBehind(x: string, xs: seq<string>, rest: seq<string>)
    requires Sorted(xs) && |xs| > 0 && !LexLe(x, xs[0])
    requires Sorted(rest) && multiset(rest) == multiset(xs[1..]) + multiset{x}
    ensures Sorted([xs[0]] + rest)
  {
    LexLeTotal(x, xs[0]);
    forall k | 0 <= k < |rest| ensures LexLe(xs[0], rest[k]) {
      assert rest[k] in multiset(rest);
      if rest[k] != x {
        assert rest[k] in multiset(xs[1..]);
        var j :| 0 <= j < |xs[1..]| && xs[1..][j] == rest[k];
        assert xs[j + 1] == rest[k];
      }
    }
  }

  /** `sorted(names)`: the names in ascending order, each as often as given. */
  function SortNames(names: seq<string>): (r: seq<string>)
    ensures Sorted(r) && multiset(r) == multiset(names)
    ensures |r| == |names|
    decreases |names|
  {
    if |names| == 0 then []
    else
      assert names == [names[0]] + names[1..];
      Insert(names[0], SortNames(names[1..]))
  }

  /** Two sorted sequences with the same elements are the same sequence: any
      correct sort of the names gives the listing `SortNames` gives. */
  lemma {:induction false} SortedUnique(a: seq<string>, b: seq<string>)
    requires Sorted(a) && Sorted(b) && multiset(a) == multiset(b)
    ensures a == b
    decreases |a|
  {
    if |a| == 0 {
      assert |multiset(b)| == 0;
    } else {
      assert |b| > 0 by {
        assert a[0] in multiset(b);
      }
      SortedHeads(a, b);
      SameTails(a, b);
      SortedUnique(a[1..], b[1..]);
    }
  }

  /** Sorted sequences with the same elements start with the same element. */
  lemma SortedHeads(a: seq<string>, b: seq<string>)
    requires Sorted(a) && Sorted(b) && multiset(a) == multiset(b) && |a| > 0 && |b| > 0
    ensures a[0] == b[0]
  {
    assert a[0] in multiset(b);
    var j :| 0 <= j < |b| && b[j] == a[0];
    assert b[0] in multiset(a);
    var i :| 0 <= i < |a| && a[i] == b[0];
    if j > 0 {
      assert LexLe(b[0], a[0]);
    } else {
      LexLeRefl(b[0]);
    }
    if i > 0 {
      assert LexLe(a[0], b[0]);
    } else {
      LexLeRefl(a[0]);
    }
    LexLeAntisym(a[0], b[0]);
  }

  /** Taking the same first element off leaves the same elements. */
  lemma SameTails(a: seq<string>, b: seq<string>)
    requires multiset(a) == multiset(b) && |a| > 0 && |b| > 0 && a[0] == b[0]
    ensures multiset(a[1..]) == multiset(b[1..])
  {
    assert a == [a[0]] + a[1..];
    assert b == [b[0]] + b[1..];
    assert multiset(a) == multiset{a[0]} + multiset(a[1..]);
    assert multiset(b) == multiset{a[0]} + multiset(b[1..]);
    assert multiset(a[1..]) == multiset(a) - multiset{a[0]};
    assert multiset(b[1..]) == multiset(b) - multiset{a[0]};
  }

  /** `sorted` is the unique sorted rearrangement of the names. */
  lemma SortNamesIsTheSort(names: seq<string>, r: seq<string>)
    requires Sorted(r) && multiset(r) == multiset(names)
    ensures r == SortNames(names)
  {
    SortedUnique(r, SortNames(names));
  }

  // ---------------------------------------------------------------------------
  // The listing

  /** The header lines written before the list, as the source writes them:
      each piece ends with "\n", a paragraph's last with "\n\n". */
  const ReadmeHeader: seq<string> := [
    "# Python 基础教学 Notebooks\n\n",
    "目录：`notebooks/`\n\n",
    "打开方式：\n",
    "- `jupyter notebook` 或 `jupyter lab`\n",
    "- 建议在项目根目录启动，然后按编号顺序打开学习\n\n",
    "说明：\n",
    "- 部分 Notebook 会在项目根目录创建 `./_nb_artifacts/` 存放示例产生的临时文件（模块/文件/日志等）\n",
    "- 部分篇章含可选依赖：`websockets`、MySQL 驱动（`mysql-connector-python` 或 `pymysql`）、`pika`、`pymongo`、`flask`、`fastapi`、`numpy`、`pandas`、`scikit-learn`、`torch`\n\n",
    "顺序：\n"
  ]

  /** The bullet of one name, without its "\n". */
  function BulletLine(name: string): string {
    "- `" + name + "`"
  }

  function BulletLines(names: seq<string>): (r: seq<string>)
    ensures |r| == |names|
  {
    seq(|names|, k requires 0 <= k < |names| => BulletLine(names[k]))
  }

  /** The pieces joined into README.md: the header, then `- `name`` and "\n"
      for each name in sorted order. */
  function ReadmePieces(names: seq<string>): seq<string> {
    ReadmeHeader + Terminate(BulletLines(SortNames(names)))
  }

  /** `"".join(lines)`: the text of README.md. */
  function ReadmeText(names: seq<string>): string {
    Concat(ReadmePieces(names))
  }

  /** The name a bullet piece lists: what lies between "- `" and "`\n". */
  function ListedName(piece: string): string {
    if |piece| >= 5 then piece[3..|piece| - 2] else ""
  }

  /** The names listed after the header, read back from the pieces. */
  function ListedNames(pieces: seq<string>): (r: seq<string>)
    ensures |pieces| >= |ReadmeHeader| ==> |r| == |pieces| - |ReadmeHeader|
  {
    var h := |ReadmeHeader|;
    if |pieces| < h then []
    else seq(|pieces| - h, k requires 0 <= k < |pieces| - h => ListedName(pieces[h + k]))
  }

  /** A bullet piece gives back the name it was made from. */
  lemma ListedNameOfBullet(name: string)
    ensures ListedName(BulletLine(name) + "\n") == name
  {
    var p := BulletLine(name) + "\n";
    assert p == "- `" + name + "`\n";
    assert p[3..|p| - 2] == name;
  }

  /** README.md is the header followed by exactly one bullet per name: the
      names read back from the bullets are the given names, each as often as
      given, in ascending order, and every bullet is `- `name`` and "\n". */
  lemma ReadmeListing(names: seq<string>)
    ensures |ReadmePieces(names)| == |ReadmeHeader| + |names|
    ensures ReadmePieces(names)[..|ReadmeHeader|] == ReadmeHeader
    ensures Sorted(ListedNames(ReadmePieces(names)))
    ensures multiset(ListedNames(ReadmePieces(names))) == multiset(names)
    ensures forall k :: 0 <= k < |names| ==>
      ReadmePieces(names)[|ReadmeHeader| + k] == "- `" + ListedNames(ReadmePieces(names))[k] + "`\n"
  {
    var s := SortNames(names);
    var ps := ReadmePieces(names);
    var h := |ReadmeHeader|;
    assert |ps| == h + |s|;
    forall k | 0 <= k < |s| ensures ps[h + k] == BulletLine(s[k]) + "\n" && ListedNames(ps)[k] == s[k] {
      assert ps[h + k] == Terminate(BulletLines(s))[k];
      ListedNameOfBullet(s[k]);
    }
    assert ListedNames(ps) == s;
  }

  /** The listing is the same whichever order the directory gives the names in. */
  lemma ReadmeOrderFree(names: seq<string>, others: seq<string>)
    requires multiset(others) == multiset(names)
    ensures ReadmeText(others) == ReadmeText(names)
  {
    SortedUnique(SortNames(others), SortNames(names));
  }

  // ---------------------------------------------------------------------------
  // The text

  lemma {:induction false} ConcatAppend(a: seq<string>, b: seq<string>)
    ensures Concat(a + b) == Concat(a) + Concat(b)
    decreases |a|
  {
    if |a| == 0 {
      assert a + b == b;
    } else {
      assert (a + b)[1..] == a[1..] + b;
      ConcatAppend(a[1..], b);
    }
  }

  /** The text is the header's text, then the bullets as lines. */
  lemma ReadmeTextShape(names: seq<string>)
    ensures ReadmeText(names) == Concat(ReadmeHeader) + Unlines(BulletLines(SortNames(names)))
  {
    ConcatAppend(ReadmeHeader, Terminate(BulletLines(SortNames(names))));
    UnlinesIsConcat(BulletLines(SortNames(names)));
  }

  /** A bullet of a one-line name is one line. */
  lemma BulletLineSingle(name: string)
    requires SingleLine(name)
    ensures SingleLine(BulletLine(name))
  {
    SingleLineConcat("- `", name);
    SingleLineConcat("- `" + name, "`");
  }

  lemma SortedBulletsSingle(names: seq<string>)
    requires forall k :: 0 <= k < |names| ==> SingleLine(names[k])
    ensures forall k :: 0 <= k < |names| ==> SingleLine(BulletLines(SortNames(names))[k])
  {
    var s := SortNames(names);
    forall k | 0 <= k < |s| ensures SingleLine(BulletLine(s[k])) {
      assert s[k] in multiset(names);
      var j :| 0 <= j < |names| && names[j] == s[k];
      BulletLineSingle(s[k]);
    }
  }

  /** The text starts with the header's text, and what follows is the bullets as lines. */
  lemma HeaderThenBullets(names: seq<string>)
    ensures |Concat(ReadmeHeader)| <= |ReadmeText(names)|
    ensures ReadmeText(names)[..|Concat(ReadmeHeader)|] == Concat(ReadmeHeader)
    ensures ReadmeText(names)[|Concat(ReadmeHeader)|..] == Unlines(BulletLines(SortNames(names)))
  {
    ReadmeTextShape(names);
    PartsOfConcat(Concat(ReadmeHeader), Unlines(BulletLines(SortNames(names))));
  }

  lemma PartsOfConcat(h: string, rest: string)
    ensures |h| <= |h + rest| && (h + rest)[..|h|] == h && (h + rest)[|h|..] == rest
  {
  }

  /** When no name breaks a line, the part after the header splits into
      exactly the bullets, one line per name, in sorted order. */
  lemma ListingLines(names: seq<string>)
    requires forall k :: 0 <= k < |names| ==> SingleLine(names[k])
    ensures var text := ReadmeText(names);
      && |Concat(ReadmeHeader)| <= |text|
      && text[..|Concat(ReadmeHeader)|] == Concat(ReadmeHeader)
      && SplitLines(text[|Concat(ReadmeHeader)|..]) == BulletLines(SortNames(names))
  {
    SortedBulletsSingle(names);
    HeaderThenBullets(names);
    SplitLinesUnlines(BulletLines(SortNames(names)));
  }
}
