/** Notebook cells and the notebook envelope, as the dictionaries `md`,
    `code` and `nb` build (tools/nb_utils.py, lines 12-13 and 29-53). */
module NbCells {
  import opened Optional
  import opened NbLines

  /** `nbformat` and `nbformat_minor` of every notebook written. */
  const NbFormat := 4
  const NbFormatMinor := 5

  /** The JSON values the notebook dictionaries are made of; an object keeps
      its keys in insertion order, as a Python dict does. */
  datatype Json =
    | JNull
    | JInt(n: int)
    | JStr(s: string)
    | JArr(items: seq<Json>)
    | JObj(fields: seq<(string, Json)>)

  /** The value of the first field named `key`, if any. */
  function Lookup(fields: seq<(string, Json)>, key: string): Option<Json>
    decreases |fields|
  {
    if |fields| == 0 then None
    else if fields[0].0 == key then Some(fields[0].1)
    else Lookup(fields[1..], key)
  }

  /** A cell: its kind, its id and its `source` lines. */
  datatype Cell =
    | MarkdownCell(id: string, source: seq<string>)
    | CodeCell(id: string, source: seq<string>)

  /** `md(text)`, with the id `_cell_id()` would draw passed in. */
  function Md(text: string, id: string): (c: Cell)
    ensures c.MarkdownCell? && c.id == id
    ensures c.source == [] <==> Normalize(text) == ""
    ensures forall k :: 0 <= k < |c.source| ==> |c.source[k]| >= 1 && c.source[k][|c.source[k]| - 1] == '\n'
  {
    MarkdownCell(id, Lines(text))
  }

  /** `code(src)`, with the id passed in. */
  function Code(src: string, id: string): (c: Cell)
    ensures c.CodeCell? && c.id == id
    ensures c.source == [] <==> Normalize(src) == ""
    ensures forall k :: 0 <= k < |c.source| ==> |c.source[k]| >= 1 && c.source[k][|c.source[k]| - 1] == '\n'
  {
    CodeCell(id, Lines(src))
  }

  /** A list of strings as a JSON array. */
  function StrArray(xs: seq<string>): (j: Json)
    ensures j.JArr? && |j.items| == |xs|
    ensures forall k :: 0 <= k < |xs| ==> j.items[k] == JStr(xs[k])
  {
    JArr(seq(|xs|, k requires 0 <= k < |xs| => JStr(xs[k])))
  }

  /** The dictionary `md` or `code` returns for a cell, keys in the order written. */
  function CellJson(c: Cell): Json {
    match c
    case MarkdownCell(id, source) =>
      JObj([("cell_type", JStr("markdown")), ("id", JStr(id)), ("metadata", JObj([])),
            ("source", StrArray(source))])
    case CodeCell(id, source) =>
      JObj([("cell_type", JStr("code")), ("id", JStr(id)), ("execution_count", JNull),
            ("metadata", JObj([])), ("outputs", JArr([])), ("source", StrArray(source))])
  }

  /** The fixed `metadata` of every notebook. */
  const NotebookMetadata: Json :=
    JObj([("kernelspec", JObj([("display_name", JStr("Python 3")), ("language", JStr("python")),
                               ("name", JStr("python3"))])),
          ("language_info", JObj([("name", JStr("python")), ("version", JStr("3.8"))]))])

  /** `nb(cells)`. */
  function Nb(cells: seq<Cell>): Json {
    JObj([("cells", JArr(seq(|cells|, k requires 0 <= k < |cells| => CellJson(cells[k])))),
          ("metadata", NotebookMetadata),
          ("nbformat", JInt(NbFormat)),
          ("nbformat_minor", JInt(NbFormatMinor))])
  }

  // ---------------------------------------------------------------------------
  // Reading the dictionaries back

  /** The strings of an array made only of strings. */
  function ReadStrings(j: Json): (r: Option<seq<string>>)
    ensures r.Some? ==> j.JArr? && |r.value| == |j.items|
    ensures r.Some? ==> forall k :: 0 <= k < |j.items| ==> j.items[k] == JStr(r.value[k])
  {
    if j.JArr? && forall k :: 0 <= k < |j.items| ==> j.items[k].JStr? then
      Some(seq(|j.items|, k requires 0 <= k < |j.items| && j.items[k].JStr? => j.items[k].s))
    else None
  }

  /** The cell a dictionary holds, when it has exactly the shape `md` or `code` gives. */
  function ReadCell(j: Json): Option<Cell> {
    if !j.JObj? then None
    else
      var f := j.fields;
      if |f| == 4 && f[0] == ("cell_type", JStr("markdown")) && f[1].0 == "id" && f[1].1.JStr?
         && f[2] == ("metadata", JObj([])) && f[3].0 == "source" && ReadStrings(f[3].1).Some?
      then Some(MarkdownCell(f[1].1.s, ReadStrings(f[3].1).value))
      else if |f| == 6 && f[0] == ("cell_type", JStr("code")) && f[1].0 == "id" && f[1].1.JStr?
         && f[2] == ("execution_count", JNull) && f[3] == ("metadata", JObj([]))
         && f[4] == ("outputs", JArr([])) && f[5].0 == "source" && ReadStrings(f[5].1).Some?
      then Some(CodeCell(f[1].1.s, ReadStrings(f[5].1).value))
      else None
  }

  /** The cells of a list of cell dictionaries, when every one reads. */
  function ReadCells(items: seq<Json>): (r: Option<seq<Cell>>)
    ensures r.Some? ==> |r.value| == |items|
    ensures r.Some? ==> forall k :: 0 <= k < |items| ==> ReadCell(items[k]) == Some(r.value[k])
    ensures r.None? ==> exists k :: 0 <= k < |items| && ReadCell(items[k]).None?
    decreases |items|
  {
    if |items| == 0 then Some([])
    else
      match (ReadCell(items[0]), ReadCells(items[1..]))
      case (Some(c), Some(cs)) =>
        assert forall k :: 1 <= k < |items| ==> items[k] == items[1..][k - 1];
        Some([c] + cs)
      case (None, _) => None
      case (_, None) =>
        var k :| 0 <= k < |items[1..]| && ReadCell(items[1..][k]).None?;
        assert ReadCell(items[k + 1]).None?;
        None
  }

  /** The cells of a notebook dictionary with exactly the envelope `nb` gives. */
  function ReadNotebook(j: Json): Option<seq<Cell>> {
    if j.JObj? && |j.fields| == 4 && j.fields[0].0 == "cells" && j.fields[0].1.JArr?
       && j.fields[1] == ("metadata", NotebookMetadata)
       && j.fields[2] == ("nbformat", JInt(NbFormat))
       && j.fields[3] == ("nbformat_minor", JInt(NbFormatMinor))
    then ReadCells(j.fields[0].1.items)
    else None
  }

  // ---------------------------------------------------------------------------
  // Round trips

  /** An array reads back as exactly the strings it was made from, and only such an array does. */
  lemma ReadStringsExact(j: Json, xs: seq<string>)
    ensures ReadStrings(j) == Some(xs) <==> j == StrArray(xs)
  {
    if ReadStrings(j) == Some(xs) {
      assert j.items == StrArray(xs).items;
      assert j == JArr(j.items);
    }
    if j == StrArray(xs) {
      assert forall k :: 0 <= k < |j.items| ==> j.items[k].JStr?;
      assert ReadStrings(j).value == xs;
    }
  }

  /** A dictionary reads as a cell exactly when it is that cell's dictionary. */
  lemma ReadCellExact(j: Json, c: Cell)
    ensures ReadCell(j) == Some(c) <==> j == CellJson(c)
  {
    ReadStringsExact(CellJson(c).fields[|CellJson(c).fields| - 1].1, c.source);
    if ReadCell(j) == Some(c) {
      var f := j.fields;
      if c.MarkdownCell? {
        ReadStringsExact(f[3].1, c.source);
        assert f == CellJson(c).fields;
      } else {
        ReadStringsExact(f[5].1, c.source);
        assert f == CellJson(c).fields;
      }
    }
  }

  /** A notebook dictionary reads back as exactly the cells it was built from. */
  lemma NotebookRoundTrip(cells: seq<Cell>)
    ensures ReadNotebook(Nb(cells)) == Some(cells)
  {
    var items := Nb(cells).fields[0].1.items;
    forall k | 0 <= k < |cells| ensures ReadCell(items[k]) == Some(cells[k]) {
      ReadCellExact(items[k], cells[k]);
    }
    var r := ReadCells(items);
    assert r.value == cells;
  }

  /** Only what `nb` builds reads as a notebook: reading is the inverse of building. */
  lemma ReadNotebookExact(j: Json, cells: seq<Cell>)
    ensures ReadNotebook(j) == Some(cells) <==> j == Nb(cells)
  {
    NotebookRoundTrip(cells);
    if ReadNotebook(j) == Some(cells) {
      var items := j.fields[0].1.items;
      forall k | 0 <= k < |items| ensures items[k] == CellJson(cells[k]) {
        ReadCellExact(items[k], cells[k]);
      }
      assert items == Nb(cells).fields[0].1.items;
      assert j.fields == Nb(cells).fields;
    }
  }

  /** The field at `k` is what a lookup of its key finds when no earlier field has that key. */
  lemma LookupAt(fields: seq<(string, Json)>, k: nat, key: string)
    requires k < |fields| && fields[k].0 == key
    requires forall j :: 0 <= j < k ==> fields[j].0 != key
    ensures Lookup(fields, key) == Some(fields[k].1)
    decreases k
  {
    if k > 0 {
      LookupAt(fields[1..], k - 1, key);
    }
  }

  /** No field has the key: the lookup finds nothing. */
  lemma {:induction false} LookupAbsent(fields: seq<(string, Json)>, key: string)
    requires forall j :: 0 <= j < |fields| ==> fields[j].0 != key
    ensures Lookup(fields, key).None?
    decreases |fields|
  {
    if |fields| > 0 {
      LookupAbsent(fields[1..], key);
    }
  }

  /** What every markdown cell dictionary holds: its kind, its id, empty
      metadata and its source lines, and neither an execution count nor outputs. */
  lemma MarkdownShape(id: string, source: seq<string>)
    ensures var f := CellJson(MarkdownCell(id, source)).fields;
      && Lookup(f, "cell_type") == Some(JStr("markdown"))
      && Lookup(f, "id") == Some(JStr(id))
      && Lookup(f, "metadata") == Some(JObj([]))
      && Lookup(f, "source") == Some(StrArray(source))
      && Lookup(f, "execution_count").None?
      && Lookup(f, "outputs").None?
  {
    var f := CellJson(MarkdownCell(id, source)).fields;
    LookupAt(f, 0, "cell_type");
    LookupAt(f, 1, "id");
    LookupAt(f, 2, "metadata");
    LookupAt(f, 3, "source");
    LookupAbsent(f, "execution_count");
    LookupAbsent(f, "outputs");
  }

  /** What every code cell dictionary holds: its kind, its id, a null
      execution count, empty metadata, no outputs and its source lines. */
  lemma CodeShape(id: string, source: seq<string>)
    ensures var f := CellJson(CodeCell(id, source)).fields;
      && Lookup(f, "cell_type") == Some(JStr("code"))
      && Lookup(f, "id") == Some(JStr(id))
      && Lookup(f, "execution_count") == Some(JNull)
      && Lookup(f, "metadata") == Some(JObj([]))
      && Lookup(f, "outputs") == Some(JArr([]))
      && Lookup(f, "source") == Some(StrArray(source))
  {
    var f := CellJson(CodeCell(id, source)).fields;
    LookupAt(f, 0, "cell_type");
    LookupAt(f, 1, "id");
    LookupAt(f, 2, "execution_count");
    LookupAt(f, 3, "metadata");
    LookupAt(f, 4, "outputs");
    LookupAt(f, 5, "source");
  }

  /** The envelope: the cells in order, the fixed metadata, format 4.5. */
  lemma NotebookEnvelope(cells: seq<Cell>)
    ensures var f := Nb(cells).fields;
      && Lookup(f, "cells") == Some(JArr(seq(|cells|, k requires 0 <= k < |cells| => CellJson(cells[k]))))
      && Lookup(f, "metadata") == Some(NotebookMetadata)
      && Lookup(f, "nbformat") == Some(JInt(4))
      && Lookup(f, "nbformat_minor") == Some(JInt(5))
  {
    var f := Nb(cells).fields;
    LookupAt(f, 0, "cells");
    LookupAt(f, 1, "metadata");
    LookupAt(f, 2, "nbformat");
    LookupAt(f, 3, "nbformat_minor");
  }
}
