/** What `build` promises about the notebook it assembles: how many cells,
    in which order, of which kind, with which ids, and what lines the
    template's sections become (tools/nb_utils.py, lines 97-133). */
module NbBuildProps {
  import opened Optional
  import opened PyStr
  import opened Textwrap
  import opened NbLines
  import opened NbCells
  import opened NbSections
  import opened NbBuild

  // ---------------------------------------------------------------------------
  // Count, ids and kinds

  /** The `k`-th cell is its slot's text through `md` or `code`, with the `k`-th id. */
  lemma CellAt(t: Topic, ids: nat -> string, k: nat)
    requires k < |Layout(t)|
    ensures BuildCells(t, ids)[k] == Realize(Layout(t)[k], SlotText(t, Layout(t)[k]), ids(k))
  {
  }

  /** `build` makes nine fixed cells, one per point, one per demo and one for
      the worked example's code when it has any. */
  lemma BuildCount(t: Topic, ids: nat -> string)
    ensures |BuildCells(t, ids)|
      == 9 + |t.points| + DemoCount(t.points) + (if HasExampleCode(t) then 1 else 0)
  {
  }

  /** The ids only label the cells: two id supplies give the same cells but
      for the ids, and each cell's id is the one drawn in its turn. */
  lemma IdsOnlyLabel(t: Topic, ids1: nat -> string, ids2: nat -> string, k: nat)
    requires k < |Layout(t)|
    ensures |BuildCells(t, ids1)| == |BuildCells(t, ids2)|
    ensures BuildCells(t, ids1)[k].id == ids1(k) && BuildCells(t, ids2)[k].id == ids2(k)
    ensures BuildCells(t, ids1)[k].CodeCell? == BuildCells(t, ids2)[k].CodeCell?
    ensures BuildCells(t, ids1)[k].source == BuildCells(t, ids2)[k].source
  {
    CellAt(t, ids1, k);
    CellAt(t, ids2, k);
  }

  /** The number of code cells. */
  function CodeCount(cells: seq<Cell>): (n: nat)
    ensures n <= |cells|
    decreases |cells|
  {
    if |cells| == 0 then 0 else (if cells[0].CodeCell? then 1 else 0) + CodeCount(cells[1..])
  }

  /** The number of code slots. */
  function CodeSlots(ss: seq<Slot>): (n: nat)
    ensures n <= |ss|
    decreases |ss|
  {
    if |ss| == 0 then 0 else (if IsCode(ss[0]) then 1 else 0) + CodeSlots(ss[1..])
  }

  lemma {:induction false} CodeSlotsConcat(a: seq<Slot>, b: seq<Slot>)
    ensures CodeSlots(a + b) == CodeSlots(a) + CodeSlots(b)
    decreases |a|
  {
    if |a| == 0 {
      assert a + b == b;
    } else {
      assert (a + b)[0] == a[0];
      assert (a + b)[1..] == a[1..] + b;
      CodeSlotsConcat(a[1..], b);
    }
  }

  /** Cells of the same kinds as slots count as many code cells. */
  lemma {:induction false} CodeCountOfKinds(cells: seq<Cell>, ss: seq<Slot>)
    requires |cells| == |ss|
    requires forall k :: 0 <= k < |ss| ==> (cells[k].CodeCell? <==> IsCode(ss[k]))
    ensures CodeCount(cells) == CodeSlots(ss)
    decreases |ss|
  {
    if |ss| > 0 {
      CodeCountOfKinds(cells[1..], ss[1..]);
    }
  }

  /** The points contribute one code slot per demo. */
  lemma {:induction false} PointCodeSlots(ps: seq<Point>, i: nat)
    ensures CodeSlots(PointSlots(ps, i)) == DemoCount(ps)
    decreases |ps|
  {
    if |ps| > 0 {
      var p := ps[0];
      var own := if HasDemo(p) then [PointMd(i, p), Demo(p.demo.value)] else [PointMd(i, p)];
      CodeSlotsConcat(own, PointSlots(ps[1..], i + 1));
      PointCodeSlots(ps[1..], i + 1);
    }
  }

  lemma TrailerCodeSlots(withCode: bool)
    ensures CodeSlots(TrailerSlots(withCode)) == if withCode then 1 else 0
  {
    var code := if withCode then [ExampleCode] else [];
    CodeSlotsConcat([Pitfalls, Example] + code, [SelfCheck, Exercises]);
    CodeSlotsConcat([Pitfalls, Example], code);
  }

  /** The code cells are the setup cell, one per demo and the worked example's
      code when there is any; the other 8 + |points| cells are markdown. */
  lemma CodeCellCount(t: Topic, ids: nat -> string)
    ensures CodeCount(BuildCells(t, ids)) == 1 + DemoCount(t.points) + (if HasExampleCode(t) then 1 else 0)
    ensures |BuildCells(t, ids)| - CodeCount(BuildCells(t, ids)) == 8 + |t.points|
  {
    CellKinds(t, ids);
    CodeCountOfKinds(BuildCells(t, ids), Layout(t));
    LayoutCodeSlots(t);
  }

  /** Each cell is code exactly when its slot is. */
  lemma CellKinds(t: Topic, ids: nat -> string)
    ensures |BuildCells(t, ids)| == |Layout(t)|
    ensures forall k :: 0 <= k < |Layout(t)| ==> (BuildCells(t, ids)[k].CodeCell? <==> IsCode(Layout(t)[k]))
  {
    forall k | 0 <= k < |Layout(t)| ensures BuildCells(t, ids)[k].CodeCell? <==> IsCode(Layout(t)[k]) {
      CellKind(t, ids, k);
    }
  }

  /** The code slots: the setup, one per demo and the example's code when there is any. */
  lemma LayoutCodeSlots(t: Topic)
    ensures CodeSlots(Layout(t)) == 1 + DemoCount(t.points) + (if HasExampleCode(t) then 1 else 0)
  {
    var head := [Title, Prereq, Map, Checklist, Setup];
    CodeSlotsConcat(head + PointSlots(t.points, 1), TrailerSlots(HasExampleCode(t)));
    CodeSlotsConcat(head, PointSlots(t.points, 1));
    PointCodeSlots(t.points, 1);
    TrailerCodeSlots(HasExampleCode(t));
  }

  // ---------------------------------------------------------------------------
  // Order

  /** The slots of one point, numbered `i`: its markdown, then its demo when it has one. */
  function OwnSlots(p: Point, i: nat): (r: seq<Slot>)
    ensures |r| == if HasDemo(p) then 2 else 1
  {
    if HasDemo(p) then [PointMd(i, p), Demo(p.demo.value)] else [PointMd(i, p)]
  }

  lemma Assoc(x: seq<Slot>, y: seq<Slot>, z: seq<Slot>)
    ensures x + (y + z) == x + y + z
  {
  }

  /** The points' slots split with the points: the second part keeps numbering
      where the first stopped. */
  lemma {:induction false} PointSlotsConcat(a: seq<Point>, b: seq<Point>, i: nat)
    ensures PointSlots(a + b, i) == PointSlots(a, i) + PointSlots(b, i + |a|)
    decreases |a|
  {
    if |a| == 0 {
      assert a + b == b;
    } else {
      assert (a + b)[0] == a[0];
      assert (a + b)[1..] == a[1..] + b;
      var own := OwnSlots(a[0], i);
      PointSlotsConcat(a[1..], b, i + 1);
      assert PointSlots(a, i) == own + PointSlots(a[1..], i + 1);
      assert PointSlots(a + b, i) == own + PointSlots(a[1..] + b, i + 1);
      Assoc(own, PointSlots(a[1..], i + 1), PointSlots(b, i + |a|));
    }
  }

  /** Around the `i`-th point: the earlier points' slots, its own, then the later points'. */
  lemma PointSlotsAt(ps: seq<Point>, i0: nat, i: nat)
    requires i < |ps|
    ensures PointSlots(ps, i0)
      == PointSlots(ps[..i], i0) + OwnSlots(ps[i], i0 + i) + PointSlots(ps[i + 1..], i0 + i + 1)
  {
    assert ps == ps[..i] + ps[i..];
    PointSlotsConcat(ps[..i], ps[i..], i0);
    assert ps[i..][0] == ps[i] && ps[i..][1..] == ps[i + 1..];
  }

  /** The first slot of a non-empty list of points is the first point's markdown. */
  lemma PointSlotsFirst(ps: seq<Point>, i: nat)
    requires |ps| >= 1
    ensures PointSlots(ps, i)[0] == PointMd(i, ps[0])
  {
  }

  /** The `i`-th point's markdown comes after the slots of the earlier points. */
  lemma PointSlotsIndex(ps: seq<Point>, i0: nat, i: nat)
    requires i < |ps|
    ensures |PointSlots(ps[..i], i0)| < |PointSlots(ps, i0)|
    ensures PointSlots(ps, i0)[|PointSlots(ps[..i], i0)|] == PointMd(i0 + i, ps[i])
  {
    PointSlotsAt(ps, i0, i);
    Pick3(PointSlots(ps[..i], i0), OwnSlots(ps[i], i0 + i), PointSlots(ps[i + 1..], i0 + i + 1), 0);
  }

  /** The slot right after the `i`-th point's markdown: its demo, or else the
      next point's markdown, or else nothing. */
  lemma PointSlotsNext(ps: seq<Point>, i0: nat, i: nat)
    requires i < |ps|
    ensures HasDemo(ps[i]) || i + 1 < |ps| <==> |PointSlots(ps[..i], i0)| + 1 < |PointSlots(ps, i0)|
    ensures HasDemo(ps[i]) ==> PointSlots(ps, i0)[|PointSlots(ps[..i], i0)| + 1] == Demo(ps[i].demo.value)
    ensures !HasDemo(ps[i]) && i + 1 < |ps| ==>
      PointSlots(ps, i0)[|PointSlots(ps[..i], i0)| + 1] == PointMd(i0 + i + 1, ps[i + 1])
  {
    var after := PointSlots(ps[i + 1..], i0 + i + 1);
    PointSlotsAt(ps, i0, i);
    if HasDemo(ps[i]) || i + 1 < |ps| {
      Pick3(PointSlots(ps[..i], i0), OwnSlots(ps[i], i0 + i), after, 1);
    }
    if i + 1 < |ps| {
      PointSlotsFirst(ps[i + 1..], i0 + i + 1);
      assert ps[i + 1..][0] == ps[i + 1];
    }
  }

  /** Indexing into three consecutive parts. */
  lemma Pick3(a: seq<Slot>, b: seq<Slot>, c: seq<Slot>, k: nat)
    requires k < |b| + |c|
    ensures (a + b + c)[|a| + k] == if k < |b| then b[k] else c[k - |b|]
  {
  }

  /** The slots' three parts by index: the five head slots, the points'
      slots, the trailer. */
  lemma SlotsIndex(ps: seq<Point>, w: bool, k: nat)
    requires k < |SlotsOf(ps, w)|
    ensures k < 5 ==> SlotsOf(ps, w)[k] == [Title, Prereq, Map, Checklist, Setup][k]
    ensures 5 <= k < 5 + |PointSlots(ps, 1)| ==> SlotsOf(ps, w)[k] == PointSlots(ps, 1)[k - 5]
    ensures 5 + |PointSlots(ps, 1)| <= k ==>
      SlotsOf(ps, w)[k] == TrailerSlots(w)[k - 5 - |PointSlots(ps, 1)|]
  {
  }

  /** The slot after point `i`'s markdown: its demo, or else the next
      point's markdown, or else the pitfalls. */
  function NextSlot(ps: seq<Point>, i: nat): Slot
    requires i < |ps|
  {
    var p := ps[i];
    if HasDemo(p) then Demo(p.demo.value)
    else if i + 1 < |ps| then PointMd(i + 2, ps[i + 1])
    else Pitfalls
  }

  /** Where the points' slots sit: point `i` (from 0) at 5 + i + the number
      of earlier demos, numbered i + 1; after it comes its demo, or else the
      next point, or else the pitfalls, so the slot after it is code exactly
      when the point has a demo. */
  lemma PointPlacement(t: Topic, i: nat, pos: nat)
    requires i < |t.points| && pos == 5 + i + DemoCount(t.points[..i])
    ensures pos + 1 < |Layout(t)|
    ensures Layout(t)[pos] == PointMd(i + 1, t.points[i])
    ensures Layout(t)[pos + 1] == NextSlot(t.points, i)
    ensures IsCode(Layout(t)[pos + 1]) <==> HasDemo(t.points[i])
  {
    PointMdAt(t.points, HasExampleCode(t), i, pos);
    PointNextAt(t.points, HasExampleCode(t), i, pos);
    NextSlotKind(t.points, i);
  }

  lemma NextSlotKind(ps: seq<Point>, i: nat)
    requires i < |ps|
    ensures IsCode(NextSlot(ps, i)) <==> HasDemo(ps[i])
  {
  }

  lemma PointMdAt(ps: seq<Point>, w: bool, i: nat, pos: nat)
    requires i < |ps| && pos == 5 + i + DemoCount(ps[..i])
    ensures pos < |SlotsOf(ps, w)| && SlotsOf(ps, w)[pos] == PointMd(i + 1, ps[i])
  {
    assert |ps[..i]| == i;
    PointSlotsIndex(ps, 1, i);
    SlotsIndex(ps, w, pos);
  }

  lemma PointNextAt(ps: seq<Point>, w: bool, i: nat, pos: nat)
    requires i < |ps| && pos == 5 + i + DemoCount(ps[..i])
    ensures pos + 1 < |SlotsOf(ps, w)| && SlotsOf(ps, w)[pos + 1] == NextSlot(ps, i)
  {
    if HasDemo(ps[i]) || i + 1 < |ps| {
      PointNextInside(ps, w, i, pos);
    } else {
      PointNextLast(ps, w, i, pos);
    }
  }

  /** Before a demo or a later point, the next slot is among the points' slots. */
  lemma PointNextInside(ps: seq<Point>, w: bool, i: nat, pos: nat)
    requires i < |ps| && pos == 5 + i + DemoCount(ps[..i])
    requires HasDemo(ps[i]) || i + 1 < |ps|
    ensures pos + 1 < |SlotsOf(ps, w)| && SlotsOf(ps, w)[pos + 1] == NextSlot(ps, i)
  {
    assert |ps[..i]| == i;
    PointSlotsNext(ps, 1, i);
    SlotsIndex(ps, w, pos + 1);
  }

  /** After the last point, when it has no demo, comes the first trailer slot. */
  lemma PointNextLast(ps: seq<Point>, w: bool, i: nat, pos: nat)
    requires i + 1 == |ps| && !HasDemo(ps[i])
    requires pos == 5 + i + DemoCount(ps[..i])
    ensures pos + 1 < |SlotsOf(ps, w)| && SlotsOf(ps, w)[pos + 1] == Pitfalls
  {
    assert |ps[..i]| == i;
    PointSlotsNext(ps, 1, i);
    PointSlotsIndex(ps, 1, i);
    SlotsIndex(ps, w, pos + 1);
    TrailerAt(w);
  }

  /** The `k`-th cell is code exactly when its slot is. */
  lemma CellKind(t: Topic, ids: nat -> string, k: nat)
    requires k < |Layout(t)|
    ensures BuildCells(t, ids)[k].CodeCell? <==> IsCode(Layout(t)[k])
  {
    CellAt(t, ids, k);
  }

  /** The first five slots: title, prerequisites, map and checklist, then
      the setup code; at least four slots follow them. */
  lemma HeadSlots(ps: seq<Point>, w: bool)
    ensures |SlotsOf(ps, w)| >= 9
    ensures SlotsOf(ps, w)[..5] == [Title, Prereq, Map, Checklist, Setup]
  {
    forall k | 0 <= k < 5 ensures SlotsOf(ps, w)[k] == [Title, Prereq, Map, Checklist, Setup][k] {
      SlotsIndex(ps, w, k);
    }
  }

  /** The first four cells are markdown and the fifth, the setup, is code. */
  lemma HeadKinds(t: Topic, ids: nat -> string)
    ensures |BuildCells(t, ids)| >= 9
    ensures forall k :: 0 <= k < 5 ==> (BuildCells(t, ids)[k].CodeCell? <==> k == 4)
  {
    HeadSlots(t.points, HasExampleCode(t));
    CellKinds(t, ids);
    HeadKindsOf(BuildCells(t, ids), Layout(t));
  }

  /** Cells of the kinds of slots that start with the five fixed ones: four
      markdown cells, then a code cell. */
  lemma HeadKindsOf(cells: seq<Cell>, l: seq<Slot>)
    requires |cells| == |l| >= 5 && l[..5] == [Title, Prereq, Map, Checklist, Setup]
    requires forall k :: 0 <= k < |l| ==> (cells[k].CodeCell? <==> IsCode(l[k]))
    ensures forall k :: 0 <= k < 5 ==> (cells[k].CodeCell? <==> k == 4)
  {
    forall k | 0 <= k < 5 ensures cells[k].CodeCell? <==> k == 4 {
      assert l[k] == l[..5][k];
    }
  }

  /** The trailer's slots by position, with or without the example's code. */
  lemma TrailerAt(withCode: bool)
    ensures var tr := TrailerSlots(withCode);
      && tr[0] == Pitfalls && tr[1] == Example
      && tr[2] == (if withCode then ExampleCode else SelfCheck)
      && tr[|tr| - 2] == SelfCheck && tr[|tr| - 1] == Exercises
  {
  }

  /** The slots after the points: pitfalls, the worked example, its code
      exactly when it has any, then self-check and, last, exercises. */
  lemma TrailerOrder(t: Topic, m: nat)
    requires m == 5 + |t.points| + DemoCount(t.points)
    ensures |Layout(t)| == m + 4 + (if HasExampleCode(t) then 1 else 0)
    ensures Layout(t)[m] == Pitfalls && Layout(t)[m + 1] == Example
    ensures IsCode(Layout(t)[m + 2]) <==> HasExampleCode(t)
    ensures HasExampleCode(t) ==> Layout(t)[m + 2] == ExampleCode
    ensures Layout(t)[|Layout(t)| - 2] == SelfCheck && Layout(t)[|Layout(t)| - 1] == Exercises
  {
    TrailerOrderOf(t.points, HasExampleCode(t), m);
  }

  lemma TrailerOrderOf(ps: seq<Point>, w: bool, m: nat)
    requires m == 5 + |ps| + DemoCount(ps)
    ensures |SlotsOf(ps, w)| == m + 4 + (if w then 1 else 0)
    ensures SlotsOf(ps, w)[m] == Pitfalls && SlotsOf(ps, w)[m + 1] == Example
    ensures IsCode(SlotsOf(ps, w)[m + 2]) <==> w
    ensures w ==> SlotsOf(ps, w)[m + 2] == ExampleCode
    ensures SlotsOf(ps, w)[|SlotsOf(ps, w)| - 2] == SelfCheck
    ensures SlotsOf(ps, w)[|SlotsOf(ps, w)| - 1] == Exercises
  {
    var n := |SlotsOf(ps, w)|;
    TrailerAt(w);
    SlotsIndex(ps, w, m);
    SlotsIndex(ps, w, m + 1);
    SlotsIndex(ps, w, m + 2);
    SlotsIndex(ps, w, n - 2);
    SlotsIndex(ps, w, n - 1);
  }

  /** `build` returns `nb` of its cells: reading the notebook back gives them, in order. */
  lemma BuildReadsBack(t: Topic, ids: nat -> string)
    ensures ReadNotebook(Build(t, ids)) == Some(BuildCells(t, ids))
  {
    NotebookRoundTrip(BuildCells(t, ids));
  }
}
