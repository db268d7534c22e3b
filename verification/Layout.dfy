/**
 The grid reflow of classic dashboards: marked panels are dropped, the rest is sorted, and every
 row panel and every band of content panels is stacked below the previous one, 24 columns wide.

 Only what the reflow reads or writes of a panel is modelled; `body` stands for everything else.
 A missing grid position reads as zero, and a height of zero (or none) counts as one.
 */
module Layout {
  import opened Options
  import opened Ordering

  const GRID_WIDTH: nat := 24

  datatype Panel = Panel(id: int, isRow: bool, omit: bool, x: int, y: int, w: int, h: int, body: string)

  function HeightOf(p: Panel): (h: int)
    ensures h != 0 && (p.h > 0 ==> h == p.h)
  {
    if p.h == 0 then 1 else p.h
  }

  // --- packing one band ---------------------------------------------------------------------

  /** The columns panel `i` of `n` gets: an equal share, and one more for the leftmost while they last. */
  function Share(width: nat, n: nat, i: nat): (w: nat)
    requires i < n
  {
    width / n + (if i < width % n then 1 else 0)
  }

  /** The left edge of panel `i`: everything to its left is taken. */
  function Edge(width: nat, n: nat, i: nat): nat
    requires i <= n
  {
    if i == 0 then 0 else Edge(width, n, i - 1) + Share(width, n, i - 1)
  }

  lemma {:induction false} EdgeClosedForm(width: nat, n: nat, i: nat)
    requires i <= n && n > 0
    ensures Edge(width, n, i) == i * (width / n) + (if i < width % n then i else width % n)
  {
    if i > 0 {
      EdgeClosedForm(width, n, i - 1);
      assert (i - 1) * (width / n) + width / n == i * (width / n);
    }
  }

  /** The shares fill the width exactly, with no gap and no overlap. */
  lemma EdgesFillWidth(width: nat, n: nat)
    requires n > 0
    ensures Edge(width, n, 0) == 0 && Edge(width, n, n) == width
    ensures forall i | 0 <= i < n :: Edge(width, n, i + 1) == Edge(width, n, i) + Share(width, n, i)
  {
    EdgeClosedForm(width, n, n);
    assert n * (width / n) + width % n == width;
  }

  lemma {:induction false} EdgesAscend(width: nat, n: nat, i: nat, j: nat)
    requires i < j <= n
    ensures Edge(width, n, i) + Share(width, n, i) <= Edge(width, n, j)
    ensures n <= width ==> Share(width, n, i) >= 1
  {
    if j > i + 1 {
      EdgesAscend(width, n, i, j - 1);
    }
    if n <= width {
      assert width / n >= 1;
    }
  }

  function Tallest(panels: seq<Panel>): (h: int)
    ensures forall i | 0 <= i < |panels| :: HeightOf(panels[i]) <= h
    ensures panels != [] ==> exists i | 0 <= i < |panels| :: HeightOf(panels[i]) == h
  {
    if panels == [] then 0
    else if |panels| == 1 then
      assert HeightOf(panels[0]) == HeightOf(panels[0]);
      HeightOf(panels[0])
    else
      var last, above := HeightOf(panels[|panels| - 1]), Tallest(panels[..|panels| - 1]);
      if above >= last then
        ghost var i :| 0 <= i < |panels| - 1 && HeightOf(panels[..|panels| - 1][i]) == above;
        assert HeightOf(panels[i]) == above;
        above
      else last
  }

  function Moved(panels: seq<Panel>, y: int, height: Option<int>, width: nat, i: nat): Panel
    requires i < |panels|
  {
    panels[i].(x := Edge(width, |panels|, i), y := y, w := Share(width, |panels|, i),
               h := if height.None? then HeightOf(panels[i]) else height.value)
  }

  /** A band of panels on the grid at height `y`; panels keep their order and everything but their place. */
  function Packed(panels: seq<Panel>, y: int, height: Option<int>, width: nat): (r: seq<Panel>)
    ensures |r| == |panels|
    ensures forall i | 0 <= i < |r| :: r[i] == Moved(panels, y, height, width, i)
  {
    seq(|panels|, i requires 0 <= i < |panels| => Moved(panels, y, height, width, i))
  }

  method MaxHeight(panels: array<Panel>) returns (h: int)
    requires panels.Length > 0
    ensures h == Tallest(panels[..])
  {
    h := HeightOf(panels[0]);
    for i := 1 to panels.Length
      invariant h == Tallest(panels[..i])
    {
      assert panels[..i + 1][..i] == panels[..i];
      h := if h >= HeightOf(panels[i]) then h else HeightOf(panels[i]);
    }
    assert panels[..panels.Length] == panels[..];
  }

  /** Packs the panels of one band in place and returns where the next band starts. */
  method PackRow(panels: array<Panel>, y: int, height: Option<int>, width: nat := GRID_WIDTH) returns (next: int)
    modifies panels
    ensures panels[..] == Packed(old(panels[..]), y, height, width)
    ensures next == if panels.Length == 0 then y
                    else y + (if height.None? then Tallest(old(panels[..])) else height.value)
  {
    hide Packed, Tallest;
    var n := panels.Length;
    if n == 0 {
      return y;
    }
    ghost var before := panels[..];
    var base, remainder := width / n, width % n;
    var x := 0;
    var rowHeight;
    if height.None? {
      rowHeight := MaxHeight(panels);
    } else {
      rowHeight := height.value;
    }
    for index := 0 to n
      invariant x == Edge(width, n, index)
      invariant forall i | 0 <= i < index :: panels[i] == Moved(before, y, height, width, i)
      invariant forall i | index <= i < n :: panels[i] == before[i]
    {
      var panelWidth := base + if index < remainder then 1 else 0;
      var panelHeight := if height.None? then HeightOf(panels[index]) else rowHeight;
      panels[index] := panels[index].(x := x, y := y, w := panelWidth, h := panelHeight);
      x := x + panelWidth;
    }
    next := y + rowHeight;
  }

  // --- the whole dashboard ------------------------------------------------------------------

  /** Sorted by grid row, then column, then panel id. */
  predicate PanelLe(a: Panel, b: Panel)
  {
    a.y < b.y || (a.y == b.y && (a.x < b.x || (a.x == b.x && a.id <= b.id)))
  }

  function Unmarked(panels: seq<Panel>): (r: seq<Panel>)
    ensures forall p | p in r :: !p.omit
  {
    if panels == [] then []
    else Unmarked(panels[..|panels| - 1]) +
         (if panels[|panels| - 1].omit then [] else [panels[|panels| - 1]])
  }

  function Rows(group: seq<Panel>): (r: seq<Panel>)
    ensures forall p | p in r :: p.isRow && p in group
  {
    if group == [] then []
    else Rows(group[..|group| - 1]) + (if group[|group| - 1].isRow then [group[|group| - 1]] else [])
  }

  function Content(group: seq<Panel>): (r: seq<Panel>)
    ensures forall p | p in r :: !p.isRow && p in group
  {
    if group == [] then []
    else Content(group[..|group| - 1]) + (if group[|group| - 1].isRow then [] else [group[|group| - 1]])
  }

  /** How many leading panels share grid row `y`. */
  function GroupLength(panels: seq<Panel>, y: int): (n: nat)
    ensures n <= |panels|
    ensures forall i | 0 <= i < n :: panels[i].y == y
    ensures n < |panels| ==> panels[n].y != y
  {
    if panels == [] || panels[0].y != y then 0 else 1 + GroupLength(panels[1..], y)
  }

  function Singles(panels: seq<Panel>): (r: seq<seq<Panel>>)
    ensures |r| == |panels| && forall i | 0 <= i < |r| :: r[i] == [panels[i]]
  {
    seq(|panels|, i requires 0 <= i < |panels| => [panels[i]])
  }

  /** The bands one source grid row becomes: each row panel by itself, then all its content. */
  function BandsOf(group: seq<Panel>): seq<seq<Panel>>
  {
    Singles(Rows(group)) + (if Content(group) == [] then [] else [Content(group)])
  }

  function Bands(ordered: seq<Panel>): seq<seq<Panel>>
  {
    if ordered == [] then []
    else
      var n := GroupLength(ordered, ordered[0].y);
      BandsOf(ordered[..n]) + Bands(ordered[n..])
  }

  /** Every band starts where the tallest panel of the one above it ends. */
  function Stack(bands: seq<seq<Panel>>, y: int): seq<Panel>
  {
    if bands == [] then []
    else Packed(bands[0], y, None, GRID_WIDTH) + Stack(bands[1..], y + Tallest(bands[0]))
  }

  function StackHeight(bands: seq<seq<Panel>>): int
  {
    if bands == [] then 0 else Tallest(bands[0]) + StackHeight(bands[1..])
  }

  function Ordered(panels: seq<Panel>): seq<Panel>
  {
    Sort(PanelLe, Unmarked(panels))
  }

  function Reflowed(panels: seq<Panel>): seq<Panel>
  {
    Stack(Bands(Ordered(panels)), 0)
  }

  lemma StackStep(bands: seq<seq<Panel>>, y: int)
    requires bands != []
    ensures Stack(bands, y) == Packed(bands[0], y, None, GRID_WIDTH) + Stack(bands[1..], y + Tallest(bands[0]))
    ensures StackHeight(bands) == Tallest(bands[0]) + StackHeight(bands[1..])
  {
    hide Packed, Tallest;
  }

  lemma StackNone(below: seq<seq<Panel>>, y: int)
    ensures Stack([] + below, y) == Stack([], y) + Stack(below, y + StackHeight([]))
    ensures StackHeight([] + below) == StackHeight([]) + StackHeight(below)
  {
    hide Packed, Tallest;
    assert [] + below == below;
    assert Stack([], y) == [] && StackHeight([]) == 0;
  }

  lemma {:induction false} StackConcat(above: seq<seq<Panel>>, below: seq<seq<Panel>>, y: int)
    ensures Stack(above + below, y) == Stack(above, y) + Stack(below, y + StackHeight(above))
    ensures StackHeight(above + below) == StackHeight(above) + StackHeight(below)
  {
    hide Packed, Tallest, Stack, StackHeight;
    if above == [] {
      StackNone(below, y);
    } else {
      var next := y + Tallest(above[0]);
      StackConcat(above[1..], below, next);
      TailOfConcat(above, below);
      StackStep(above, y);
      StackStep(above + below, y);
      var rest := Stack(below, next + StackHeight(above[1..]));
      ConcatAssoc(Packed(above[0], y, None, GRID_WIDTH), Stack(above[1..], next), rest);
      assert rest == Stack(below, y + StackHeight(above));
    }
  }

  lemma StackOne(band: seq<Panel>, y: int)
    ensures Stack([band], y) == Packed(band, y, None, GRID_WIDTH) && StackHeight([band]) == Tallest(band)
  {
    hide Packed, Tallest;
    assert [band][1..] == [];
  }

  /** A row panel is a band of its own: it is as wide as the grid. */
  lemma SingleBand(row: Panel, y: int)
    ensures Packed([row], y, None, GRID_WIDTH) == [row.(x := 0, y := y, w := GRID_WIDTH, h := HeightOf(row))]
    ensures Tallest([row]) == HeightOf(row)
  {
    assert Share(GRID_WIDTH, 1, 0) == 24;
  }

  method Keep(panels: seq<Panel>) returns (kept: seq<Panel>)
    ensures kept == Unmarked(panels)
  {
    kept := [];
    for i := 0 to |panels|
      invariant kept == Unmarked(panels[..i])
    {
      assert panels[..i + 1][..i] == panels[..i];
      if !panels[i].omit {
        kept := kept + [panels[i]];
      }
    }
    assert panels[..|panels|] == panels;
  }

  /** Removes the marked panels and closes the gaps. */
  method Reflow(panels: seq<Panel>) returns (result: seq<Panel>)
    ensures result == Reflowed(panels)
  {
    hide Stack, StackHeight, BandsOf, Bands, Sort, Unmarked;
    var kept := Keep(panels);
    var ordered := Sort(PanelLe, kept);
    result := [];
    var y, index := 0, 0;
    assert ordered[0..] == ordered;
    while index < |ordered|
      invariant index <= |ordered|
      invariant result + Stack(Bands(ordered[index..]), y) == Reflowed(panels)
    {
      ghost var before, top := result, y;
      var group;
      group, index := TakeGroup(ordered, index);
      result, y := PlaceGroup(group, result, y);
      Advance(before, BandsOf(group), Bands(ordered[index..]), top, Reflowed(panels));
    }
    EmptyStack(y);
    assert ordered[index..] == [];
  }

  /** What is placed, and what the rest will be placed as, always make up the same dashboard. */
  lemma Advance(before: seq<Panel>, bands: seq<seq<Panel>>, rest: seq<seq<Panel>>, top: int, goal: seq<Panel>)
    requires before + Stack(bands + rest, top) == goal
    ensures before + Stack(bands, top) + Stack(rest, top + StackHeight(bands)) == goal
  {
    hide Stack, StackHeight;
    StackConcat(bands, rest, top);
    ConcatAssoc(before, Stack(bands, top), Stack(rest, top + StackHeight(bands)));
  }

  /** The panels from `start` on that share its grid row, and where the next grid row begins. */
  method TakeGroup(ordered: seq<Panel>, start: nat) returns (group: seq<Panel>, index: nat)
    requires start < |ordered|
    ensures start < index <= |ordered| && group == ordered[start..index]
    ensures forall p | p in group :: p.y == ordered[start].y
    ensures index < |ordered| ==> ordered[index].y != ordered[start].y
    ensures Bands(ordered[start..]) == BandsOf(group) + Bands(ordered[index..])
  {
    hide Bands, BandsOf;
    var sourceY := ordered[start].y;
    index, group := start, [];
    while index < |ordered| && ordered[index].y == sourceY
      invariant start <= index <= |ordered| && group == ordered[start..index]
      invariant forall i | start <= i < index :: ordered[i].y == sourceY
      invariant index == start ==> ordered[index].y == sourceY
    {
      group := group + [ordered[index]];
      index := index + 1;
    }
    FirstGroup(ordered, start, index);
  }

  lemma EmptyStack(y: int)
    ensures Stack([], y) == [] && Bands([]) == []
  {
  }

  lemma FirstGroup(ordered: seq<Panel>, start: nat, end: nat)
    requires start < end <= |ordered| && (forall i | start <= i < end :: ordered[i].y == ordered[start].y)
    requires end < |ordered| ==> ordered[end].y != ordered[start].y
    ensures Bands(ordered[start..]) == BandsOf(ordered[start..end]) + Bands(ordered[end..])
  {
    hide BandsOf;
    var rest := ordered[start..];
    var n := GroupLength(rest, rest[0].y);
    assert n == end - start by {
      assert n < |rest| ==> rest[n] == ordered[start + n];
      assert end < |ordered| ==> rest[end - start] == ordered[end];
    }
    assert rest[..n] == ordered[start..end] && rest[n..] == ordered[end..];
  }

  /** Places the row panels of one source row one below the other, and its content below them. */
  method PlaceGroup(group: seq<Panel>, placed: seq<Panel>, top: int) returns (result: seq<Panel>, y: int)
    ensures result == placed + Stack(BandsOf(group), top)
    ensures y == top + StackHeight(BandsOf(group))
  {
    hide Stack, StackHeight, Tallest, Packed;
    var rows, content := Rows(group), Content(group);
    result, y := placed, top;
    EmptyStack(top);
    assert StackHeight([]) == 0 by { NoHeight(); }
    for k := 0 to |rows|
      invariant result == placed + Stack(Singles(rows)[..k], top)
      invariant y == top + StackHeight(Singles(rows)[..k])
    {
      var row := rows[k].(x := 0, y := y, w := GRID_WIDTH, h := HeightOf(rows[k]));
      StackNext(Singles(rows), k, top);
      SingleBand(rows[k], y);
      y := y + row.h;
      result := result + [row];
    }
    assert Singles(rows)[..|rows|] == Singles(rows);
    if content != [] {
      var band := new Panel[|content|](i requires 0 <= i < |content| => content[i]);
      assert band[..] == content;
      StackConcat(Singles(rows), [content], top);
      StackOne(content, y);
      y := PackRow(band, y, None);
      result := result + band[..];
    } else {
      assert BandsOf(group) == Singles(rows);
    }
  }

  lemma NoHeight()
    ensures StackHeight([]) == 0
  {
  }

  lemma StackNext(bands: seq<seq<Panel>>, k: nat, top: int)
    requires k < |bands|
    ensures Stack(bands[..k + 1], top) ==
            Stack(bands[..k], top) + Packed(bands[k], top + StackHeight(bands[..k]), None, GRID_WIDTH)
    ensures StackHeight(bands[..k + 1]) == StackHeight(bands[..k]) + Tallest(bands[k])
  {
    hide Stack, StackHeight, Packed, Tallest;
    assert bands[..k + 1] == bands[..k] + [bands[k]];
    StackConcat(bands[..k], [bands[k]], top);
    StackOne(bands[k], top + StackHeight(bands[..k]));
  }
}
