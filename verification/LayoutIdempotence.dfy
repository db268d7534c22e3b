/**
 When reflowing twice is reflowing once.  A band of more than 24 content panels leaves its panels
 from the 25th on without width at one and the same place, where only their ids order them; the
 second reflow puts those in id order.
 */
module LayoutIdempotence {
  import opened Options
  import opened Ordering
  import opened Layout
  import opened LayoutTheorems

  /** The panels of a band beyond the grid's 24 columns stand in id order. */
  ghost predicate TailSorted(band: seq<Panel>)
  {
    forall i, j | GRID_WIDTH <= i < j < |band| :: band[i].id <= band[j].id
  }

  ghost predicate TailsSorted(bands: seq<seq<Panel>>)
  {
    forall k | 0 <= k < |bands| :: TailSorted(bands[k])
  }

  /** A band is one row panel, or content only. */
  ghost predicate IsBand(band: seq<Panel>)
  {
    && band != []
    && (band[0].isRow ==> |band| == 1)
    && forall i | 0 <= i < |band| :: band[i].isRow == band[0].isRow
  }

  ghost predicate AllBands(bands: seq<seq<Panel>>)
  {
    forall k | 0 <= k < |bands| :: IsBand(bands[k])
  }

  lemma {:induction false} BandsAreBands(ordered: seq<Panel>)
    ensures AllBands(Bands(ordered))
  {
    hide BandsOf, IsBand, GroupLength;
    if ordered != [] {
      var n := GroupLength(ordered, ordered[0].y);
      BandsAreBands(ordered[n..]);
      GroupBands(ordered[..n]);
      JoinBands(BandsOf(ordered[..n]), Bands(ordered[n..]));
    }
  }

  lemma JoinBands(a: seq<seq<Panel>>, b: seq<seq<Panel>>)
    requires AllBands(a) && AllBands(b)
    ensures AllBands(a + b)
  {
    hide IsBand;
  }

  lemma GroupBands(group: seq<Panel>)
    ensures AllBands(BandsOf(group))
  {
    hide Rows, Content;
    forall k | 0 <= k < |BandsOf(group)| ensures IsBand(BandsOf(group)[k]) {
      if k < |Rows(group)| {
        assert Rows(group)[k] in Rows(group);
      } else {
        forall i | 0 <= i < |Content(group)| ensures !Content(group)[i].isRow {
          assert Content(group)[i] in Content(group);
        }
      }
    }
  }

  // --- packing what is packed ---------------------------------------------------------------

  /** The bands as they stand on the grid. */
  function Placed(bands: seq<seq<Panel>>, y: int): seq<seq<Panel>>
  {
    if bands == [] then []
    else [Packed(bands[0], y, None, GRID_WIDTH)] + Placed(bands[1..], y + Tallest(bands[0]))
  }

  lemma {:induction false} FlattenPlaced(bands: seq<seq<Panel>>, y: int)
    ensures Flatten(Placed(bands, y)) == Stack(bands, y)
  {
    hide Packed, Tallest;
    if bands != [] {
      FlattenPlaced(bands[1..], y + Tallest(bands[0]));
    }
  }

  lemma {:induction false} TallestSame(a: seq<Panel>, b: seq<Panel>)
    requires |a| == |b| && forall i | 0 <= i < |a| :: HeightOf(a[i]) == HeightOf(b[i])
    ensures Tallest(a) == Tallest(b)
  {
    if |a| > 0 {
      assert Tallest(a) == Tallest(b) by {
        var i :| 0 <= i < |a| && HeightOf(a[i]) == Tallest(a);
        var j :| 0 <= j < |b| && HeightOf(b[j]) == Tallest(b);
        assert HeightOf(b[i]) <= Tallest(b) && HeightOf(a[j]) <= Tallest(a);
      }
    }
  }

  lemma RepackOne(band: seq<Panel>, y: int)
    ensures var packed := Packed(band, y, None, GRID_WIDTH);
            Packed(packed, y, None, GRID_WIDTH) == packed && Tallest(packed) == Tallest(band)
  {
    TallestSame(Packed(band, y, None, GRID_WIDTH), band);
  }

  lemma {:induction false} RestackPlaced(bands: seq<seq<Panel>>, y: int)
    ensures Stack(Placed(bands, y), y) == Stack(bands, y)
  {
    hide Packed, Tallest;
    if bands != [] {
      RestackPlaced(bands[1..], y + Tallest(bands[0]));
      RepackOne(bands[0], y);
    }
  }

  /** Read back from the grid, the placed bands are found again. */
  lemma {:induction false} BandsFound(bands: seq<seq<Panel>>, y: int)
    requires Positive(bands) && Kept(bands) && AllBands(bands)
    ensures Bands(Stack(bands, y)) == Placed(bands, y)
  {
    hide Tallest, Packed, BandsOf, IsBand;
    if bands != [] {
      var next := y + Tallest(bands[0]);
      var head, rest := Packed(bands[0], y, None, GRID_WIDTH), Stack(bands[1..], next);
      BandsFound(bands[1..], next);
      StackFrom(bands[1..], next);
      PackedApart(bands[0], y);
      HeightPositive(bands[0]);
      FirstBand(head, rest, y);
      WholeBand(bands[0], y);
    }
  }

  lemma HeightPositive(band: seq<Panel>)
    requires band != [] && NonNegative(band)
    ensures Tallest(band) >= 1
  {
    assert HeightOf(band[0]) >= 1;
  }

  lemma FirstBand(head: seq<Panel>, rest: seq<Panel>, y: int)
    requires head != [] && forall i | 0 <= i < |head| :: head[i].y == y
    requires forall i | 0 <= i < |rest| :: rest[i].y > y
    ensures Bands(head + rest) == BandsOf(head) + Bands(rest)
  {
    hide BandsOf, Bands;
    var all := head + rest;
    assert all[0..] == all && all[0..|head|] == head && all[|head|..] == rest;
    assert |head| < |all| ==> all[|head|] == rest[0];
    FirstGroup(all, 0, |head|);
  }

  lemma LastPanel(group: seq<Panel>)
    requires group != []
    ensures var init, last := group[..|group| - 1], group[|group| - 1];
            && Rows(group) == Rows(init) + (if last.isRow then [last] else [])
            && Content(group) == Content(init) + (if last.isRow then [] else [last])
            && init + [last] == group
  {
  }

  lemma {:induction false} RowsAndContent(group: seq<Panel>, isRow: bool)
    requires forall i | 0 <= i < |group| :: group[i].isRow == isRow
    ensures Rows(group) == (if isRow then group else [])
    ensures Content(group) == (if isRow then [] else group)
  {
    if group != [] {
      hide Rows, Content;
      RowsAndContent(group[..|group| - 1], isRow);
      LastPanel(group);
    }
  }

  lemma WholeBand(band: seq<Panel>, y: int)
    requires IsBand(band)
    ensures BandsOf(Packed(band, y, None, GRID_WIDTH)) == [Packed(band, y, None, GRID_WIDTH)]
  {
    hide Rows, Content;
    var packed := Packed(band, y, None, GRID_WIDTH);
    RowsAndContent(packed, band[0].isRow);
    if band[0].isRow {
      assert packed == [packed[0]];
      assert Singles(packed) == [packed];
    }
  }

  // --- order --------------------------------------------------------------------------------

  lemma PanelOrder()
    ensures Total(PanelLe) && Transitive(PanelLe)
  {
  }

  lemma {:induction false} UnmarkedAll(panels: seq<Panel>)
    requires forall i | 0 <= i < |panels| :: !panels[i].omit
    ensures Unmarked(panels) == panels
  {
    if panels != [] {
      UnmarkedAll(panels[..|panels| - 1]);
      assert panels == panels[..|panels| - 1] + [panels[|panels| - 1]];
    }
  }

  /** Beyond the 24th, every panel of a band stands at the right edge, without width. */
  lemma EdgeOfTail(n: nat, i: nat, j: nat)
    requires i < j < n
    ensures Edge(GRID_WIDTH, n, i) <= Edge(GRID_WIDTH, n, j)
    ensures i < GRID_WIDTH ==> Edge(GRID_WIDTH, n, i) < Edge(GRID_WIDTH, n, j)
    ensures GRID_WIDTH <= i ==> Edge(GRID_WIDTH, n, i) == Edge(GRID_WIDTH, n, j)
  {
    EdgesAscend(GRID_WIDTH, n, i, j);
    if n > GRID_WIDTH {
      EdgeClosedForm(GRID_WIDTH, n, i);
      EdgeClosedForm(GRID_WIDTH, n, j);
      assert GRID_WIDTH / n == 0 && GRID_WIDTH % n == GRID_WIDTH;
    }
  }

  lemma PackedSorted(band: seq<Panel>, y: int)
    ensures Sorted(PanelLe, Packed(band, y, None, GRID_WIDTH)) <==> TailSorted(band)
    ensures forall i, j | 0 <= i < j < |band| ::
              Packed(band, y, None, GRID_WIDTH)[i].x <= Packed(band, y, None, GRID_WIDTH)[j].x
  {
    var packed := Packed(band, y, None, GRID_WIDTH);
    forall i, j | 0 <= i < j < |band|
      ensures packed[i].x <= packed[j].x
      ensures PanelLe(packed[i], packed[j]) <==> (i < GRID_WIDTH || band[i].id <= band[j].id)
    {
      EdgeOfTail(|band|, i, j);
    }
  }

  /** Nondecreasing by grid row and column. */
  ghost predicate Ascending(s: seq<Panel>)
  {
    forall i, j | 0 <= i < j < |s| :: s[i].y < s[j].y || (s[i].y == s[j].y && s[i].x <= s[j].x)
  }

  /** The dashboard stands in sorted order exactly when the bands wider than the grid have sorted tails. */
  lemma {:induction false} StackSorted(bands: seq<seq<Panel>>, y: int)
    requires Positive(bands) && Kept(bands)
    ensures Sorted(PanelLe, Stack(bands, y)) <==> TailsSorted(bands)
    ensures Ascending(Stack(bands, y))
  {
    hide Tallest, Packed, TailSorted, Sorted, Ascending, TailsSorted, PanelLe;
    if bands == [] {
      EmptySorted(y);
    } else {
      var next := y + Tallest(bands[0]);
      var head, rest := Packed(bands[0], y, None, GRID_WIDTH), Stack(bands[1..], next);
      StackSorted(bands[1..], next);
      StackFrom(bands[1..], next);
      PackedApart(bands[0], y);
      PackedSorted(bands[0], y);
      HeightPositive(bands[0]);
      SortedConcat(head, rest, y);
      TailsSplit(bands);
    }
  }

  lemma EmptySorted(y: int)
    ensures Sorted(PanelLe, Stack([], y)) && Ascending(Stack([], y)) && TailsSorted([])
  {
  }

  lemma TailsSplit(bands: seq<seq<Panel>>)
    requires bands != []
    ensures TailsSorted(bands) <==> TailSorted(bands[0]) && TailsSorted(bands[1..])
  {
    hide TailSorted;
    assert forall k | 1 <= k < |bands| :: bands[k] == bands[1..][k - 1];
    assert forall k | 0 <= k < |bands[1..]| :: bands[1..][k] == bands[k + 1];
  }

  lemma SortedConcat(head: seq<Panel>, rest: seq<Panel>, y: int)
    requires forall i | 0 <= i < |head| :: head[i].y == y
    requires forall i | 0 <= i < |rest| :: rest[i].y > y
    requires forall i, j | 0 <= i < j < |head| :: head[i].x <= head[j].x
    requires Ascending(rest)
    ensures Sorted(PanelLe, head + rest) <==> Sorted(PanelLe, head) && Sorted(PanelLe, rest)
    ensures Ascending(head + rest)
  {
    var all := head + rest;
    assert forall i | 0 <= i < |head| :: all[i] == head[i];
    assert forall i | 0 <= i < |rest| :: all[|head| + i] == rest[i];
    forall i, j | 0 <= i < j < |all|
      ensures all[i].y < all[j].y || (all[i].y == all[j].y && all[i].x <= all[j].x)
      ensures i < |head| <= j ==> PanelLe(all[i], all[j])
    {
      if i >= |head| {
        assert all[i] == rest[i - |head|] && all[j] == rest[j - |head|];
      } else if j >= |head| {
        assert all[j] == rest[j - |head|];
      }
    }
    if Sorted(PanelLe, head) && Sorted(PanelLe, rest) {
      forall i, j | 0 <= i < j < |all| ensures PanelLe(all[i], all[j]) {
        if i >= |head| {
          assert all[i] == rest[i - |head|] && all[j] == rest[j - |head|];
        }
      }
    }
    if Sorted(PanelLe, all) {
      forall i, j | 0 <= i < j < |rest| ensures PanelLe(rest[i], rest[j]) {
        assert PanelLe(all[|head| + i], all[|head| + j]);
      }
      forall i, j | 0 <= i < j < |head| ensures PanelLe(head[i], head[j]) {
        assert PanelLe(all[i], all[j]);
      }
    }
  }

  // --- the converse -------------------------------------------------------------------------

  /** Panels of one grid row are all rows or all content. */
  ghost predicate Homogeneous(s: seq<Panel>)
  {
    forall i, j | 0 <= i < |s| && 0 <= j < |s| && s[i].y == s[j].y :: s[i].isRow == s[j].isRow
  }

  lemma {:induction false} StackHomogeneous(bands: seq<seq<Panel>>, y: int)
    requires Positive(bands) && Kept(bands) && AllBands(bands)
    ensures Homogeneous(Stack(bands, y))
  {
    hide Tallest;
    if bands != [] {
      var next := y + Tallest(bands[0]);
      StackHomogeneous(bands[1..], next);
      StackFrom(bands[1..], next);
      HeightPositive(bands[0]);
    }
  }

  /** On homogeneous grid rows, cutting into bands keeps the order. */
  lemma {:induction false} FlattenHomogeneous(s: seq<Panel>)
    requires Homogeneous(s)
    ensures Flatten(Bands(s)) == s
  {
    hide BandsOf, Rows, Content, Flatten;
    if s == [] {
      NothingFlat();
    } else {
      var n := GroupLength(s, s[0].y);
      var group, rest := s[..n], s[n..];
      TailHomogeneous(s, n);
      FlattenHomogeneous(rest);
      GroupAlike(s, n);
      FlattenOneKind(group, s[0].isRow);
      FlattenConcat(BandsOf(group), Bands(rest));
      assert s == group + rest;
    }
  }

  lemma NothingFlat()
    ensures Flatten([]) == []
  {
  }

  lemma TailHomogeneous(s: seq<Panel>, n: nat)
    requires Homogeneous(s) && n <= |s|
    ensures Homogeneous(s[n..])
  {
  }

  lemma GroupAlike(s: seq<Panel>, n: nat)
    requires Homogeneous(s) && s != [] && n == GroupLength(s, s[0].y)
    ensures forall i | 0 <= i < |s[..n]| :: s[..n][i].isRow == s[0].isRow
  {
    hide GroupLength;
  }

  lemma FlattenOneKind(group: seq<Panel>, isRow: bool)
    requires forall i | 0 <= i < |group| :: group[i].isRow == isRow
    ensures Flatten(BandsOf(group)) == group
  {
    hide BandsOf, Rows, Content, Flatten;
    RowsAndContent(group, isRow);
    FlattenBandsOf(group);
    assert group + [] == group && [] + group == group;
  }

  function Position(p: Panel): (int, int)
  {
    (p.y, p.x)
  }

  predicate PositionLe(a: (int, int), b: (int, int))
  {
    a.0 < b.0 || (a.0 == b.0 && a.1 <= b.1)
  }

  /** Sorting leaves the sequence of positions as it is when that already ascends. */
  lemma PositionsStay(s: seq<Panel>, i: nat)
    requires Ascending(s) && i < |s|
    ensures Position(Sort(PanelLe, s)[i]) == Position(s[i])
    ensures Sorted(PanelLe, Sort(PanelLe, s))
  {
    var sorted := Sort(PanelLe, s);
    PanelOrder();
    SortSorts(PanelLe, s);
    MapPermutation(Position, s, sorted);
    var p, q := Map(Position, s), Map(Position, sorted);
    forall j, k | 0 <= j < k < |q| ensures PositionLe(q[j], q[k]) {
      assert PanelLe(sorted[j], sorted[k]);
    }
    SortedUnique(PositionLe, p, q);
    assert p[i] == q[i];
  }

  /** On homogeneous grid rows, a reflow only moves the sorted panels; it does not reorder them. */
  lemma ReflowKeepsSortedOrder(s: seq<Panel>)
    requires Homogeneous(s) && forall i | 0 <= i < |s| :: !s[i].omit
    ensures Strips(Reflowed(s)) == Strips(Sort(PanelLe, s))
  {
    hide Bands, Stack, Strips, Homogeneous, Sort;
    var sorted := Sort(PanelLe, s);
    UnmarkedAll(s);
    HomogeneousPermutation(s, sorted);
    FlattenHomogeneous(sorted);
    StackStrips(Bands(sorted), 0);
  }

  /** If reflowing again changes nothing, the dashboard already stood in sorted order. */
  lemma StableMeansSorted(s: seq<Panel>)
    requires Ascending(s) && Homogeneous(s) && Reflowed(s) == s
    requires forall i | 0 <= i < |s| :: !s[i].omit
    ensures Sorted(PanelLe, s)
  {
    hide Reflowed, Strips, Homogeneous, Ascending, Sort;
    var sorted := Sort(PanelLe, s);
    ReflowKeepsSortedOrder(s);
    forall i, j | 0 <= i < j < |s| ensures PanelLe(s[i], s[j]) {
      PositionsStay(s, i);
      PositionsStay(s, j);
      SameIds(s, sorted, i);
      SameIds(s, sorted, j);
      assert PanelLe(sorted[i], sorted[j]);
    }
  }

  lemma SameIds(a: seq<Panel>, b: seq<Panel>, i: nat)
    requires Strips(a) == Strips(b) && i < |a|
    ensures |a| == |b| && a[i].id == b[i].id
  {
    assert |Strips(a)| == |a| && |Strips(b)| == |b|;
    assert Strips(a)[i] == Strip(a[i]) && Strips(b)[i] == Strip(b[i]);
  }

  lemma HomogeneousPermutation(a: seq<Panel>, b: seq<Panel>)
    requires Homogeneous(a) && multiset(a) == multiset(b)
    ensures Homogeneous(b)
  {
    SameElements(a, b);
    forall i, j | 0 <= i < |b| && 0 <= j < |b| && b[i].y == b[j].y ensures b[i].isRow == b[j].isRow {
      assert b[i] in a && b[j] in a;
    }
  }

  /** Reflowing twice is reflowing once exactly when no band wider than the grid has an unsorted tail. */
  lemma ReflowIdempotent(panels: seq<Panel>)
    requires NonNegative(panels)
    ensures Reflowed(Reflowed(panels)) == Reflowed(panels) <==> TailsSorted(Bands(Ordered(panels)))
  {
    hide Bands, Stack, Ordered, Unmarked, Homogeneous, Ascending, TailsSorted, AllBands;
    var bands, s := Bands(Ordered(panels)), Reflowed(panels);
    DashboardBands(panels);
    BandsAreBands(Ordered(panels));
    StackFrom(bands, 0);
    StackSorted(bands, 0);
    if TailsSorted(bands) {
      UnmarkedAll(s);
      SortKeepsSorted(PanelLe, s);
      OrderedIs(s);
      BandsFound(bands, 0);
      RestackPlaced(bands, 0);
    }
    if Reflowed(s) == s {
      StackHomogeneous(bands, 0);
      StableMeansSorted(s);
    }
  }

  lemma OrderedIs(s: seq<Panel>)
    ensures Ordered(s) == Sort(PanelLe, Unmarked(s))
  {
  }

  /** In particular on every dashboard without a band of more than 24 content panels. */
  lemma ReflowIdempotentUpToGridWidth(panels: seq<Panel>)
    requires NonNegative(panels)
    requires forall k | 0 <= k < |Bands(Ordered(panels))| :: |Bands(Ordered(panels))[k]| <= GRID_WIDTH
    ensures Reflowed(Reflowed(panels)) == Reflowed(panels)
  {
    hide Bands, Ordered, Reflowed;
    ReflowIdempotent(panels);
  }

  /** Twenty-six content panels in one grid row, the last two against id order, move when reflowed again. */
  lemma WideBandMovesAgain() returns (panels: seq<Panel>)
    ensures NonNegative(panels) && |panels| == 26
    ensures Reflowed(Reflowed(panels)) != Reflowed(panels)
  {
    hide Reflowed, Unmarked, Sort, Bands, BandsOf, Rows, Content;
    panels := seq(26, i requires 0 <= i < 26 => Panel(if i == 24 then 1 else 0, false, false, i, 0, 1, 1, ""));
    UnmarkedAll(panels);
    SortKeepsSorted(PanelLe, panels);
    assert panels[0..] == panels && panels[0..26] == panels && panels[26..] == [];
    FirstGroup(panels, 0, 26);
    EmptyStack(0);
    RowsAndContent(panels, false);
    OneContentBand(panels);
    assert Bands(panels) == [panels];
    assert !TailSorted(panels) by {
      assert panels[24].id > panels[25].id;
    }
    OrderedIs(panels);
    assert Ordered(panels) == panels && Bands(Ordered(panels))[0] == panels;
    ReflowIdempotent(panels);
  }

  lemma OneContentBand(group: seq<Panel>)
    requires Rows(group) == [] && Content(group) == group && group != []
    ensures BandsOf(group) == [group]
  {
    assert Singles([]) == [];
  }
}
