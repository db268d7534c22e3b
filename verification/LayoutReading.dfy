/** In what order, at what heights and how wide a reflowed dashboard shows its panels. */
module LayoutReading {
  import opened Options
  import opened Ordering
  import opened Layout
  import opened LayoutTheorems

  /** The reading order: by source row, row panels before content, then by column and id. */
  predicate ReadBefore(a: Panel, b: Panel)
  {
    if a.y != b.y then a.y < b.y
    else if a.isRow != b.isRow then a.isRow
    else a.x < b.x || (a.x == b.x && a.id <= b.id)
  }

  /** Both panels are content of one source row. */
  predicate OneBand(a: Panel, b: Panel)
  {
    a.y == b.y && !a.isRow && !b.isRow
  }

  /** The result shows `source[i]` as its i-th panel: unchanged but for its place, a height of zero counting as one. */
  ghost predicate ShownAs(source: Panel, shown: Panel)
  {
    shown == source.(x := shown.x, y := shown.y, w := shown.w, h := if source.h == 0 then 1 else source.h)
    && (source.isRow ==> shown.x == 0 && shown.w == 24)
  }

  /** The result is the source panels in reading order, band after band downwards. */
  ghost predicate Shows(source: seq<Panel>, result: seq<Panel>)
  {
    && |result| == |source|
    && (forall i | 0 <= i < |source| :: ShownAs(source[i], result[i]))
    && (forall i, j | 0 <= i < j < |source| ::
          if OneBand(source[i], source[j]) then result[i].y == result[j].y && result[i].x <= result[j].x
          else result[i].y < result[j].y)
  }

  // --- the order of the panels --------------------------------------------------------------

  lemma {:induction false} RowsInOrder(group: seq<Panel>)
    requires Sorted(PanelLe, group)
    ensures Sorted(PanelLe, Rows(group)) && Sorted(PanelLe, Content(group))
    ensures forall p | p in Rows(group) || p in Content(group) :: p in group
  {
    if group != [] {
      var init, last := group[..|group| - 1], group[|group| - 1];
      assert group == init + [last];
      RowsInOrder(init);
      forall p | p in Rows(init) || p in Content(init) ensures PanelLe(p, last) {
        var i :| 0 <= i < |init| && init[i] == p;
        assert group[i] == p && group[|group| - 1] == last;
      }
    }
  }

  lemma GroupReads(group: seq<Panel>, y: int)
    requires Sorted(PanelLe, group) && forall p | p in group :: p.y == y
    ensures Sorted(ReadBefore, Rows(group) + Content(group))
  {
    hide Rows, Content;
    RowsInOrder(group);
    var rows, content := Rows(group), Content(group);
    var all := rows + content;
    forall i, j | 0 <= i < j < |all| ensures ReadBefore(all[i], all[j]) {
      assert all[i] in group && all[j] in group by {
        assert all[i] in rows || all[i] in content;
        assert all[j] in rows || all[j] in content;
      }
      if j < |rows| {
        assert rows[i] in rows && rows[j] in rows && PanelLe(rows[i], rows[j]);
      } else if i >= |rows| {
        assert content[i - |rows|] in content && content[j - |rows|] in content;
        assert PanelLe(content[i - |rows|], content[j - |rows|]);
      } else {
        assert rows[i] in rows && content[j - |rows|] in content;
      }
    }
  }

  /** The bands list the panels in reading order. */
  lemma {:induction false} BandsRead(ordered: seq<Panel>)
    requires Sorted(PanelLe, ordered)
    ensures Sorted(ReadBefore, Flatten(Bands(ordered)))
    ensures forall p | p in Flatten(Bands(ordered)) :: p in ordered
    decreases |ordered|
  {
    hide Rows, Content, BandsOf;
    if ordered != [] {
      var y := ordered[0].y;
      var n := GroupLength(ordered, y);
      var group, rest := ordered[..n], ordered[n..];
      BandsRead(rest);
      GroupReads(group, y);
      RowsInOrder(group);
      FlattenBandsOf(group);
      FlattenConcat(BandsOf(group), Bands(rest));
      var head, tail := Rows(group) + Content(group), Flatten(Bands(rest));
      assert ordered == group + rest;
      forall i, j | 0 <= i < |head| && 0 <= j < |tail| ensures ReadBefore(head[i], tail[j]) {
        assert head[i] in head && tail[j] in tail && head[i] in group;
        LaterRow(ordered, n, head[i], tail[j]);
      }
      SortedJoins(head, tail);
    }
  }

  lemma LaterRow(ordered: seq<Panel>, n: nat, p: Panel, q: Panel)
    requires Sorted(PanelLe, ordered) && ordered != [] && n == GroupLength(ordered, ordered[0].y)
    requires p in ordered[..n] && q in ordered[n..]
    ensures p.y == ordered[0].y < q.y
  {
    hide GroupLength;
    var i :| 0 <= i < n && ordered[..n][i] == p;
    var j :| 0 <= j < |ordered[n..]| && ordered[n..][j] == q;
    assert ordered[n + j] == q && ordered[i] == p;
    assert j > 0 ==> PanelLe(ordered[n], ordered[n + j]);
    assert n > 0 ==> PanelLe(ordered[0], ordered[n]);
  }

  lemma SortedJoins(a: seq<Panel>, b: seq<Panel>)
    requires Sorted(ReadBefore, a) && Sorted(ReadBefore, b)
    requires forall i, j | 0 <= i < |a| && 0 <= j < |b| :: ReadBefore(a[i], b[j])
    ensures Sorted(ReadBefore, a + b)
  {
    hide ReadBefore;
  }

  // --- bands --------------------------------------------------------------------------------

  /** A band is one panel, or content of one source row, and shares no source row's content with another band. */
  ghost predicate Bundled(bands: seq<seq<Panel>>)
  {
    && (forall k | 0 <= k < |bands| :: bands[k] != [] && Alike(bands[k]))
    && (forall k, l | 0 <= k < l < |bands| :: Foreign(bands[k], bands[l]))
  }

  ghost predicate Alike(band: seq<Panel>)
  {
    forall i, j | 0 <= i < j < |band| :: OneBand(band[i], band[j])
  }

  ghost predicate Foreign(a: seq<Panel>, b: seq<Panel>)
  {
    forall p, q | p in a && q in b :: !OneBand(p, q)
  }

  lemma GroupBundled(group: seq<Panel>, y: int)
    requires forall p | p in group :: p.y == y
    ensures Bundled(BandsOf(group))
    ensures forall k, p | 0 <= k < |BandsOf(group)| && p in BandsOf(group)[k] :: p in group
  {
    hide Rows, Content;
    var bands, rows, content := BandsOf(group), Rows(group), Content(group);
    assert forall p | p in rows || p in content :: p in group;
    forall k | 0 <= k < |bands| ensures bands[k] != [] && Alike(bands[k]) && forall p | p in bands[k] :: p in group {
      if k < |rows| {
        assert bands[k] == [rows[k]] && rows[k] in rows;
      } else {
        assert bands[k] == content;
        forall i, j | 0 <= i < j < |content| ensures OneBand(content[i], content[j]) {
          assert content[i] in content && content[j] in content;
        }
      }
    }
    forall k, l | 0 <= k < l < |bands| ensures Foreign(bands[k], bands[l]) {
      assert bands[k] == [rows[k]] && rows[k] in rows;
    }
  }

  lemma {:induction false} BandsBundled(ordered: seq<Panel>)
    requires Sorted(PanelLe, ordered)
    ensures Bundled(Bands(ordered))
    decreases |ordered|
  {
    hide BandsOf, Bundled, GroupLength;
    if ordered == [] {
      NoBands();
    } else {
      var n := GroupLength(ordered, ordered[0].y);
      BandsBundled(ordered[n..]);
      GroupBundled(ordered[..n], ordered[0].y);
      GroupsForeign(ordered, n);
      Join(BandsOf(ordered[..n]), Bands(ordered[n..]));
    }
  }

  lemma NoBands()
    ensures Bundled([])
  {
  }

  lemma GroupsForeign(ordered: seq<Panel>, n: nat)
    requires Sorted(PanelLe, ordered) && ordered != [] && n == GroupLength(ordered, ordered[0].y)
    ensures var head, tail := BandsOf(ordered[..n]), Bands(ordered[n..]);
            forall k, l | 0 <= k < |head| && 0 <= l < |tail| :: Foreign(head[k], tail[l])
  {
    hide BandsOf, Bands, GroupLength, OneBand, Bundled;
    var head, tail := BandsOf(ordered[..n]), Bands(ordered[n..]);
    GroupBundled(ordered[..n], ordered[0].y);
    BandsElements(ordered[n..]);
    forall k, l | 0 <= k < |head| && 0 <= l < |tail| ensures Foreign(head[k], tail[l]) {
      forall p, q | p in head[k] && q in tail[l] ensures !OneBand(p, q) {
        var i :| 0 <= i < |tail[l]| && tail[l][i] == q;
        LaterRow(ordered, n, p, tail[l][i]);
        RowsApart(p, q);
      }
    }
  }

  lemma RowsApart(p: Panel, q: Panel)
    requires p.y < q.y
    ensures !OneBand(p, q)
  {
  }

  lemma Join(head: seq<seq<Panel>>, tail: seq<seq<Panel>>)
    requires Bundled(head) && Bundled(tail)
    requires forall k, l | 0 <= k < |head| && 0 <= l < |tail| :: Foreign(head[k], tail[l])
    ensures Bundled(head + tail)
  {
    hide Alike, Foreign;
    var all := head + tail;
    forall k, l | 0 <= k < l < |all| ensures Foreign(all[k], all[l]) {
      if k >= |head| {
        assert all[k] == tail[k - |head|] && all[l] == tail[l - |head|];
      } else if l >= |head| {
        assert all[l] == tail[l - |head|];
      }
    }
  }

  // --- places -------------------------------------------------------------------------------

  lemma ContentOnly(band: seq<Panel>, i: nat)
    requires Alike(band) && i < |band| && |band| > 1
    ensures !band[i].isRow
  {
    if i == 0 {
      assert OneBand(band[0], band[1]);
    } else {
      assert OneBand(band[0], band[i]);
    }
  }

  lemma PackedShows(band: seq<Panel>, y: int)
    requires band != [] && Alike(band)
    ensures var packed := Packed(band, y, None, GRID_WIDTH);
            Shows(band, packed) && forall i | 0 <= i < |packed| :: packed[i].y == y
  {
    var packed := Packed(band, y, None, GRID_WIDTH);
    forall i | 0 <= i < |band| ensures ShownAs(band[i], packed[i]) {
      if |band| > 1 {
        ContentOnly(band, i);
      } else {
        SingleBand(band[0], y);
        assert band == [band[0]];
      }
    }
    forall i, j | 0 <= i < j < |band| ensures packed[i].x <= packed[j].x {
      EdgesAscend(GRID_WIDTH, |band|, i, j);
    }
  }

  lemma {:induction false} StackShows(bands: seq<seq<Panel>>, y: int)
    requires Positive(bands) && Kept(bands) && Bundled(bands)
    ensures Shows(Flatten(bands), Stack(bands, y))
  {
    hide Packed, Tallest, Shows, Bundled, Alike;
    if bands == [] {
      NothingShown();
    } else {
      var next := y + Tallest(bands[0]);
      var head, rest := Packed(bands[0], y, None, GRID_WIDTH), Stack(bands[1..], next);
      FirstBundled(bands);
      PackedShows(bands[0], y);
      StackShows(bands[1..], next);
      StackFrom(bands[1..], next);
      TallPositive(bands[0]);
      ShowsJoin(bands[0], head, Flatten(bands[1..]), rest, y, next);
    }
  }

  lemma NothingShown()
    ensures Shows(Flatten([]), Stack([], 0))
  {
  }

  lemma TallPositive(band: seq<Panel>)
    requires band != [] && NonNegative(band)
    ensures Tallest(band) >= 1
  {
    assert HeightOf(band[0]) <= Tallest(band);
  }

  lemma FirstBundled(bands: seq<seq<Panel>>)
    requires bands != [] && Bundled(bands)
    ensures bands[0] != [] && Alike(bands[0]) && Bundled(bands[1..])
    ensures Foreign(bands[0], Flatten(bands[1..]))
  {
    hide Alike, OneBand;
    forall p, q | p in bands[0] && q in Flatten(bands[1..]) ensures !OneBand(p, q) {
      var k := BandOf(bands[1..], q);
      assert Foreign(bands[0], bands[k + 1]);
    }
  }

  lemma {:induction false} BandOf(bands: seq<seq<Panel>>, p: Panel) returns (k: nat)
    requires p in Flatten(bands)
    ensures k < |bands| && p in bands[k]
  {
    if p in bands[0] {
      k := 0;
    } else {
      k := BandOf(bands[1..], p);
      k := k + 1;
    }
  }

  lemma ShowsJoin(a: seq<Panel>, head: seq<Panel>, b: seq<Panel>, rest: seq<Panel>, y: int, next: int)
    requires Shows(a, head) && Shows(b, rest) && Foreign(a, b) && y < next
    requires forall i | 0 <= i < |head| :: head[i].y == y
    requires forall i | 0 <= i < |rest| :: rest[i].y >= next
    ensures Shows(a + b, head + rest)
  {
    hide OneBand, ShownAs;
    var source, result := a + b, head + rest;
    forall i, j | 0 <= i < j < |source|
      ensures if OneBand(source[i], source[j]) then result[i].y == result[j].y && result[i].x <= result[j].x
              else result[i].y < result[j].y
    {
      if j < |a| {
        assert source[i] == a[i] && source[j] == a[j];
      } else if i >= |a| {
        assert source[i] == b[i - |a|] && source[j] == b[j - |a|];
      } else {
        assert source[i] in a && source[j] in b;
      }
    }
  }

  /**
   A reflowed dashboard shows the unmarked panels in reading order: content of one source row side by side,
   everything else further down than what is read before it, row panels across the whole grid.
   */
  lemma ReflowReads(panels: seq<Panel>) returns (source: seq<Panel>)
    requires NonNegative(panels)
    ensures multiset(source) == multiset(Unmarked(panels))
    ensures Sorted(ReadBefore, source) && Shows(source, Reflowed(panels))
  {
    hide Bands, Stack, Unmarked, Sort, ReadBefore, Shows, Bundled;
    var ordered := Ordered(panels);
    source := Flatten(Bands(ordered));
    OrderedSorted(panels);
    BandsKeepAll(ordered);
    BandsRead(ordered);
    BandsBundled(ordered);
    DashboardBands(panels);
    StackShows(Bands(ordered), 0);
  }

  lemma OrderedSorted(panels: seq<Panel>)
    ensures Sorted(PanelLe, Ordered(panels)) && multiset(Ordered(panels)) == multiset(Unmarked(panels))
  {
    hide Unmarked, Sort;
    assert Total(PanelLe) && Transitive(PanelLe);
    SortSorts(PanelLe, Unmarked(panels));
  }

  /** Exactly the panels without the mark are kept. */
  lemma {:induction false} UnmarkedAre(panels: seq<Panel>, p: Panel)
    ensures multiset(Unmarked(panels))[p] == if p.omit then 0 else multiset(panels)[p]
  {
    if panels != [] {
      var init, last := panels[..|panels| - 1], panels[|panels| - 1];
      assert panels == init + [last];
      UnmarkedAre(init, p);
    }
  }

  // --- widths -------------------------------------------------------------------------------

  /** The panels of a band are equally wide but for one column, and the wider ones stand left. */
  lemma SharesAreEven(width: nat, n: nat, i: nat, j: nat)
    requires i < j < n
    ensures Share(width, n, j) <= Share(width, n, i) <= Share(width, n, j) + 1
  {
  }
}
