/** What the reflow guarantees about the dashboard it returns. */
module LayoutTheorems {
  import opened Options
  import opened Ordering
  import opened Layout

  /** A panel without its place on the grid; its height as it is drawn. */
  function Strip(p: Panel): Panel
  {
    p.(x := 0, y := 0, w := 0, h := HeightOf(p))
  }

  function Strips(s: seq<Panel>): seq<Panel>
  {
    Map(Strip, s)
  }

  function Flatten(bands: seq<seq<Panel>>): seq<Panel>
  {
    if bands == [] then [] else bands[0] + Flatten(bands[1..])
  }

  ghost predicate NonNegative(s: seq<Panel>)
  {
    forall i | 0 <= i < |s| :: s[i].h >= 0
  }

  ghost predicate Positive(bands: seq<seq<Panel>>)
  {
    forall k | 0 <= k < |bands| :: bands[k] != [] && NonNegative(bands[k])
  }

  // --- conservation -------------------------------------------------------------------------

  lemma {:induction false} StackStrips(bands: seq<seq<Panel>>, y: int)
    ensures Strips(Stack(bands, y)) == Strips(Flatten(bands))
  {
    hide Tallest;
    if bands != [] {
      var next := y + Tallest(bands[0]);
      StackStrips(bands[1..], next);
      var head := Packed(bands[0], y, None, GRID_WIDTH);
      MapConcat(Strip, head, Stack(bands[1..], next));
      assert Strips(head) == Strips(bands[0]);
      MapConcat(Strip, bands[0], Flatten(bands[1..]));
    }
  }

  lemma SplitStep(group: seq<Panel>)
    requires group != []
    ensures var init, last := group[..|group| - 1], group[|group| - 1];
      && multiset(group) == multiset(init) + multiset{last}
      && multiset(Rows(group)) + multiset(Content(group)) ==
         multiset(Rows(init)) + multiset(Content(init)) + multiset{last}
  {
    assert group == group[..|group| - 1] + [group[|group| - 1]];
  }

  lemma {:induction false} SplitKeepsAll(group: seq<Panel>)
    ensures multiset(Rows(group)) + multiset(Content(group)) == multiset(group)
  {
    if group != [] {
      hide Rows, Content;
      SplitKeepsAll(group[..|group| - 1]);
      SplitStep(group);
    }
  }

  lemma {:induction false} FlattenConcat(a: seq<seq<Panel>>, b: seq<seq<Panel>>)
    ensures Flatten(a + b) == Flatten(a) + Flatten(b)
  {
    if a == [] {
      assert a + b == b;
    } else {
      FlattenConcat(a[1..], b);
      assert (a + b)[1..] == a[1..] + b;
      ConcatAssoc(a[0], Flatten(a[1..]), Flatten(b));
    }
  }

  lemma {:induction false} FlattenSingles(rows: seq<Panel>)
    ensures Flatten(Singles(rows)) == rows
  {
    if rows != [] {
      assert Singles(rows)[1..] == Singles(rows[1..]);
      FlattenSingles(rows[1..]);
    }
  }

  lemma FlattenBandsOf(group: seq<Panel>)
    ensures Flatten(BandsOf(group)) == Rows(group) + Content(group)
  {
    hide Rows, Content;
    FlattenSingles(Rows(group));
    if Content(group) == [] {
      assert BandsOf(group) == Singles(Rows(group));
    } else {
      FlattenConcat(Singles(Rows(group)), [Content(group)]);
      assert [Content(group)][1..] == [];
      assert Flatten([Content(group)]) == Content(group);
    }
  }

  lemma {:induction false} BandsKeepAll(ordered: seq<Panel>)
    ensures multiset(Flatten(Bands(ordered))) == multiset(ordered)
  {
    hide Rows, Content, BandsOf;
    if ordered != [] {
      var n := GroupLength(ordered, ordered[0].y);
      var group, rest := ordered[..n], ordered[n..];
      BandsKeepAll(rest);
      SplitKeepsAll(group);
      FlattenBandsOf(group);
      FlattenConcat(BandsOf(group), Bands(rest));
      assert ordered == group + rest;
    }
  }

  /** The panels that come out are exactly the unmarked ones that went in, each with its own height. */
  lemma ReflowKeepsPanels(panels: seq<Panel>)
    ensures multiset(Strips(Reflowed(panels))) == multiset(Strips(Unmarked(panels)))
  {
    hide Stack, Bands, Sort, Unmarked;
    var ordered := Ordered(panels);
    StackStrips(Bands(ordered), 0);
    BandsKeepAll(ordered);
    MapPermutation(Strip, Flatten(Bands(ordered)), ordered);
    MapPermutation(Strip, ordered, Unmarked(panels));
  }

  // --- geometry -----------------------------------------------------------------------------

  predicate Apart(a: Panel, b: Panel)
  {
    a.x + a.w <= b.x || b.x + b.w <= a.x || a.y + a.h <= b.y || b.y + b.h <= a.y
  }

  ghost predicate AllApart(s: seq<Panel>)
  {
    forall i, j | 0 <= i < j < |s| :: Apart(s[i], s[j])
  }

  /** Panels at or below `y`; the heights drawn are positive. */
  ghost predicate From(s: seq<Panel>, y: int)
  {
    forall i | 0 <= i < |s| :: s[i].y >= y && s[i].h >= 1 && !s[i].omit
  }

  ghost predicate Kept(bands: seq<seq<Panel>>)
  {
    forall k, i | 0 <= k < |bands| && 0 <= i < |bands[k]| :: !bands[k][i].omit
  }

  lemma {:induction false} StackFrom(bands: seq<seq<Panel>>, y: int)
    requires Positive(bands) && Kept(bands)
    ensures From(Stack(bands, y), y)
  {
    if bands != [] {
      StackFrom(bands[1..], y + Tallest(bands[0]));
      assert HeightOf(bands[0][0]) >= 1;
    }
  }

  lemma PackedApart(band: seq<Panel>, y: int)
    ensures AllApart(Packed(band, y, None, GRID_WIDTH))
    ensures forall i | 0 <= i < |band| ::
              Packed(band, y, None, GRID_WIDTH)[i].y == y && Packed(band, y, None, GRID_WIDTH)[i].h <= Tallest(band)
  {
    var n := |band|;
    var packed := Packed(band, y, None, GRID_WIDTH);
    forall i, j | 0 <= i < j < n ensures Apart(packed[i], packed[j]) {
      EdgesAscend(GRID_WIDTH, n, i, j);
    }
  }

  lemma {:induction false} StackApart(bands: seq<seq<Panel>>, y: int)
    requires Positive(bands) && Kept(bands)
    ensures AllApart(Stack(bands, y))
  {
    hide Packed, Tallest;
    if bands != [] {
      var next := y + Tallest(bands[0]);
      StackFrom(bands[1..], next);
      StackApart(bands[1..], next);
      PackedApart(bands[0], y);
      var head, rest := Packed(bands[0], y, None, GRID_WIDTH), Stack(bands[1..], next);
      forall i, j | 0 <= i < j < |head + rest| ensures Apart((head + rest)[i], (head + rest)[j]) {
        if i < |head| <= j {
          assert (head + rest)[j] == rest[j - |head|];
        }
      }
    }
  }

  lemma {:induction false} ColumnCovered(width: nat, n: nat, k: nat, column: nat) returns (i: nat)
    requires k <= n && column < Edge(width, n, k)
    ensures i < k && Edge(width, n, i) <= column < Edge(width, n, i) + Share(width, n, i)
  {
    if column < Edge(width, n, k - 1) {
      i := ColumnCovered(width, n, k - 1, column);
    } else {
      i := k - 1;
    }
  }

  /** Some panel of the band that starts at `y` lies over the column. */
  ghost predicate Covered(s: seq<Panel>, y: int, column: int)
  {
    exists i | 0 <= i < |s| :: s[i].y == y && s[i].x <= column < s[i].x + s[i].w
  }

  /** A height at which a band may start: the top, or the bottom of some panel, with no panel across it. */
  ghost predicate Seam(s: seq<Panel>, top: int, y: int)
  {
    && (y == top || exists i | 0 <= i < |s| :: s[i].y + s[i].h == y)
    && forall i | 0 <= i < |s| :: s[i].y >= y || s[i].y + s[i].h <= y
  }

  lemma {:induction false} StackCoversAndSeams(bands: seq<seq<Panel>>, y: int, j: nat, column: nat)
    requires Positive(bands) && Kept(bands) && j < |Stack(bands, y)| && column < GRID_WIDTH
    ensures Covered(Stack(bands, y), Stack(bands, y)[j].y, column)
    ensures Seam(Stack(bands, y), y, Stack(bands, y)[j].y)
  {
    hide Tallest, Packed, Seam, Covered;
    var next := y + Tallest(bands[0]);
    var head, rest := Packed(bands[0], y, None, GRID_WIDTH), Stack(bands[1..], next);
    PackedApart(bands[0], y);
    if j < |head| {
      HeadCovered(bands, y, column);
      HeadSeam(bands, y);
    } else {
      assert (head + rest)[j] == rest[j - |head|];
      StackFrom(bands[1..], next);
      StackCoversAndSeams(bands[1..], next, j - |head|, column);
      CoveredBelow(head, rest, rest[j - |head|].y, column);
      SeamBelow(bands, y, rest[j - |head|].y);
    }
  }

  lemma CoveredBelow(head: seq<Panel>, rest: seq<Panel>, at: int, column: int)
    requires Covered(rest, at, column)
    ensures Covered(head + rest, at, column)
  {
    var i :| 0 <= i < |rest| && rest[i].y == at && rest[i].x <= column < rest[i].x + rest[i].w;
    assert (head + rest)[|head| + i] == rest[i];
  }

  lemma HeadCovered(bands: seq<seq<Panel>>, y: int, column: nat)
    requires bands != [] && bands[0] != [] && column < GRID_WIDTH
    ensures Covered(Stack(bands, y), y, column)
  {
    var n := |bands[0]|;
    EdgesFillWidth(GRID_WIDTH, n);
    var i := ColumnCovered(GRID_WIDTH, n, n, column);
    var all := Stack(bands, y);
    assert all[i] == Moved(bands[0], y, None, GRID_WIDTH, i);
  }

  lemma HeadSeam(bands: seq<seq<Panel>>, y: int)
    requires bands != [] && Positive(bands) && Kept(bands)
    ensures Seam(Stack(bands, y), y, y)
  {
    hide Packed;
    StackFrom(bands, y);
  }

  lemma SeamBelow(bands: seq<seq<Panel>>, y: int, at: int)
    requires bands != [] && Positive(bands) && Kept(bands) && at >= y + Tallest(bands[0])
    requires Seam(Stack(bands[1..], y + Tallest(bands[0])), y + Tallest(bands[0]), at)
    ensures Seam(Stack(bands, y), y, at)
  {
    hide Stack, Packed, Tallest;
    var next := y + Tallest(bands[0]);
    var head := Packed(bands[0], y, None, GRID_WIDTH);
    StackStep(bands, y);
    PackedApart(bands[0], y);
    PackedTallest(bands[0], y);
    SeamUnder(head, Stack(bands[1..], next), y, next, at);
  }

  /** Some panel of a packed band reaches down to its tallest's lower edge. */
  lemma PackedTallest(band: seq<Panel>, y: int)
    requires band != []
    ensures var packed := Packed(band, y, None, GRID_WIDTH);
            exists i | 0 <= i < |packed| :: packed[i].y + packed[i].h == y + Tallest(band)
  {
    hide Tallest;
    var packed := Packed(band, y, None, GRID_WIDTH);
    PackedApart(band, y);
    var i :| 0 <= i < |band| && HeightOf(band[i]) == Tallest(band);
    assert packed[i].y + packed[i].h == y + Tallest(band);
  }

  lemma SeamUnder(head: seq<Panel>, rest: seq<Panel>, top: int, next: int, at: int)
    requires forall i | 0 <= i < |head| :: head[i].y + head[i].h <= next
    requires exists i | 0 <= i < |head| :: head[i].y + head[i].h == next
    requires at >= next && Seam(rest, next, at)
    ensures Seam(head + rest, top, at)
  {
    var all := head + rest;
    if at == next {
      var i :| 0 <= i < |head| && head[i].y + head[i].h == next;
      assert all[i].y + all[i].h == at;
    } else {
      var i :| 0 <= i < |rest| && rest[i].y + rest[i].h == at;
      assert all[|head| + i] == rest[i];
    }
    forall i | 0 <= i < |all| ensures all[i].y >= at || all[i].y + all[i].h <= at {
      if i >= |head| {
        assert all[i] == rest[i - |head|];
      }
    }
  }

  lemma {:induction false} UnmarkedElements(panels: seq<Panel>)
    ensures forall p | p in Unmarked(panels) :: p in panels && !p.omit
  {
    if panels != [] {
      UnmarkedElements(panels[..|panels| - 1]);
    }
  }

  lemma {:induction false} BandsElements(ordered: seq<Panel>)
    ensures forall k | 0 <= k < |Bands(ordered)| :: Bands(ordered)[k] != []
    ensures forall k, i | 0 <= k < |Bands(ordered)| && 0 <= i < |Bands(ordered)[k]| :: Bands(ordered)[k][i] in ordered
  {
    hide Rows, Content;
    if ordered != [] {
      var n := GroupLength(ordered, ordered[0].y);
      BandsElements(ordered[n..]);
      var head, rest := BandsOf(ordered[..n]), Bands(ordered[n..]);
      forall k, i | 0 <= k < |head| && 0 <= i < |head[k]| ensures head[k][i] in ordered {
        if k < |Rows(ordered[..n])| {
          assert head[k][i] == Rows(ordered[..n])[k];
          assert head[k][i] in Rows(ordered[..n]);
        } else {
          assert head[k][i] in Content(ordered[..n]);
        }
      }
    }
  }

  lemma DashboardBands(panels: seq<Panel>)
    requires NonNegative(panels)
    ensures Positive(Bands(Ordered(panels))) && Kept(Bands(Ordered(panels)))
  {
    hide Bands, Unmarked, Sort;
    var ordered := Ordered(panels);
    BandsElements(ordered);
    UnmarkedElements(panels);
    SameElements(ordered, Unmarked(panels));
    forall k, i | 0 <= k < |Bands(ordered)| && 0 <= i < |Bands(ordered)[k]|
      ensures Bands(ordered)[k][i].h >= 0 && !Bands(ordered)[k][i].omit
    {
      assert Bands(ordered)[k][i] in ordered;
    }
  }

  /** No two panels of a reflowed dashboard overlap. */
  lemma ReflowDisjoint(panels: seq<Panel>)
    requires NonNegative(panels)
    ensures AllApart(Reflowed(panels))
  {
    hide Bands, Stack, Ordered;
    DashboardBands(panels);
    StackApart(Bands(Ordered(panels)), 0);
  }

  /** Every band fills all 24 columns, and starts at the top or where the tallest panel above it ends. */
  lemma ReflowLeavesNoGap(panels: seq<Panel>, j: nat, column: nat)
    requires NonNegative(panels) && j < |Reflowed(panels)| && column < GRID_WIDTH
    ensures Covered(Reflowed(panels), Reflowed(panels)[j].y, column)
    ensures Seam(Reflowed(panels), 0, Reflowed(panels)[j].y)
  {
    hide Bands, Stack, Ordered, Covered, Seam;
    DashboardBands(panels);
    StackCoversAndSeams(Bands(Ordered(panels)), 0, j, column);
  }
}
