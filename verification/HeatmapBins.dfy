/** Binning gazes into per-screen grids, and the heatmap cells reported from them. */
module HeatmapBins {
  import opened Domain
  import opened RangeSums
  import opened Heatmap

  const DEFAULT_WIDTH := 390
  const DEFAULT_HEIGHT := 844

  datatype GazePoint = GazePoint(screen: ScreenId, x: real, y: real, durationMs: Option<int>)

  datatype Extent = Extent(width: Option<int>, height: Option<int>)

  // Absent and zero both fall back to the default.
  function OrElse(v: Option<int>, fallback: int): int {
    if v.Some? && v.value != 0 then v.value else fallback
  }

  function WidthOf(dims: map<ScreenId, Extent>, s: ScreenId): (w: int)
    ensures w != 0
  {
    if s in dims then OrElse(dims[s].width, DEFAULT_WIDTH) else DEFAULT_WIDTH
  }

  function HeightOf(dims: map<ScreenId, Extent>, s: ScreenId): (h: int)
    ensures h != 0
  {
    if s in dims then OrElse(dims[s].height, DEFAULT_HEIGHT) else DEFAULT_HEIGHT
  }

  function WeightOf(g: GazePoint): int {
    OrElse(g.durationMs, 1)
  }

  // Conversion to an integer drops the fraction, toward zero.
  function Truncate(v: real): int {
    if v >= 0.0 then v.Floor else -((-v).Floor)
  }

  function Scaled(v: real, extent: int, n: nat): real
    requires extent != 0
  {
    v / (extent as real) * (n as real)
  }

  function Bin(v: real, extent: int, n: nat): (cell: nat)
    requires extent != 0 && n > 0
    ensures cell < n
  {
    var t := Truncate(Scaled(v, extent, n));
    var low := if t > 0 then t else 0;
    if low < n - 1 then low else n - 1
  }

  lemma ScaledAgainst(v: real, extent: int, n: nat, cell: int)
    requires extent > 0
    ensures cell as real <= Scaled(v, extent, n) <==> cell as real * extent as real <= v * n as real
  {
    var e := extent as real;
    var q := v / e;
    assert q * e == v;
    var t := q * n as real;
    assert t * e == v * n as real;
    var c := cell as real;
    if c <= t {
      assert (t - c) * e >= 0.0;
    } else {
      assert (c - t) * e > 0.0;
    }
  }

  // The chosen cell is the one that contains the point; the first and the last
  // cell also take every point off the screen on their side.
  lemma BinContains(v: real, extent: int, n: nat, cell: nat)
    requires extent > 0 && cell < n
    ensures Bin(v, extent, n) == cell <==>
            && (cell == 0 || cell as real * extent as real <= v * n as real)
            && (cell == n - 1 || v * n as real < (cell + 1) as real * extent as real)
  {
    hide Scaled;
    ScaledAgainst(v, extent, n, cell);
    ScaledAgainst(v, extent, n, cell + 1);
  }

  function RowOf(g: GazePoint, dims: map<ScreenId, Extent>, n: nat): (y: nat)
    requires n > 0
    ensures y < n
  {
    Bin(g.y, HeightOf(dims, g.screen), n)
  }

  function ColumnOf(g: GazePoint, dims: map<ScreenId, Extent>, n: nat): (x: nat)
    requires n > 0
    ensures x < n
  {
    Bin(g.x, WidthOf(dims, g.screen), n)
  }

  predicate Lands(g: GazePoint, dims: map<ScreenId, Extent>, n: nat, s: ScreenId, y: int, x: int)
    requires n > 0
  {
    g.screen == s && RowOf(g, dims, n) == y && ColumnOf(g, dims, n) == x
  }

  // Total weight of the gazes that land in one cell of a screen.
  function Landed(gazes: seq<GazePoint>, dims: map<ScreenId, Extent>, n: nat, s: ScreenId, y: int, x: int): real
    requires n > 0
  {
    if gazes == [] then 0.0
    else
      var last := gazes[|gazes| - 1];
      Landed(gazes[..|gazes| - 1], dims, n, s, y, x) +
      if Lands(last, dims, n, s, y, x) then WeightOf(last) as real else 0.0
  }

  // Total weight of the gazes at a screen.
  function ScreenWeight(gazes: seq<GazePoint>, s: ScreenId): real {
    if gazes == [] then 0.0
    else
      var last := gazes[|gazes| - 1];
      ScreenWeight(gazes[..|gazes| - 1], s) + if last.screen == s then WeightOf(last) as real else 0.0
  }

  // Binning moves no weight off a screen and invents none.
  lemma {:induction false} BinsConserve(gazes: seq<GazePoint>, dims: map<ScreenId, Extent>, n: nat, s: ScreenId)
    requires n > 0
    ensures GridSum(n, (y, x) => Landed(gazes, dims, n, s, y, x)) == ScreenWeight(gazes, s)
  {
    hide WeightOf, RowOf, ColumnOf;
    var whole := (y: int, x: int) => Landed(gazes, dims, n, s, y, x);
    if gazes == [] {
      GridZero(n, whole);
    } else {
      var last := gazes[|gazes| - 1];
      var front := gazes[..|gazes| - 1];
      BinsConserve(front, dims, n, s);
      var rest := (y: int, x: int) => Landed(front, dims, n, s, y, x);
      var one := (y: int, x: int) => if Lands(last, dims, n, s, y, x) then WeightOf(last) as real else 0.0;
      GridAdd(n, rest, one, whole);
      GridSame(n, rest, (y, x) => Landed(front, dims, n, s, y, x));
      if last.screen == s {
        GridUnit(n, RowOf(last, dims, n), ColumnOf(last, dims, n), WeightOf(last) as real, one);
      } else {
        GridZero(n, one);
      }
    }
    GridSame(n, whole, (y, x) => Landed(gazes, dims, n, s, y, x));
  }

  function Empty(n: nat): (m: Grid)
    ensures Square(m, n)
    ensures forall y, x :: At(m, y, x) == 0.0
  {
    seq(n, _ => seq(n, _ => 0.0))
  }

  function Plus(m: Grid, y: nat, x: nat, v: real): (r: Grid)
    requires y < |m| && x < |m[y]|
    ensures |r| == |m| && forall i :: 0 <= i < |m| ==> |r[i]| == |m[i]|
    ensures forall i, j :: At(r, i, j) == At(m, i, j) + if i == y && j == x then v else 0.0
  {
    m[y := m[y][x := m[y][x] + v]]
  }

  // Screen s is gazed at before any gaze at screen t.
  ghost predicate GazedEarlier(gazes: seq<GazePoint>, s: ScreenId, t: ScreenId) {
    exists i :: 0 <= i < |gazes| && gazes[i].screen == s && forall j :: 0 <= j <= i ==> gazes[j].screen != t
  }

  // The gazed screens, each once, in the order of their first gaze.
  ghost predicate FirstGazeOrder(gazes: seq<GazePoint>, order: seq<ScreenId>) {
    && (forall s :: s in order <==> exists i :: 0 <= i < |gazes| && gazes[i].screen == s)
    && (forall i, j :: 0 <= i < j < |order| ==> order[i] != order[j] && GazedEarlier(gazes, order[i], order[j]))
  }

  lemma OrderNext(front: seq<GazePoint>, g: GazePoint, order: seq<ScreenId>)
    requires FirstGazeOrder(front, order)
    ensures FirstGazeOrder(front + [g], if g.screen in order then order else order + [g.screen])
  {
    var all := front + [g];
    var order' := if g.screen in order then order else order + [g.screen];
    forall s
      ensures s in order' <==> exists i :: 0 <= i < |all| && all[i].screen == s
    {
      if s == g.screen { assert all[|front|].screen == s; }
      if i :| 0 <= i < |front| && front[i].screen == s { assert all[i].screen == s; }
    }
    forall i, j | 0 <= i < j < |order'|
      ensures order'[i] != order'[j] && GazedEarlier(all, order'[i], order'[j])
    {
      assert order'[i] in order;
      if j < |order| {
        var a :| 0 <= a < |front| && front[a].screen == order[i] && forall b :: 0 <= b <= a ==> front[b].screen != order[j];
        assert all[a] == front[a];
      } else {
        var a :| 0 <= a < |front| && front[a].screen == order[i];
        assert all[a] == front[a];
      }
    }
  }

  // The grids hold, cell by cell, the weight that landed there.
  ghost predicate GridsHold(gazes: seq<GazePoint>, dims: map<ScreenId, Extent>, n: nat, grids: map<ScreenId, Grid>)
    requires n > 0
  {
    && (forall s :: s in grids <==> exists i :: 0 <= i < |gazes| && gazes[i].screen == s)
    && (forall s :: s in grids ==> Square(grids[s], n))
    && (forall s, y, x :: s in grids && 0 <= y < n && 0 <= x < n ==>
          At(grids[s], y, x) == Landed(gazes, dims, n, s, y, x))
  }

  ghost predicate Binned(gazes: seq<GazePoint>, dims: map<ScreenId, Extent>, n: nat,
                         order: seq<ScreenId>, grids: map<ScreenId, Grid>)
    requires n > 0
  {
    GridsHold(gazes, dims, n, grids) && FirstGazeOrder(gazes, order)
  }

  lemma {:induction false} LandsNowhere(gazes: seq<GazePoint>, dims: map<ScreenId, Extent>, n: nat, s: ScreenId, y: int, x: int)
    requires n > 0 && forall i :: 0 <= i < |gazes| ==> gazes[i].screen != s
    ensures Landed(gazes, dims, n, s, y, x) == 0.0
  {
    if gazes != [] {
      LandsNowhere(gazes[..|gazes| - 1], dims, n, s, y, x);
    }
  }

  lemma LandedNext(front: seq<GazePoint>, g: GazePoint, dims: map<ScreenId, Extent>, n: nat, s: ScreenId, y: int, x: int)
    requires n > 0
    ensures Landed(front + [g], dims, n, s, y, x) ==
            Landed(front, dims, n, s, y, x) + if Lands(g, dims, n, s, y, x) then WeightOf(g) as real else 0.0
  {
    assert (front + [g])[..|front|] == front;
  }

  lemma GridsNext(front: seq<GazePoint>, g: GazePoint, dims: map<ScreenId, Extent>, n: nat, grids: map<ScreenId, Grid>)
    requires n > 0 && GridsHold(front, dims, n, grids)
    ensures
      var before := if g.screen in grids then grids[g.screen] else Empty(n);
      && Square(before, n)
      && GridsHold(front + [g], dims, n,
                   grids[g.screen := Plus(before, RowOf(g, dims, n), ColumnOf(g, dims, n), WeightOf(g) as real)])
  {
    hide RowOf, ColumnOf, Landed, WeightOf, At, Empty, Plus;
    var before := if g.screen in grids then grids[g.screen] else Empty(n);
    var after := grids[g.screen := Plus(before, RowOf(g, dims, n), ColumnOf(g, dims, n), WeightOf(g) as real)];
    var all := front + [g];
    forall s
      ensures s in after <==> exists i :: 0 <= i < |all| && all[i].screen == s
    {
      if s == g.screen {
        assert all[|front|].screen == s;
      } else if s in grids {
        var i :| 0 <= i < |front| && front[i].screen == s;
        assert all[i].screen == s;
      }
    }
    forall s, y, x | s in after && 0 <= y < n && 0 <= x < n
      ensures At(after[s], y, x) == Landed(all, dims, n, s, y, x)
    {
      LandedNext(front, g, dims, n, s, y, x);
      if s !in grids {
        LandsNowhere(front, dims, n, s, y, x);
      }
    }
  }

  lemma SameScreens(gazes: seq<GazePoint>, dims: map<ScreenId, Extent>, n: nat,
                    order: seq<ScreenId>, grids: map<ScreenId, Grid>)
    requires n > 0 && Binned(gazes, dims, n, order, grids)
    ensures forall s :: s in order <==> s in grids
  {
    hide At, Square;
  }

  lemma BinNext(front: seq<GazePoint>, g: GazePoint, dims: map<ScreenId, Extent>, n: nat,
                order: seq<ScreenId>, grids: map<ScreenId, Grid>)
    requires n > 0 && Binned(front, dims, n, order, grids)
    ensures
      var before := if g.screen in grids then grids[g.screen] else Empty(n);
      && Square(before, n)
      && Binned(front + [g], dims, n, if g.screen in grids then order else order + [g.screen],
                grids[g.screen := Plus(before, RowOf(g, dims, n), ColumnOf(g, dims, n), WeightOf(g) as real)])
  {
    SameScreens(front, dims, n, order, grids);
    hide GridsHold, FirstGazeOrder, Empty, Plus, RowOf, ColumnOf, WeightOf, Square;
    GridsNext(front, g, dims, n, grids);
    OrderNext(front, g, order);
  }

  lemma NothingBinned(dims: map<ScreenId, Extent>, n: nat)
    requires n > 0
    ensures Binned([], dims, n, [], map[])
  {}

  // ---- binning in coordinates ----

  // The width and height a screen's gazes are measured against: its own, or those
  // of a phone where the screen has none.
  ghost predicate Sized(dims: map<ScreenId, Extent>, s: ScreenId, width: int, height: int) {
    && width == (if s in dims && dims[s].width.Some? && dims[s].width.value != 0 then dims[s].width.value else 390)
    && height == (if s in dims && dims[s].height.Some? && dims[s].height.value != 0 then dims[s].height.value else 844)
  }

  // Stretch k of n along an axis of this extent holds the coordinate; the first
  // and the last also take everything off the screen on their side.
  predicate Holds(v: real, extent: int, n: nat, k: int) {
    && 0 <= k < n
    && (k == 0 || k as real * extent as real <= v * n as real)
    && (k == n - 1 || v * n as real < (k + 1) as real * extent as real)
  }

  // The point (x, y) lies in row r and column c of the n by n grid.
  predicate Covers(g: GazePoint, width: int, height: int, n: nat, r: int, c: int) {
    Holds(g.y, height, n, r) && Holds(g.x, width, n, c)
  }

  lemma BinHolds(v: real, extent: int, n: nat, k: int)
    requires extent > 0 && n > 0
    ensures Bin(v, extent, n) == k <==> Holds(v, extent, n, k)
  {
    if 0 <= k < n { BinContains(v, extent, n, k); }
  }

  // A gaze at (x, y) lands in row r and column c exactly when
  // r * height <= y * n < (r + 1) * height and c * width <= x * n < (c + 1) * width,
  // up to the borders.
  lemma LandsWhereCovered(g: GazePoint, dims: map<ScreenId, Extent>, n: nat, s: ScreenId, width: int, height: int, r: int, c: int)
    requires n > 0 && Sized(dims, s, width, height) && width > 0 && height > 0
    ensures Lands(g, dims, n, s, r, c) <==> g.screen == s && Covers(g, width, height, n, r, c)
  {
    hide Bin, Holds;
    BinHolds(g.y, height, n, r);
    BinHolds(g.x, width, n, c);
  }

  // The time looked in one cell of a screen: a gaze without a duration, or with
  // duration 0, counts 1.
  function TimeOver(gazes: seq<GazePoint>, s: ScreenId, width: int, height: int, n: nat, r: int, c: int): int {
    if gazes == [] then 0
    else
      var g := gazes[|gazes| - 1];
      var here := g.screen == s && Covers(g, width, height, n, r, c);
      TimeOver(gazes[..|gazes| - 1], s, width, height, n, r, c)
      + if !here then 0 else if g.durationMs in {None, Some(0)} then 1 else g.durationMs.value
  }

  lemma {:induction false} LandedIsTime(gazes: seq<GazePoint>, dims: map<ScreenId, Extent>, n: nat, s: ScreenId, width: int, height: int, r: int, c: int)
    requires n > 0 && Sized(dims, s, width, height) && width > 0 && height > 0
    ensures Landed(gazes, dims, n, s, r, c) == TimeOver(gazes, s, width, height, n, r, c) as real
  {
    hide Lands, Covers, Sized;
    if gazes != [] {
      LandedIsTime(gazes[..|gazes| - 1], dims, n, s, width, height, r, c);
      LandsWhereCovered(gazes[|gazes| - 1], dims, n, s, width, height, r, c);
      GazeWeighs(gazes[|gazes| - 1]);
      hide WeightOf;
    }
  }

  lemma GazeWeighs(g: GazePoint)
    ensures WeightOf(g) == if g.durationMs in {None, Some(0)} then 1 else g.durationMs.value
  {}

  // Every cell of every grid holds the time looked there.
  ghost predicate HoldTimes(gazes: seq<GazePoint>, dims: map<ScreenId, Extent>, n: nat, grids: map<ScreenId, Grid>) {
    forall s, width: int, height: int, r, c ::
      s in grids && Sized(dims, s, width, height) && width > 0 && height > 0 && 0 <= r < n && 0 <= c < n ==>
        At(grids[s], r, c) == TimeOver(gazes, s, width, height, n, r, c) as real
  }

  lemma BinnedHoldTimes(gazes: seq<GazePoint>, dims: map<ScreenId, Extent>, n: nat, order: seq<ScreenId>, grids: map<ScreenId, Grid>)
    requires n > 0 && Binned(gazes, dims, n, order, grids)
    ensures HoldTimes(gazes, dims, n, grids)
  {
    hide Landed, TimeOver, Sized, At, Square, FirstGazeOrder;
    forall s, width: int, height: int, r, c |
      s in grids && Sized(dims, s, width, height) && width > 0 && height > 0 && 0 <= r < n && 0 <= c < n
      ensures At(grids[s], r, c) == TimeOver(gazes, s, width, height, n, r, c) as real
    {
      LandedIsTime(gazes, dims, n, s, width, height, r, c);
    }
  }

  method BinGazes(gazes: seq<GazePoint>, dims: map<ScreenId, Extent>, n: nat)
    returns (order: seq<ScreenId>, grids: map<ScreenId, Grid>)
    requires n > 0
    ensures Binned(gazes, dims, n, order, grids)
    ensures HoldTimes(gazes, dims, n, grids)
  {
    hide HoldTimes, Binned, RowOf, ColumnOf, WeightOf, At, Empty, Plus;
    order, grids := [], map[];
    NothingBinned(dims, n);
    assert gazes[..0] == [];
    for i := 0 to |gazes|
      invariant Binned(gazes[..i], dims, n, order, grids)
    {
      var g := gazes[i];
      assert gazes[..i + 1] == gazes[..i] + [g];
      BinNext(gazes[..i], g, dims, n, order, grids);
      var grid := if g.screen in grids then grids[g.screen] else Empty(n);
      if g.screen !in grids {
        order := order + [g.screen];
      }
      grids := grids[g.screen := Plus(grid, RowOf(g, dims, n), ColumnOf(g, dims, n), WeightOf(g) as real)];
    }
    assert gazes[..|gazes|] == gazes;
    BinnedHoldTimes(gazes, dims, n, order, grids);
  }
}
