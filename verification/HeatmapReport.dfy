/** The heatmap of a run from its gazes to the reported cells. */
module HeatmapReport {
  import opened Domain
  import opened Sampling
  import opened Heatmap
  import opened HeatmapIntensity
  import opened HeatmapBins

  // One reported cell; its coordinates are the fractions of the screen at its centre.
  datatype HeatCell = HeatCell(screen: ScreenId, row: int, column: int, intensity: real)

  // The cells of one screen in a report are exactly the lit cells of its heat grid.
  ghost predicate ListsLit(cells: seq<HeatCell>, s: ScreenId, heat: Grid, n: nat) {
    && Square(heat, n)
    && (forall c :: c in cells && c.screen == s ==>
          0 <= c.row < n && 0 <= c.column < n && c.intensity == heat[c.row][c.column] > 0.0)
    && (forall y, x :: 0 <= y < n && 0 <= x < n && heat[y][x] > 0.0 ==> HeatCell(s, y, x, heat[y][x]) in cells)
  }

  // No cell twice: rows of one screen from top to bottom, each from left to right.
  predicate RowMajor(cells: seq<HeatCell>) {
    forall i, j :: 0 <= i < j < |cells| ==>
      cells[i].row < cells[j].row || (cells[i].row == cells[j].row && cells[i].column < cells[j].column)
  }

  method ReportScreen(s: ScreenId, heat: Grid, n: nat) returns (cells: seq<HeatCell>)
    requires Square(heat, n)
    ensures ListsLit(cells, s, heat, n)
    ensures RowMajor(cells)
    ensures forall c :: c in cells ==> c.screen == s
  {
    cells := [];
    for y := 0 to n
      invariant RowMajor(cells)
      invariant forall c :: c in cells ==>
        c.screen == s && 0 <= c.row < y && 0 <= c.column < n && c.intensity == heat[c.row][c.column] > 0.0
      invariant forall v, x :: 0 <= v < y && 0 <= x < n && heat[v][x] > 0.0 ==> HeatCell(s, v, x, heat[v][x]) in cells
    {
      for x := 0 to n
        invariant RowMajor(cells)
        invariant forall c :: c in cells ==>
          c.screen == s && 0 <= c.row <= y && 0 <= c.column < n && c.intensity == heat[c.row][c.column] > 0.0
        invariant forall c :: c in cells && c.row == y ==> c.column < x
        invariant forall v, u :: 0 <= v <= y && 0 <= u < (if v == y then x else n) && heat[v][u] > 0.0 ==>
                    HeatCell(s, v, u, heat[v][u]) in cells
      {
        if heat[y][x] <= 0.0 {
          continue;
        }
        cells := cells + [HeatCell(s, y, x, heat[y][x])];
      }
    }
  }

  ghost predicate Shown(exp: Exp, grid: Grid, n: nat, s: ScreenId, cells: seq<HeatCell>) {
    Square(grid, n) && exists heat, peak :: Normalized(Job(exp, grid, n), heat, peak) && ListsLit(cells, s, heat, n)
  }

  lemma ShownKept(exp: Exp, grid: Grid, n: nat, s: ScreenId, cells: seq<HeatCell>, more: seq<HeatCell>)
    requires Shown(exp, grid, n, s, cells)
    requires forall c :: c in more ==> c.screen != s
    ensures Shown(exp, grid, n, s, cells + more)
  {
    hide Normalized, GaussianKernel;
    var heat, peak :| Normalized(Job(exp, grid, n), heat, peak) && ListsLit(cells, s, heat, n);
    assert ListsLit(cells + more, s, heat, n);
  }

  lemma ShownAdded(exp: Exp, grid: Grid, n: nat, s: ScreenId, cells: seq<HeatCell>, more: seq<HeatCell>,
                   heat: Grid, peak: real)
    requires Square(grid, n) && Normalized(Job(exp, grid, n), heat, peak) && ListsLit(more, s, heat, n)
    requires forall c :: c in cells ==> c.screen != s
    ensures Shown(exp, grid, n, s, cells + more)
  {
    assert ListsLit(cells + more, s, heat, n);
  }

  // ---- the report as a whole ----

  // The grid a screen's gazes are binned into.
  function GazeGrid(gazes: seq<GazePoint>, dims: map<ScreenId, Extent>, n: nat, s: ScreenId): (grid: Grid)
    requires n > 0
    ensures Square(grid, n)
  {
    seq(n, y requires y >= 0 => seq(n, x requires x >= 0 => Landed(gazes, dims, n, s, y, x)))
  }

  lemma BinnedIs(gazes: seq<GazePoint>, dims: map<ScreenId, Extent>, n: nat, s: ScreenId, grid: Grid)
    requires n > 0 && Square(grid, n)
    requires forall y, x :: 0 <= y < n && 0 <= x < n ==> At(grid, y, x) == Landed(gazes, dims, n, s, y, x)
    ensures grid == GazeGrid(gazes, dims, n, s)
  {
    var other := GazeGrid(gazes, dims, n, s);
    forall y | 0 <= y < n
      ensures grid[y] == other[y]
    {
      forall x | 0 <= x < n
        ensures grid[y][x] == other[y][x]
      {
        assert At(grid, y, x) == grid[y][x];
      }
    }
  }

  // No cell of a screen twice.
  ghost predicate NoRepeats(cells: seq<HeatCell>) {
    forall i, j :: 0 <= i < j < |cells| && cells[i].screen == cells[j].screen ==>
      cells[i].row != cells[j].row || cells[i].column != cells[j].column
  }

  lemma MoreWithoutRepeats(cells: seq<HeatCell>, more: seq<HeatCell>, s: ScreenId)
    requires NoRepeats(cells) && RowMajor(more)
    requires (forall c :: c in cells ==> c.screen != s) && (forall c :: c in more ==> c.screen == s)
    ensures NoRepeats(cells + more)
  {
    var whole := cells + more;
    forall i | 0 <= i < |whole|
      ensures whole[i].screen == s <==> |cells| <= i
    {
      if i < |cells| { assert whole[i] in cells; } else { assert whole[i] in more; }
    }
  }

  // ---- what the report says about the gazes ----

  // A gaze of this screen lands within the kernel's reach of a cell.
  predicate Near(g: GazePoint, dims: map<ScreenId, Extent>, n: nat, s: ScreenId, y: int, x: int)
    requires n > 0
  {
    && g.screen == s
    && y - RADIUS <= RowOf(g, dims, n) <= y + RADIUS
    && x - RADIUS <= ColumnOf(g, dims, n) <= x + RADIUS
  }

  ghost predicate Timed(gazes: seq<GazePoint>) {
    forall g :: g in gazes && g.durationMs.Some? ==> g.durationMs.value >= 0
  }

  lemma {:induction false} LandedPositive(gazes: seq<GazePoint>, dims: map<ScreenId, Extent>, n: nat, s: ScreenId, y: int, x: int)
    requires n > 0 && Timed(gazes)
    ensures Landed(gazes, dims, n, s, y, x) >= 0.0
    ensures Landed(gazes, dims, n, s, y, x) > 0.0 <==> exists g :: g in gazes && Lands(g, dims, n, s, y, x)
  {
    hide Lands;
    if gazes != [] {
      var front, last := gazes[..|gazes| - 1], gazes[|gazes| - 1];
      assert gazes == front + [last];
      LandedPositive(front, dims, n, s, y, x);
      assert WeightOf(last) > 0;
    }
  }

  ghost predicate Reported(cells: seq<HeatCell>, s: ScreenId, y: int, x: int) {
    exists c :: c in cells && c.screen == s && c.row == y && c.column == x
  }

  ghost predicate GazedNear(gazes: seq<GazePoint>, dims: map<ScreenId, Extent>, n: nat, s: ScreenId, y: int, x: int)
    requires n > 0
  {
    exists g :: g in gazes && Near(g, dims, n, s, y, x)
  }

  ghost predicate Graded(cells: seq<HeatCell>, s: ScreenId) {
    && (forall c :: c in cells && c.screen == s ==> 0.0 < c.intensity <= 1.0)
    && (exists c :: c in cells && c.screen == s && c.intensity == 1.0)
  }

  // The report of one screen: intensities in (0, 1], the hottest exactly 1, and a
  // cell is listed exactly when one of the screen's gazes landed within reach.
  ghost predicate Faithful(cells: seq<HeatCell>, gazes: seq<GazePoint>, dims: map<ScreenId, Extent>, n: nat, s: ScreenId)
    requires n > 0
  {
    && Graded(cells, s)
    && (forall c :: c in cells && c.screen == s ==> 0 <= c.row < n && 0 <= c.column < n)
    && (forall y, x :: 0 <= y < n && 0 <= x < n ==>
          (Reported(cells, s, y, x) <==> GazedNear(gazes, dims, n, s, y, x)))
  }

  lemma NearbyIffNear(exp: Exp, grid: Grid, gazes: seq<GazePoint>, dims: map<ScreenId, Extent>, n: nat,
                      s: ScreenId, y: int, x: int)
    requires n > 0 && Timed(gazes) && Square(grid, n)
    requires forall v, u :: 0 <= v < n && 0 <= u < n ==> At(grid, v, u) == Landed(gazes, dims, n, s, v, u)
    ensures (exists gy, gx :: Nearby(Job(exp, grid, n), gy, gx, y, x)) <==> GazedNear(gazes, dims, n, s, y, x)
  {
    hide RowOf, ColumnOf, Landed, Smoothing.Valid;
    var job := Job(exp, grid, n);
    hide Job;
    if gy, gx :| Nearby(job, gy, gx, y, x) {
      LandedPositive(gazes, dims, n, s, gy, gx);
      var g :| g in gazes && Lands(g, dims, n, s, gy, gx);
      assert Near(g, dims, n, s, y, x);
    }
    if g :| g in gazes && Near(g, dims, n, s, y, x) {
      var gy, gx := RowOf(g, dims, n), ColumnOf(g, dims, n);
      LandedPositive(gazes, dims, n, s, gy, gx);
      assert Lands(g, dims, n, s, gy, gx);
      assert Nearby(job, gy, gx, y, x);
    }
  }

  lemma GridIsGazed(grid: Grid, gazes: seq<GazePoint>, dims: map<ScreenId, Extent>, n: nat, s: ScreenId)
    requires n > 0 && Timed(gazes) && Square(grid, n)
    requires exists g :: g in gazes && g.screen == s
    requires forall v, u :: 0 <= v < n && 0 <= u < n ==> At(grid, v, u) == Landed(gazes, dims, n, s, v, u)
    ensures NonNegative(grid)
    ensures exists y, x :: 0 <= y < n && 0 <= x < n && At(grid, y, x) > 0.0
  {
    hide RowOf, ColumnOf, Landed, Lands;
    forall y, x
      ensures At(grid, y, x) >= 0.0
    {
      LandedPositive(gazes, dims, n, s, y, x);
    }
    var g :| g in gazes && g.screen == s;
    LandsAtBin(g, dims, n);
    LandedPositive(gazes, dims, n, s, RowOf(g, dims, n), ColumnOf(g, dims, n));
    assert At(grid, RowOf(g, dims, n), ColumnOf(g, dims, n)) > 0.0;
  }

  lemma ListedIsReported(cells: seq<HeatCell>, s: ScreenId, heat: Grid, n: nat, y: int, x: int)
    requires ListsLit(cells, s, heat, n) && 0 <= y < n && 0 <= x < n
    ensures Reported(cells, s, y, x) <==> heat[y][x] > 0.0
  {
    if heat[y][x] > 0.0 {
      assert HeatCell(s, y, x, heat[y][x]) in cells;
    }
  }

  lemma ListedIsGraded(job: Smoothing, heat: Grid, peak: real, s: ScreenId, cells: seq<HeatCell>)
    requires job.Valid() && NonNegative(job.grid) && Normalized(job, heat, peak)
    requires exists y, x :: job.Inside(y, x) && At(job.grid, y, x) > 0.0
    requires ListsLit(cells, s, heat, job.size)
    ensures Graded(cells, s)
    ensures forall c :: c in cells && c.screen == s ==> 0 <= c.row < job.size && 0 <= c.column < job.size
  {
    IntensityMeans(job, heat, peak);
    hide Normalized, Nearby, Smoothing.Valid, At, NonNegative;
    var hy, hx :| job.Inside(hy, hx) && heat[hy][hx] == 1.0;
    assert HeatCell(s, hy, hx, heat[hy][hx]) in cells;
    forall c | c in cells && c.screen == s
      ensures 0.0 < c.intensity <= 1.0
    {
      assert job.Inside(c.row, c.column);
    }
  }

  lemma LitIffGazed(exp: Exp, grid: Grid, gazes: seq<GazePoint>, dims: map<ScreenId, Extent>, n: nat,
                    s: ScreenId, heat: Grid, peak: real, y: int, x: int)
    requires n > 0 && Timed(gazes) && Square(grid, n) && NonNegative(grid)
    requires forall v, u :: 0 <= v < n && 0 <= u < n ==> At(grid, v, u) == Landed(gazes, dims, n, s, v, u)
    requires Normalized(Job(exp, grid, n), heat, peak) && 0 <= y < n && 0 <= x < n
    ensures heat[y][x] > 0.0 <==> GazedNear(gazes, dims, n, s, y, x)
  {
    hide Landed, Timed, GazedNear, At, Normalized, NonNegative, Smoothing.Valid, Nearby, GaussianKernel;
    NearbyIffNear(exp, grid, gazes, dims, n, s, y, x);
    var job := Job(exp, grid, n);
    assert job.Inside(y, x);
    hide Job;
    NormalizedSquare(exp, grid, n, heat, peak);
    IntensityMeans(job, heat, peak);
  }

  lemma ShownIsFaithful(exp: Exp, grid: Grid, gazes: seq<GazePoint>, dims: map<ScreenId, Extent>, n: nat,
                        s: ScreenId, cells: seq<HeatCell>)
    requires n > 0 && Timed(gazes) && Shown(exp, grid, n, s, cells)
    requires exists g :: g in gazes && g.screen == s
    requires forall v, u :: 0 <= v < n && 0 <= u < n ==> At(grid, v, u) == Landed(gazes, dims, n, s, v, u)
    ensures Faithful(cells, gazes, dims, n, s)
  {
    hide Landed, At, NonNegative, GazedNear, Reported, Timed, Graded, Normalized, ListsLit, Job;
    GridIsGazed(grid, gazes, dims, n, s);
    var job := Job(exp, grid, n);
    var heat, peak :| Normalized(job, heat, peak) && ListsLit(cells, s, heat, n);
    assert exists y, x :: job.Inside(y, x) && At(job.grid, y, x) > 0.0 by {
      var y, x :| 0 <= y < n && 0 <= x < n && At(grid, y, x) > 0.0;
      assert job.Inside(y, x);
    }
    ListedIsGraded(job, heat, peak, s, cells);
    forall y, x | 0 <= y < n && 0 <= x < n
      ensures Reported(cells, s, y, x) <==> GazedNear(gazes, dims, n, s, y, x)
    {
      NormalizedSquare(exp, grid, n, heat, peak);
      LitIffGazed(exp, grid, gazes, dims, n, s, heat, peak, y, x);
      ListedIsReported(cells, s, heat, n, y, x);
    }
  }

  // A reported cell in coordinates: some gaze of the screen lies in a row and a
  // column at most two away.
  ghost predicate LookedNear(gazes: seq<GazePoint>, s: ScreenId, width: int, height: int, n: nat, r: int, c: int) {
    exists g, row, column :: g in gazes && g.screen == s && Covers(g, width, height, n, row, column)
                             && r - 2 <= row <= r + 2 && c - 2 <= column <= c + 2
  }

  ghost predicate ShowsLooks(cells: seq<HeatCell>, gazes: seq<GazePoint>, dims: map<ScreenId, Extent>, n: nat, s: ScreenId) {
    forall width: int, height: int, r, c ::
      Sized(dims, s, width, height) && width > 0 && height > 0 && 0 <= r < n && 0 <= c < n ==>
        (Reported(cells, s, r, c) <==> LookedNear(gazes, s, width, height, n, r, c))
  }

  lemma NearIsLooked(gazes: seq<GazePoint>, dims: map<ScreenId, Extent>, n: nat, s: ScreenId, width: int, height: int, r: int, c: int)
    requires n > 0 && Sized(dims, s, width, height) && width > 0 && height > 0
    ensures GazedNear(gazes, dims, n, s, r, c) <==> LookedNear(gazes, s, width, height, n, r, c)
  {
    hide RowOf, ColumnOf, Covers, Sized;
    if g :| g in gazes && Near(g, dims, n, s, r, c) {
      LandsWhereCovered(g, dims, n, s, width, height, RowOf(g, dims, n), ColumnOf(g, dims, n));
    }
    if g, row, column :| g in gazes && g.screen == s && Covers(g, width, height, n, row, column)
                         && r - 2 <= row <= r + 2 && c - 2 <= column <= c + 2 {
      LandsWhereCovered(g, dims, n, s, width, height, row, column);
      assert Near(g, dims, n, s, r, c);
    }
  }

  lemma FaithfulShowsLooks(cells: seq<HeatCell>, gazes: seq<GazePoint>, dims: map<ScreenId, Extent>, n: nat, s: ScreenId)
    requires n > 0 && Faithful(cells, gazes, dims, n, s)
    ensures ShowsLooks(cells, gazes, dims, n, s)
  {
    hide Reported, GazedNear, LookedNear, Graded, Sized;
    forall width: int, height: int, r, c |
      Sized(dims, s, width, height) && width > 0 && height > 0 && 0 <= r < n && 0 <= c < n
      ensures Reported(cells, s, r, c) <==> LookedNear(gazes, s, width, height, n, r, c)
    {
      NearIsLooked(gazes, dims, n, s, width, height, r, c);
    }
  }

  lemma LandsAtBin(g: GazePoint, dims: map<ScreenId, Extent>, n: nat)
    requires n > 0
    ensures Lands(g, dims, n, g.screen, RowOf(g, dims, n), ColumnOf(g, dims, n))
  {}

  // Smooths one screen's grid and appends its lit cells to the report.
  method AddScreen(exp: Exp, s: ScreenId, grid: Grid, n: nat, cells: seq<HeatCell>) returns (longer: seq<HeatCell>)
    requires Square(grid, n) && NoRepeats(cells) && forall c :: c in cells ==> c.screen != s
    ensures NoRepeats(longer) && Shown(exp, grid, n, s, longer)
    ensures forall c :: c in longer ==> c in cells || c.screen == s
    ensures forall t, other :: t != s && Shown(exp, other, n, t, cells) ==> Shown(exp, other, n, t, longer)
  {
    hide Job, Normalized, ListsLit, Square, NoRepeats, RowMajor, Shown;
    var heat := SmoothAndNormalize(exp, grid, n);
    ghost var peak :| Normalized(Job(exp, grid, n), heat, peak);
    NormalizedSquare(exp, grid, n, heat, peak);
    var more := ReportScreen(s, heat, n);
    ShownAdded(exp, grid, n, s, cells, more, heat, peak);
    MoreWithoutRepeats(cells, more, s);
    longer := cells + more;
    forall t, other | t != s && Shown(exp, other, n, t, cells)
      ensures Shown(exp, other, n, t, longer)
    {
      ShownKept(exp, other, n, t, cells, more);
    }
  }

  // The report holds the lit cells of every gazed screen, each once, with the
  // rescaled convolution of the screen's binned gazes as its intensity.
  method PixelHeatmap(exp: Exp, gazes: seq<GazePoint>, dims: map<ScreenId, Extent>, n: nat)
    returns (cells: seq<HeatCell>)
    requires n > 0
    ensures forall c :: c in cells ==> exists g :: g in gazes && g.screen == c.screen
    ensures NoRepeats(cells)
    ensures forall g :: g in gazes ==> Shown(exp, GazeGrid(gazes, dims, n, g.screen), n, g.screen, cells)
    ensures Timed(gazes) ==> forall g :: g in gazes ==> Faithful(cells, gazes, dims, n, g.screen)
    ensures Timed(gazes) ==> forall g :: g in gazes ==> ShowsLooks(cells, gazes, dims, n, g.screen)
  {
    hide HoldTimes, ShowsLooks, Faithful, Square, Timed, GazeGrid, NoRepeats, FirstGazeOrder, GridsHold, Shown;
    var order, grids := BinGazes(gazes, dims, n);
    OrderOnce(gazes, order);
    GridsAre(gazes, dims, n, order, grids);
    cells := [];
    assert NoRepeats(cells) by { NothingRepeats(); }
    for k := 0 to |order|
      invariant forall c :: c in cells ==> c.screen in order[..k]
      invariant NoRepeats(cells)
      invariant forall i :: 0 <= i < k ==> Shown(exp, GazeGrid(gazes, dims, n, order[i]), n, order[i], cells)
    {
      assert order[k] !in order[..k] && order[..k + 1] == order[..k] + [order[k]];
      assert forall i :: 0 <= i < k ==> order[i] in order[..k];
      cells := AddScreen(exp, order[k], grids[order[k]], n, cells);
    }
    assert order[..|order|] == order;
    forall g | g in gazes
      ensures Shown(exp, GazeGrid(gazes, dims, n, g.screen), n, g.screen, cells)
      ensures Timed(gazes) ==> Faithful(cells, gazes, dims, n, g.screen) && ShowsLooks(cells, gazes, dims, n, g.screen)
    {
      assert g.screen in order;
      if Timed(gazes) {
        GazeGridAt(gazes, dims, n, g.screen);
        ShownIsFaithful(exp, GazeGrid(gazes, dims, n, g.screen), gazes, dims, n, g.screen, cells);
        FaithfulShowsLooks(cells, gazes, dims, n, g.screen);
      }
    }
  }

  lemma GazeGridAt(gazes: seq<GazePoint>, dims: map<ScreenId, Extent>, n: nat, s: ScreenId)
    requires n > 0
    ensures forall y, x :: 0 <= y < n && 0 <= x < n ==>
              At(GazeGrid(gazes, dims, n, s), y, x) == Landed(gazes, dims, n, s, y, x)
  {}

  lemma GridsAre(gazes: seq<GazePoint>, dims: map<ScreenId, Extent>, n: nat,
                 order: seq<ScreenId>, grids: map<ScreenId, Grid>)
    requires n > 0 && Binned(gazes, dims, n, order, grids)
    ensures forall s :: s in order ==> s in grids && grids[s] == GazeGrid(gazes, dims, n, s)
  {
    SameScreens(gazes, dims, n, order, grids);
    hide At, GazeGrid, FirstGazeOrder, Landed;
    forall s | s in grids
      ensures grids[s] == GazeGrid(gazes, dims, n, s)
    {
      BinnedIs(gazes, dims, n, s, grids[s]);
    }
  }

  lemma OrderOnce(gazes: seq<GazePoint>, order: seq<ScreenId>)
    requires FirstGazeOrder(gazes, order)
    ensures forall k :: 0 <= k < |order| ==> order[k] !in order[..k]
    ensures forall s :: s in order <==> exists g :: g in gazes && g.screen == s
  {
    forall s
      ensures s in order <==> exists g :: g in gazes && g.screen == s
    {
      if i :| 0 <= i < |gazes| && gazes[i].screen == s { assert gazes[i] in gazes; }
    }
  }

  lemma NothingRepeats()
    ensures NoRepeats([])
  {}

  lemma NormalizedSquare(exp: Exp, grid: Grid, n: nat, heat: Grid, peak: real)
    requires Square(grid, n) && Normalized(Job(exp, grid, n), heat, peak)
    ensures Square(heat, n)
  {}
}
