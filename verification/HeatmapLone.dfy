/** One gaze alone: what the whole path from a gaze to the reported cells shows of it. */
module HeatmapLone {
  import opened Basics
  import opened Domain
  import opened RangeSums
  import opened Sampling
  import opened Heatmap
  import opened HeatmapIntensity
  import opened HeatmapBins
  import opened HeatmapReport

  // A grid with one value, and zero everywhere else.
  ghost predicate Alone(grid: Grid, row: int, column: int, v: real) {
    forall y, x :: At(grid, y, x) == if y == row && x == column then v else 0.0
  }

  // The bell around a point, in the squared distance from it.
  function BellAt(exp: Exp, dy: int, dx: int): (w: real)
    ensures w > 0.0
  {
    exp(-((dy * dy + dx * dx) as real / 2.88))
  }

  lemma BellIs(exp: Exp, dy: int, dx: int)
    ensures Bell(exp, 1.2, DistanceSquared(dy, dx)) == BellAt(exp, dy, dx)
  {
    assert DistanceSquared(dy, dx) == dy * dy + dx * dx;
  }

  lemma KernelIsBell(exp: Exp, grid: Grid, n: nat, a: int, b: int)
    requires Square(grid, n) && 0 <= a <= 4 && 0 <= b <= 4
    ensures At(Job(exp, grid, n).kernel, a, b) == BellAt(exp, a - 2, b - 2)
  {
    BellIs(exp, a - 2, b - 2);
    KernelAt(exp, a, b);
    hide Job, GaussianKernel, At, BellAt;
    JobKernel(exp, grid, n);
  }

  lemma JobKernel(exp: Exp, grid: Grid, n: nat)
    requires Square(grid, n)
    ensures Job(exp, grid, n).kernel == GaussianKernel(exp, 2, 1.2)
  {
    hide GaussianKernel, KernelSum, Symmetric;
  }

  lemma KernelAt(exp: Exp, a: int, b: int)
    requires 0 <= a <= 4 && 0 <= b <= 4
    ensures At(GaussianKernel(exp, 2, 1.2), a, b) == Bell(exp, 1.2, DistanceSquared(a - 2, b - 2))
  {
    hide Bell, DistanceSquared;
    assert Square(GaussianKernel(exp, 2, 1.2), 5);
  }

  // Only the one value hands anything on.
  lemma OneGives(job: Smoothing, row: int, column: int, v: real, y: int, x: int)
    requires job.Valid() && job.Inside(row, column) && Alone(job.grid, row, column, v)
    ensures GatherAt(job, y, x) == Portion(v, At(job.kernel, y - row + job.radius, x - column + job.radius), job.scale)
  {
    SpreadIsGather(job, y, x);
    hide GatherAt, Portion, Smoothing.Valid;
    var rows := (gy: int) => RowGives(job, gy, job.size, y, x);
    forall gy: int
      ensures rows(gy) == if gy == row then Given(job, row, column, y, x) else 0.0
    {
      var cells := (gx: int) => Given(job, gy, gx, y, x);
      forall gx: int
        ensures cells(gx) == if gy == row && gx == column then Given(job, row, column, y, x) else 0.0
      {
        PortionOfNothing(0.0, At(job.kernel, y - gy + job.radius, x - gx + job.radius), job.scale);
      }
      OnlyAt(0, job.size, column, cells);
    }
    OnlyAt(0, job.size, row, rows);
  }

  lemma OnlyAt(lo: int, hi: int, at: int, f: int -> real)
    requires lo <= at < hi && forall i :: i != at ==> f(i) == 0.0
    ensures Sum(lo, hi, f) == f(at)
  {
    SumWindow(lo, hi, at, at + 1, f);
  }

  lemma PortionsAgainst(v: real, a: real, b: real, scale: Positive)
    requires v > 0.0 && b > 0.0
    ensures Portion(v, b, scale) > 0.0
    ensures a <= b ==> Portion(v, a, scale) <= Portion(v, b, scale)
    ensures Times(Rescaled(Portion(v, a, scale), Portion(v, b, scale)), b) == a
  {
    var p, q := v * a / scale, v * b / scale;
    assert v * b > 0.0;
    assert p * scale == v * a && q * scale == v * b;
    PositiveQuotient(v * b, scale);
    if a <= b {
      assert v * a <= v * b;
      QuotientsOrdered(v * a, v * b, scale);
    }
    var h := p / q;
    assert h * q == p;
    assert h * q * scale == p * scale;
    assert h * (q * scale) == v * a;
    assert v * (h * b) == v * a;
    Cancel(v, h * b, a);
  }

  lemma PositiveQuotient(a: real, scale: Positive)
    requires a > 0.0
    ensures a / scale > 0.0
  {}

  lemma QuotientsOrdered(a: real, b: real, scale: Positive)
    requires a <= b
    ensures a / scale <= b / scale
  {
    assert b / scale - a / scale == (b - a) / scale;
  }

  lemma Cancel(v: real, a: real, b: real)
    requires v > 0.0 && v * a == v * b
    ensures a == b
  {
    assert v * (a - b) == 0.0;
  }

  lemma FartherIsLower(exp: Exp, d: int)
    requires Increasing(exp) && d >= 0
    ensures exp(-(d as real / 2.88)) <= exp(0.0)
  {
    hide Increasing;
    var x := -(d as real / 2.88);
    assert x <= 0.0;
    BelowZero(exp, x);
  }

  lemma BelowZero(exp: Exp, x: real)
    requires Increasing(exp) && x <= 0.0
    ensures exp(x) <= exp(0.0)
  {
    assert Rises(exp, x, 0.0);
  }

  lemma BellHighest(exp: Exp, dy: int, dx: int)
    requires Increasing(exp)
    ensures BellAt(exp, dy, dx) <= BellAt(exp, 0, 0) == exp(0.0)
  {
    hide Increasing;
    SquaresAdd(dy, dx);
    FartherIsLower(exp, dy * dy + dx * dx);
    assert 0.0 / 2.88 == 0.0;
  }

  lemma SquaresAdd(dy: int, dx: int)
    ensures dy * dy + dx * dx >= 0
  {}

  // What the kernel of the job gives at an offset; nothing beyond two cells.
  function Reach(exp: Exp, dy: int, dx: int): real {
    if -2 <= dy <= 2 && -2 <= dx <= 2 then BellAt(exp, dy, dx) else 0.0
  }

  lemma ReachBelow(exp: Exp, dy: int, dx: int)
    requires Increasing(exp)
    ensures Reach(exp, dy, dx) <= exp(0.0) && Reach(exp, 0, 0) == exp(0.0) > 0.0
  {
    hide BellAt, Increasing;
    BellHighest(exp, dy, dx);
    BellHighest(exp, 0, 0);
  }

  lemma KernelIsReach(exp: Exp, grid: Grid, n: nat, dy: int, dx: int)
    requires Square(grid, n)
    ensures At(Job(exp, grid, n).kernel, dy + 2, dx + 2) == Reach(exp, dy, dx)
  {
    hide BellAt, At, KernelSum;
    if -2 <= dy <= 2 && -2 <= dx <= 2 {
      KernelIsBell(exp, grid, n, dy + 2, dx + 2);
    } else {
      var job := Job(exp, grid, n);
      OutsideKernel(job.kernel, 2, dy + 2, dx + 2);
    }
  }

  // Every cell gets the value weighted by the bell around it.
  lemma AloneGathers(exp: Exp, grid: Grid, n: nat, row: int, column: int, v: real, y: int, x: int)
    requires Square(grid, n) && 0 <= row < n && 0 <= column < n && Alone(grid, row, column, v)
    ensures GatherAt(Job(exp, grid, n), y, x) == Portion(v, Reach(exp, y - row, x - column), Job(exp, grid, n).scale)
  {
    hide Job, Square, Alone, GatherAt, Portion, At, Reach, Smoothing.Valid;
    var job := Job(exp, grid, n);
    assert job.Inside(row, column);
    OneGives(job, row, column, v, y, x);
    KernelIsReach(exp, grid, n, y - row, x - column);
  }

  lemma AlonePeak(exp: Exp, grid: Grid, n: nat, row: int, column: int, v: real, peak: real)
    requires Increasing(exp) && Square(grid, n) && 0 <= row < n && 0 <= column < n
    requires v > 0.0 && Alone(grid, row, column, v) && IsPeak(Job(exp, grid, n), peak)
    ensures peak == Portion(v, exp(0.0), Job(exp, grid, n).scale)
  {
    hide Job, Square, Alone, GatherAt, Portion, Reach, Increasing, Smoothing.Valid;
    var job := Job(exp, grid, n);
    AloneGathers(exp, grid, n, row, column, v, row, column);
    var y, x :| 0 <= y < n && 0 <= x < n && GatherAt(job, y, x) == peak;
    AloneGathers(exp, grid, n, row, column, v, y, x);
    ReachBelow(exp, y - row, x - column);
    PortionsAgainst(v, Reach(exp, y - row, x - column), exp(0.0), job.scale);
  }

  // Around a lone value the rescaled heat is the bell, 1 at its centre.
  lemma AloneHeat(exp: Exp, grid: Grid, n: nat, row: int, column: int, v: real, heat: Grid, peak: real, y: int, x: int)
    requires Increasing(exp) && Square(grid, n) && 0 <= row < n && 0 <= column < n
    requires v > 0.0 && Alone(grid, row, column, v) && Normalized(Job(exp, grid, n), heat, peak)
    requires 0 <= y < n && 0 <= x < n
    ensures Square(heat, n) && Times(heat[y][x], exp(0.0)) == Reach(exp, y - row, x - column)
  {
    hide Job, Alone, GatherAt, Portion, Reach, Increasing, Times, Smoothing.Valid, Rescaled, IsPeak;
    var job := Job(exp, grid, n);
    assert job.Inside(y, x);
    assert Square(heat, n) && heat[y][x] == Rescaled(GatherAt(job, y, x), peak) && IsPeak(job, peak);
    hide Normalized, Square;
    AlonePeak(exp, grid, n, row, column, v, peak);
    AloneGathers(exp, grid, n, row, column, v, y, x);
    PortionsAgainst(v, Reach(exp, y - row, x - column), exp(0.0), job.scale);
  }

  // ---- from the gaze to the report ----

  // The duration of a gaze, or 1 when it has none.
  function Weighted(g: GazePoint): real {
    if g.durationMs in {None, Some(0)} then 1.0 else g.durationMs.value as real
  }

  lemma LoneGrid(g: GazePoint, dims: map<ScreenId, Extent>, n: nat, width: int, height: int, r: int, c: int)
    requires n > 0 && Sized(dims, g.screen, width, height) && width > 0 && height > 0
    requires Covers(g, width, height, n, r, c)
    ensures Alone(GazeGrid([g], dims, n, g.screen), r, c, Weighted(g))
  {
    GazeWeighs(g);
    hide Covers, Sized, WeightOf, Lands, GazeGrid;
    var grid := GazeGrid([g], dims, n, g.screen);
    LandsWhereCovered(g, dims, n, g.screen, width, height, r, c);
    OneCell(g, dims, n, r, c);
    forall y, x
      ensures At(grid, y, x) == if y == r && x == c then WeightOf(g) as real else 0.0
    {
      if 0 <= y < n && 0 <= x < n {
        GazeGridAt([g], dims, n, g.screen);
        LandedNext([], g, dims, n, g.screen, y, x);
        assert [] + [g] == [g];
        OneCell(g, dims, n, y, x);
      }
    }
  }

  // A gaze lands in one cell.
  lemma OneCell(g: GazePoint, dims: map<ScreenId, Extent>, n: nat, y: int, x: int)
    requires n > 0
    ensures Lands(g, dims, n, g.screen, y, x) <==> y == RowOf(g, dims, n) && x == ColumnOf(g, dims, n)
  {}

  lemma LitIsNear(exp: Exp, intensity: real, dy: int, dx: int)
    requires intensity > 0.0 && Times(intensity, exp(0.0)) == Reach(exp, dy, dx)
    ensures -2 <= dy <= 2 && -2 <= dx <= 2 && intensity * exp(0.0) == BellAt(exp, dy, dx)
  {
    hide BellAt;
    assert exp(0.0) > 0.0;
    assert intensity * exp(0.0) > 0.0;
  }

  lemma LoneGazeLit(exp: Exp, g: GazePoint, dims: map<ScreenId, Extent>, n: nat, width: int, height: int, r: int, c: int,
                    cells: seq<HeatCell>, cell: HeatCell)
    requires Increasing(exp) && n > 0 && Timed([g]) && Shown(exp, GazeGrid([g], dims, n, g.screen), n, g.screen, cells)
    requires Sized(dims, g.screen, width, height) && width > 0 && height > 0 && Covers(g, width, height, n, r, c)
    requires cell in cells && cell.screen == g.screen
    ensures cell.intensity > 0.0 && Times(cell.intensity, exp(0.0)) == Reach(exp, cell.row - r, cell.column - c)
  {
    hide *;
    var grid := GazeGrid([g], dims, n, g.screen);
    InGrid(g, width, height, n, r, c);
    LoneGrid(g, dims, n, width, height, r, c);
    TimedWeighs(g);
    var heat, peak := HeatOf(exp, grid, n, g.screen, cells, cell);
    AloneHeat(exp, grid, n, r, c, Weighted(g), heat, peak, cell.row, cell.column);
  }

  lemma HeatOf(exp: Exp, grid: Grid, n: nat, s: ScreenId, cells: seq<HeatCell>, cell: HeatCell) returns (heat: Grid, peak: real)
    requires Square(grid, n) && Shown(exp, grid, n, s, cells) && cell in cells && cell.screen == s
    ensures Normalized(Job(exp, grid, n), heat, peak)
    ensures 0 <= cell.row < n && 0 <= cell.column < n && Square(heat, n)
    ensures cell.intensity == heat[cell.row][cell.column] > 0.0
  {
    hide Normalized, Job;
    heat, peak :| Normalized(Job(exp, grid, n), heat, peak) && ListsLit(cells, s, heat, n);
  }

  lemma InGrid(g: GazePoint, width: int, height: int, n: nat, r: int, c: int)
    requires Covers(g, width, height, n, r, c)
    ensures 0 <= r < n && 0 <= c < n
  {}

  lemma TimedWeighs(g: GazePoint)
    requires Timed([g])
    ensures Weighted(g) > 0.0
  {
    assert g in [g];
  }

  // A lone gaze at a point of row r and column c is reported as a bell around
  // (r, c): at dy rows and dx columns away exp(-(dy * dy + dx * dx) / 2.88), as a
  // share of exp(0), which is the intensity 1; and nothing beyond two cells.
  lemma LoneGazeShows(exp: Exp, g: GazePoint, dims: map<ScreenId, Extent>, n: nat, width: int, height: int, r: int, c: int,
                      cells: seq<HeatCell>, cell: HeatCell)
    requires Increasing(exp) && n > 0 && Timed([g]) && Shown(exp, GazeGrid([g], dims, n, g.screen), n, g.screen, cells)
    requires Sized(dims, g.screen, width, height) && width > 0 && height > 0 && Covers(g, width, height, n, r, c)
    requires cell in cells && cell.screen == g.screen
    ensures -2 <= cell.row - r <= 2 && -2 <= cell.column - c <= 2
    ensures cell.intensity * exp(0.0) == BellAt(exp, cell.row - r, cell.column - c)
  {
    hide *;
    LoneGazeLit(exp, g, dims, n, width, height, r, c, cells, cell);
    LitIsNear(exp, cell.intensity, cell.row - r, cell.column - c);
  }
}
