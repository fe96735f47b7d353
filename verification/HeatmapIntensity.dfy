/** Normalised intensities: what the smoothed and rescaled grid says about the gazes behind it. */
module HeatmapIntensity {
  import opened RangeSums
  import opened Sampling
  import opened Heatmap

  const RADIUS: nat := 2
  const SIGMA := 1.2

  function Job(exp: Exp, grid: Grid, size: nat): (job: Smoothing)
    requires Square(grid, size)
    ensures job.Valid() && job.grid == grid && job.size == size && job.radius == RADIUS
  {
    var kernel := GaussianKernel(exp, RADIUS, SIGMA);
    GaussianIsSymmetric(exp, RADIUS, SIGMA);
    KernelSumPositive(kernel, RADIUS);
    Smoothing(grid, size, kernel, RADIUS, KernelSum(kernel))
  }

  // The largest smoothed value; zero for a grid without cells.
  predicate IsPeak(job: Smoothing, peak: real) {
    if job.size == 0 then peak == 0.0
    else
      && (exists y, x :: 0 <= y < job.size && 0 <= x < job.size && GatherAt(job, y, x) == peak)
      && (forall y, x :: 0 <= y < job.size && 0 <= x < job.size ==> GatherAt(job, y, x) <= peak)
  }

  function Rescaled(value: real, peak: real): real {
    if peak <= 0.0 then value else value / peak
  }

  ghost predicate Normalized(job: Smoothing, heat: Grid, peak: real) {
    && Square(heat, job.size)
    && IsPeak(job, peak)
    && forall y, x :: job.Inside(y, x) ==> heat[y][x] == Rescaled(GatherAt(job, y, x), peak)
  }

  method Peak(smoothed: array2<real>, ghost job: Smoothing) returns (peak: real)
    requires smoothed.Length0 == smoothed.Length1 == job.size
    requires forall y, x :: job.Inside(y, x) ==> smoothed[y, x] == GatherAt(job, y, x)
    ensures IsPeak(job, peak)
  {
    hide GatherAt;
    if smoothed.Length0 == 0 {
      return 0.0;
    }
    peak := smoothed[0, 0];
    ghost var py, px := 0, 0;
    for y := 0 to smoothed.Length0
      invariant job.Inside(py, px) && peak == GatherAt(job, py, px)
      invariant forall v, u :: 0 <= v < y && 0 <= u < job.size ==> GatherAt(job, v, u) <= peak
    {
      for x := 0 to smoothed.Length1
        invariant job.Inside(py, px) && peak == GatherAt(job, py, px)
        invariant forall v, u :: 0 <= v < y && 0 <= u < job.size ==> GatherAt(job, v, u) <= peak
        invariant forall u :: 0 <= u < x ==> GatherAt(job, y, u) <= peak
      {
        if smoothed[y, x] > peak {
          peak := smoothed[y, x];
          py, px := y, x;
        }
      }
    }
  }

  method RescaleRow(smoothed: array2<real>, y: nat, peak: real) returns (row: seq<real>)
    requires y < smoothed.Length0
    ensures |row| == smoothed.Length1
    ensures forall x :: 0 <= x < |row| ==> row[x] == Rescaled(smoothed[y, x], peak)
  {
    hide Rescaled;
    row := [];
    for x := 0 to smoothed.Length1
      invariant |row| == x
      invariant forall u :: 0 <= u < x ==> row[u] == Rescaled(smoothed[y, u], peak)
    {
      row := row + [Rescaled(smoothed[y, x], peak)];
    }
  }

  method Rescale(smoothed: array2<real>, size: nat, peak: real) returns (heat: Grid)
    requires smoothed.Length0 == smoothed.Length1 == size
    ensures Square(heat, size)
    ensures forall y, x :: 0 <= y < size && 0 <= x < size ==> heat[y][x] == Rescaled(smoothed[y, x], peak)
  {
    hide Rescaled;
    heat := [];
    for y := 0 to size
      invariant |heat| == y
      invariant forall v :: 0 <= v < y ==> |heat[v]| == size
      invariant forall v, x :: 0 <= v < y && 0 <= x < size ==> heat[v][x] == Rescaled(smoothed[v, x], peak)
    {
      var row := RescaleRow(smoothed, y, peak);
      heat := heat + [row];
    }
  }

  method SmoothAndNormalize(exp: Exp, grid: Grid, size: nat) returns (heat: Grid)
    requires Square(grid, size)
    ensures exists peak :: Normalized(Job(exp, grid, size), heat, peak)
  {
    var job := Job(exp, grid, size);
    hide GatherAt, GaussianKernel, KernelSum, Symmetric, Rescaled, IsPeak;
    var smoothed := Spread(job);
    var peak := Peak(smoothed, job);
    heat := Rescale(smoothed, size, peak);
    assert Normalized(job, heat, peak);
  }

  // ---- what the intensities mean ----

  ghost predicate NonNegative(grid: Grid) {
    forall y, x :: At(grid, y, x) >= 0.0
  }

  // A gazed cell within the kernel's reach of another.
  predicate Nearby(job: Smoothing, gy: int, gx: int, y: int, x: int) {
    && job.Inside(gy, gx)
    && At(job.grid, gy, gx) > 0.0
    && y - job.radius <= gy <= y + job.radius
    && x - job.radius <= gx <= x + job.radius
  }

  lemma PortionSign(value: real, weight: real, scale: Positive)
    requires value >= 0.0 && weight >= 0.0
    ensures Portion(value, weight, scale) >= 0.0
    ensures Portion(value, weight, scale) > 0.0 <==> value > 0.0 && weight > 0.0
  {
    if value > 0.0 && weight > 0.0 {
      var product := value * weight;
      assert product > 0.0;
      assert product / scale > 0.0;
    }
  }

  lemma GivenSign(job: Smoothing, gy: int, gx: int, y: int, x: int)
    requires job.Valid() && NonNegative(job.grid)
    ensures Given(job, gy, gx, y, x) >= 0.0
    ensures Given(job, gy, gx, y, x) > 0.0 <==> Nearby(job, gy, gx, y, x)
  {
    hide Portion, KernelSum;
    var ky, kx := y - gy + job.radius, x - gx + job.radius;
    assert At(job.kernel, ky, kx) >= 0.0;
    PortionSign(At(job.grid, gy, gx), At(job.kernel, ky, kx), job.scale);
  }

  // A smoothed cell is lit exactly when a gazed cell is in reach.
  lemma LitIffNearby(job: Smoothing, y: int, x: int)
    requires job.Valid() && NonNegative(job.grid)
    ensures GatherAt(job, y, x) >= 0.0
    ensures GatherAt(job, y, x) > 0.0 <==> exists gy, gx :: Nearby(job, gy, gx, y, x)
  {
    SpreadIsGather(job, y, x);
    hide GatherAt, KernelSum, Symmetric, NonNegative, Given;
    var rows := (gy: int) => RowGives(job, gy, job.size, y, x);
    forall gy: int
      ensures rows(gy) >= 0.0
      ensures 0 <= gy < job.size ==> (rows(gy) > 0.0 <==> exists gx :: Nearby(job, gy, gx, y, x))
    {
      RowLit(job, gy, y, x);
    }
    SumNonNegative(0, job.size, rows);
    SumSame(0, job.size, rows, gy => RowGives(job, gy, job.size, y, x));
    if gy, gx :| Nearby(job, gy, gx, y, x) {
      assert 0 <= gy < job.size && rows(gy) > 0.0;
    } else {
      SumZero(0, job.size, rows);
    }
  }

  lemma RowLit(job: Smoothing, gy: int, y: int, x: int)
    requires job.Valid() && NonNegative(job.grid)
    ensures RowGives(job, gy, job.size, y, x) >= 0.0
    ensures RowGives(job, gy, job.size, y, x) > 0.0 <==> exists gx :: Nearby(job, gy, gx, y, x)
  {
    hide KernelSum, Symmetric, NonNegative, Given;
    var cells := (gx: int) => Given(job, gy, gx, y, x);
    forall gx: int
      ensures cells(gx) >= 0.0
      ensures cells(gx) > 0.0 <==> Nearby(job, gy, gx, y, x)
    {
      GivenSign(job, gy, gx, y, x);
    }
    SumNonNegative(0, job.size, cells);
    SumSame(0, job.size, cells, gx => Given(job, gy, gx, y, x));
    if gx :| Nearby(job, gy, gx, y, x) {
      assert cells(gx) > 0.0;
    } else {
      SumZero(0, job.size, cells);
    }
  }

  lemma RescaledRange(value: real, peak: real)
    requires 0.0 <= value <= peak
    ensures 0.0 <= Rescaled(value, peak) <= 1.0
    ensures Rescaled(value, peak) > 0.0 <==> value > 0.0
    ensures peak > 0.0 && value == peak ==> Rescaled(value, peak) == 1.0
  {
    if peak > 0.0 {
      var q := value / peak;
      assert q * peak == value;
      if q > 1.0 {
        assert (q - 1.0) * peak > 0.0;
      }
    }
  }

  // Every intensity lies in [0, 1]; a cell is lit exactly when a gazed cell is in
  // reach; and as soon as anything was gazed at, the hottest cell is exactly 1.
  lemma IntensityMeans(job: Smoothing, heat: Grid, peak: real)
    requires job.Valid() && NonNegative(job.grid) && Normalized(job, heat, peak)
    ensures forall y, x :: job.Inside(y, x) ==>
              && 0.0 <= heat[y][x] <= 1.0
              && (heat[y][x] > 0.0 <==> exists gy, gx :: Nearby(job, gy, gx, y, x))
    ensures (exists y, x :: job.Inside(y, x) && heat[y][x] == 1.0) <==>
            (exists y, x :: job.Inside(y, x) && At(job.grid, y, x) > 0.0)
  {
    hide GatherAt, KernelSum, Symmetric, NonNegative, Rescaled;
    forall y, x | job.Inside(y, x)
      ensures 0.0 <= GatherAt(job, y, x) <= peak
      ensures 0.0 <= heat[y][x] <= 1.0
      ensures heat[y][x] > 0.0 <==> exists gy, gx :: Nearby(job, gy, gx, y, x)
      ensures At(job.grid, y, x) > 0.0 ==> peak > 0.0
      ensures peak > 0.0 && GatherAt(job, y, x) == peak ==> heat[y][x] == 1.0
    {
      LitIffNearby(job, y, x);
      RescaledRange(GatherAt(job, y, x), peak);
      if At(job.grid, y, x) > 0.0 {
        assert Nearby(job, y, x, y, x);
      }
    }
    if y, x :| job.Inside(y, x) && At(job.grid, y, x) > 0.0 {
      assert job.size > 0;
      var py, px :| 0 <= py < job.size && 0 <= px < job.size && GatherAt(job, py, px) == peak;
      assert job.Inside(py, px) && heat[py][px] == 1.0;
    }
    if y, x :| job.Inside(y, x) && heat[y][x] == 1.0 {
      var gy, gx :| Nearby(job, gy, gx, y, x);
      assert job.Inside(gy, gx) && At(job.grid, gy, gx) > 0.0;
    }
  }
}
